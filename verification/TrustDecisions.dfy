/**
  * What the trust evaluation of qsmlops/scores.py answers, told from the evidence alone: which decision, which
  * blockers, and the exact value of every component.
  */
module TrustDecisions {
  import opened Counting
  import opened RealArithmetic
  import opened TrustScores

  // ---- The decision ----

  /** Some agent reports a failure of high or critical severity. */
  ghost predicate HighFailureReported(os: seq<Observation>) {
    exists o, f :: o in os && f in o.findings && !f.passed && f.severity in {"HIGH", "CRITICAL"}
  }

  lemma {:induction false} CollectHolds(os: seq<Observation>, p: string -> bool, f: Finding)
    ensures f in Collect(os, p) <==> exists o :: o in os && p(o.agent) && f in o.findings
  {
    if os != [] {
      var n := |os| - 1;
      assert os == os[..n] + [os[n]];
      CollectHolds(os[..n], p, f);
    }
  }

  lemma {:induction false} NoHighFailures(os: seq<Observation>)
    ensures CountBy(Collect(os, AnyAgent()), HighFailure()) == 0 <==> !HighFailureReported(os)
  {
    var fs := Collect(os, AnyAgent());
    CountBound(fs, HighFailure());
    forall f ensures f in fs <==> exists o :: o in os && AnyAgent()(o.agent) && f in o.findings {
      CollectHolds(os, AnyAgent(), f);
    }
    if HighFailureReported(os) {
      var o, f :| o in os && f in o.findings && !f.passed && f.severity in {"HIGH", "CRITICAL"};
      assert AnyAgent()(o.agent) && f in fs;
      var i :| 0 <= i < |fs| && fs[i] == f;
      assert HighFailure()(fs[i]);
    } else {
      forall i | 0 <= i < |fs| ensures !HighFailure()(fs[i]) {
        assert fs[i] in fs;
      }
    }
  }

  /** The same text but for the case of ASCII letters; `upper` is in capitals. */
  predicate SameLetters(s: string, upper: string) {
    |s| == |upper| && forall i :: 0 <= i < |s| ==> s[i] == upper[i] || s[i] as int == upper[i] as int + 32
  }

  lemma {:induction false} QuarantinedText(s: string)
    ensures Upper(s) == "QUARANTINED" <==> SameLetters(s, "QUARANTINED")
  {
    var capitals := "QUARANTINED";
    assert forall i :: 0 <= i < |capitals| ==> 'A' <= capitals[i] <= 'Z';
  }

  /** Neither quarantined nor blocked. */
  ghost predicate Open(e: Evidence) {
    !SameLetters(e.state, "QUARANTINED") && Evaluate(e).blocking == []
  }

  /** High enough, and no high failure stands against it. */
  ghost predicate Trustworthy(e: Evidence) {
    Evaluate(e).trustScore >= e.trusted && !HighFailureReported(e.observations)
  }

  /** Each decision is made exactly under its own condition. */
  lemma {:induction false} DecisionExact(e: Evidence)
    ensures var r := Evaluate(e);
            && (r.decision == Quarantined <==> SameLetters(e.state, "QUARANTINED"))
            && (r.decision == Blocked <==> !SameLetters(e.state, "QUARANTINED") && r.blocking != [])
            && (r.decision == Trusted <==> Open(e) && Trustworthy(e))
            && (r.decision == ConditionallyTrusted <==> Open(e) && !Trustworthy(e) && r.trustScore >= e.conditional)
            && (r.decision == ReviewRequired <==> Open(e) && !Trustworthy(e) && r.trustScore < e.conditional)
            && (r.eligible <==> Open(e) && (Trustworthy(e) || r.trustScore >= e.conditional))
  {
    QuarantinedText(e.state);
    NoHighFailures(e.observations);
  }

  // ---- The blockers ----

  /** When each hard blocker is raised. */
  ghost predicate Raised(e: Evidence, b: Blocker) {
    var signed := e.passport.Some? && e.passport.value.signature.Some?;
    match b
    case PassportUnsigned => !signed
    case SignatureInvalid => signed && !(e.keystore.Some? && e.passport.value.signature.value.check == Verifies)
    case SignerRevoked =>
      signed && e.keystore.Some? && e.passport.value.signature.value.signerKeyId in e.keystore.value
      && e.keystore.value[e.passport.value.signature.value.signerKeyId].status == "revoked"
    case SignerUnknown =>
      signed && e.keystore.Some? && e.passport.value.signature.value.check == Verifies
      && e.passport.value.signature.value.signerKeyId !in e.keystore.value
    case ArtifactCorrupted => e.store.Some? && e.artifactDigest != "" && e.artifactDigest !in e.store.value
    case ArtifactMismatch =>
      e.passport.Some? && (e.passport.value.artifactDigest == "" || e.passport.value.artifactDigest != e.artifactDigest)
  }

  lemma {:induction false} BlockersListed(e: Evidence, b: Blocker)
    ensures b in Evaluate(e).blocking <==> Raised(e, b)
  {
    assert b in Blocking(e) <==> b in SignatureBlockers(e) || b in ArtifactBlockers(e);
    if b.Cryptographic() {
      SignatureListed(e, b);
    }
  }

  lemma {:induction false} SignatureListed(e: Evidence, b: Blocker)
    requires b.Cryptographic()
    ensures b in SignatureBlockers(e) <==> Raised(e, b)
  {
  }

  // ---- The cost of findings ----

  lemma {:induction false} PointsAdd(fs: seq<Finding>, gs: seq<Finding>)
    ensures TotalPoints(fs + gs) == TotalPoints(fs) + TotalPoints(gs)
  {
    if gs == [] {
      assert fs + gs == fs;
    } else {
      assert (fs + gs)[..|fs + gs| - 1] == fs + gs[..|gs| - 1];
      PointsAdd(fs, gs[..|gs| - 1]);
    }
  }

  /** What a failure costs at full confidence; at no confidence it costs half of that. */
  function FullCost(severity: string): int {
    if severity == "CRITICAL" then 45
    else if severity == "HIGH" then 20
    else if severity == "MEDIUM" then 8
    else if severity == "LOW" then 2
    else 5
  }

  lemma {:induction false} OneFinding(f: Finding)
    requires 0.0 <= f.confidence <= 1.0
    ensures 2.0 * TotalPoints([f]) == if f.passed then 0.0 else FullCost(f.severity) as real * (1.0 + f.confidence)
    ensures Deduction([f]) == TotalPoints([f])
  {
    assert [f][..0] == [];
    assert TotalPoints([f]) == TotalPoints([f][..0]) + Points(f);
    if !f.passed {
      HalfWeight(SeverityDeduction(f.severity), f.confidence);
    }
  }

  lemma HalfWeight(d: real, c: real)
    requires 0.0 <= d <= 45.0 && 0.0 <= c <= 1.0
    ensures 2.0 * (d * (0.5 + 0.5 * c)) == d * (1.0 + c) <= 90.0
  {
    MulMonotone(d, 1.0 + c, 2.0);
  }

  // ---- The scores ----

  lemma {:induction false} OnGrid(x: real, n: int)
    requires 0.0 <= x <= 100.0 && x == n as real
    ensures Clamp(x) == x
  {
    RoundAtGrid(x, 100.0, 100 * n);
  }

  /** The key alone: thirty points for an unknown one, five for one over a year old, twenty-five for an expired one. */
  function KeyCost(passport: Option<Passport>, keystore: Option<KeyStore>, now: real): int {
    if passport.None? || passport.value.signature.None? || keystore.None? then 0
    else
      var id := passport.value.signature.value.signerKeyId;
      if id !in keystore.value then 30
      else
        var k := keystore.value[id];
        (if now > k.createdAt + 31536000.0 then 5 else 0)
        + (match k.expiresAt
           case Some(t) => if t != 0.0 && t <= now then 25 else 0
           case None => 0)
  }

  lemma OverAYear(age: real)
    ensures age / 86400.0 > 365.0 <==> age > 31536000.0
  {
  }

  lemma {:induction false} KeyPenaltyIs(passport: Option<Passport>, keystore: Option<KeyStore>, now: real)
    ensures KeyPenalty(passport, keystore, now) == KeyCost(passport, keystore, now) as real
  {
    if passport.Some? && passport.value.signature.Some? && keystore.Some? {
      var id := passport.value.signature.value.signerKeyId;
      if id in keystore.value {
        OverAYear(now - keystore.value[id].createdAt);
      }
    }
  }

  /** The points of all findings that the named agents report. */
  function PointsReported(os: seq<Observation>, agents: string -> bool): real {
    if os == [] then 0.0
    else (if agents(os[0].agent) then TotalPoints(os[0].findings) else 0.0) + PointsReported(os[1..], agents)
  }

  /** What an observation contributes. */
  function Contributed(o: Observation, p: string -> bool): seq<Finding> {
    if p(o.agent) then o.findings else []
  }

  lemma {:induction false} CollectLast(os: seq<Observation>, o: Observation, p: string -> bool)
    ensures Collect(os + [o], p) == Collect(os, p) + Contributed(o, p)
  {
    assert (os + [o])[..|os|] == os;
  }

  lemma {:induction false} CollectFirst(o: Observation, os: seq<Observation>, p: string -> bool)
    ensures Collect([o] + os, p) == Contributed(o, p) + Collect(os, p)
  {
    if os == [] {
      CollectLast([], o, p);
      assert [] + [o] == [o] + os;
    } else {
      var init, last := os[..|os| - 1], os[|os| - 1];
      CollectFirst(o, init, p);
      CollectLast([o] + init, last, p);
      assert [o] + init + [last] == [o] + os;
      Regroup(Contributed(o, p), Collect(init, p), Contributed(last, p));
    }
  }

  lemma {:induction false} PointsCollected(os: seq<Observation>, p: string -> bool)
    ensures TotalPoints(Collect(os, p)) == PointsReported(os, p)
  {
    if os != [] {
      assert os == [os[0]] + os[1..];
      PointsCollected(os[1..], p);
      CollectFirst(os[0], os[1..], p);
      PointsAdd(Contributed(os[0], p), Collect(os[1..], p));
    }
  }

  function Lesser(x: real, y: real): real {
    if x < y then x else y
  }

  /** Security: a hundred less the points of the four crypto agents, at most a hundred, and less the cost of the key. */
  lemma {:induction false} SecurityByCost(os: seq<Observation>, passport: Option<Passport>, keystore: Option<KeyStore>,
                                          now: real)
    ensures forall agent :: CryptoAgent()(agent) <==>
                              agent in {"quantum-security-agent", "security-agent", "red-team-agent", "data-agent"}
    ensures SecurityScore(os, passport, keystore, now) ==
              Clamp(100.0 - Lesser(PointsReported(os, CryptoAgent()), 100.0)
                    - KeyCost(passport, keystore, now) as real)
  {
    PointsCollected(os, CryptoAgent());
    KeyPenaltyIs(passport, keystore, now);
  }

  /** Trust: the same over all agents, at most ten points above a given security score, less the cost of the drift. */
  lemma {:induction false} TrustByCost(os: seq<Observation>, security: Option<real>, drift: Option<string>)
    ensures forall agent :: AnyAgent()(agent)
    ensures var base := 100.0 - Lesser(PointsReported(os, AnyAgent()), 100.0);
            TrustScore(os, security, drift) ==
            Clamp((if security.None? then base else Lesser(base, security.value + 10.0)) - DriftPoints(drift) as real)
  {
    PointsCollected(os, AnyAgent());
    DriftIs(drift);
    if security.Some? {
      CappedIs(100.0 - Deduction(Collect(os, AnyAgent())), security.value);
    }
  }

  lemma CappedIs(x: real, security: real)
    ensures Capped(x, Some(security)) == Lesser(x, security + 10.0)
  {
  }

  lemma {:induction false} DriftIs(drift: Option<string>)
    ensures DriftCost(DriftLevel(drift)) == DriftPoints(drift) as real && 0 <= DriftPoints(drift) <= 35
  {
  }

  function DriftPoints(drift: Option<string>): int {
    if drift.None? then 0
    else if Upper(drift.value) == "CRITICAL" then 35
    else if Upper(drift.value) == "HIGH" then 20
    else if Upper(drift.value) == "MEDIUM" then 8
    else 0
  }

  // ---- The components ----

  function If(condition: bool, points: int): int {
    if condition then points else 0
  }

  ghost predicate HasKind(e: Evidence, kind: string) {
    e.bom.Some? && exists b :: b in e.bom.value && b.kind == kind
  }

  function FieldPoints(fields: set<string>): (n: int)
    ensures 0 <= n <= 60
  {
    If("bom_digest" in fields, 12) + If("dataset_name" in fields, 12) + If("dataset_digest" in fields, 12)
    + If("n_samples" in fields, 12) + If("feature_names" in fields, 12)
  }

  ghost function KindsPresent(e: Evidence): (n: int)
    ensures 0 <= n <= 40
  {
    If(HasKind(e, "dataset"), 15) + If(HasKind(e, "code"), 10) + If(HasKind(e, "framework"), 10)
    + If(HasKind(e, "hardware"), 5)
  }

  /** Twelve points for each of five provenance fields, and up to forty for the kinds in the bill of materials. */
  ghost function LineagePoints(e: Evidence): int {
    FieldPoints(if e.passport.Some? then e.passport.value.provenance else {}) + KindsPresent(e)
  }

  function Present(fields: set<string>): string -> bool {
    (f: string) => f in fields
  }

  lemma {:induction false} CountNext<T>(s: seq<T>, n: nat, p: T -> bool)
    requires n < |s|
    ensures CountBy(s[..n + 1], p) == CountBy(s[..n], p) + if p(s[n]) then 1 else 0
  {
    assert s[..n + 1][..n] == s[..n];
  }

  lemma {:induction false} FieldsCount(fields: set<string>)
    ensures 12 * CountBy(PROVENANCE_FIELDS, Present(fields)) == FieldPoints(fields)
  {
    var s, p := PROVENANCE_FIELDS, Present(fields);
    CountNext(s, 0, p);
    CountNext(s, 1, p);
    CountNext(s, 2, p);
    CountNext(s, 3, p);
    CountNext(s, 4, p);
    assert s[..5] == s;
    FieldSum(p(s[0]), p(s[1]), p(s[2]), p(s[3]), p(s[4]), CountBy(s, p));
  }

  lemma FieldSum(a: bool, b: bool, c: bool, d: bool, e: bool, n: nat)
    requires n == If(a, 1) + If(b, 1) + If(c, 1) + If(d, 1) + If(e, 1)
    ensures 12 * n == If(a, 12) + If(b, 12) + If(c, 12) + If(d, 12) + If(e, 12)
  {
  }

  lemma {:induction false} KindNext(entries: seq<BomEntry>, kinds: seq<(string, real)>, n: nat)
    requires n < |kinds|
    ensures KindPoints(entries, kinds[..n + 1]) == KindPoints(entries, kinds[..n])
            + (if exists b :: b in entries && b.kind == kinds[n].0 then kinds[n].1 else 0.0)
  {
    assert kinds[..n + 1][..n] == kinds[..n];
  }

  lemma {:induction false} KindsCount(e: Evidence)
    requires e.bom.Some?
    ensures KindPoints(e.bom.value, BOM_POINTS) == KindsPresent(e) as real
  {
    var entries, k := e.bom.value, BOM_POINTS;
    KindNext(entries, k, 0);
    KindNext(entries, k, 1);
    KindNext(entries, k, 2);
    KindNext(entries, k, 3);
    assert k[..4] == k;
  }

  lemma {:induction false} LineageExact(e: Evidence)
    ensures LineageComponent(e) == LineagePoints(e) as real
  {
    var fields := if e.passport.Some? then e.passport.value.provenance else {};
    var count := CountBy(PROVENANCE_FIELDS, Present(fields));
    FieldsCount(fields);
    SameFields(fields);
    if e.bom.Some? {
      KindsCount(e);
    }
    LineageSum(count, if e.bom.Some? then KindPoints(e.bom.value, BOM_POINTS) else 0.0, FieldPoints(fields),
               KindsPresent(e));
  }

  lemma {:induction false} SameFields(fields: set<string>)
    ensures CountBy(PROVENANCE_FIELDS, (f: string) => f in fields) == CountBy(PROVENANCE_FIELDS, Present(fields))
  {
    CountMonotone(PROVENANCE_FIELDS, Present(fields), (f: string) => f in fields);
    CountMonotone(PROVENANCE_FIELDS, (f: string) => f in fields, Present(fields));
  }

  lemma {:induction false} LineageSum(count: nat, kinds: real, m: int, n: int)
    requires 12 * count == m && kinds == n as real && 0 <= m <= 60 && 0 <= n <= 40
    ensures Clamp(12.0 * count as real + kinds) == (m + n) as real
  {
    assert 12.0 * count as real == m as real;
    OnGrid((m + n) as real, m + n);
  }

  /** How many entries of the bill of materials do not verify. */
  function Unconfirmed(entries: seq<BomEntry>, store: Option<set<string>>): nat {
    if entries == [] then 0
    else
      Unconfirmed(entries[1..], store) + if store.Some? && entries[0].digest in store.value then 0 else 1
  }

  lemma {:induction false} UnconfirmedCount(entries: seq<BomEntry>, store: Option<set<string>>)
    ensures Unconfirmed(entries, store) == CountBy(entries, Unverified(store))
  {
    if entries != [] {
      UnconfirmedCount(entries[1..], store);
      assert entries == [entries[0]] + entries[1..];
      CountConcat([entries[0]], entries[1..], Unverified(store));
      assert [entries[0]][..0] == [];
      assert CountBy([entries[0]], Unverified(store)) == if Unverified(store)(entries[0]) then 1 else 0;
    }
  }

  function AtLeastZero(x: int): int {
    if x < 0 then 0 else x
  }

  lemma {:induction false} IntegrityExact(e: Evidence)
    ensures IntegrityComponent(e) ==
              if Raised(e, ArtifactCorrupted) || Raised(e, ArtifactMismatch) then 0.0
              else if e.bom.None? then 60.0
              else AtLeastZero(100 - 25 * Unconfirmed(e.bom.value, e.store)) as real
  {
    ClampedNegative(0.0);
    OnGrid(60.0, 60);
    if e.bom.Some? {
      UnconfirmedCount(e.bom.value, e.store);
      var x := 100 - 25 * Unconfirmed(e.bom.value, e.store);
      if x >= 0 {
        OnGrid(x as real, x);
      } else {
        ClampedNegative(x as real);
      }
    }
  }

  lemma {:induction false} ClampedNegative(x: real)
    requires x <= 0.0
    ensures Clamp(x) == 0.0
  {
    ClampLaws(x, x);
  }

  /** No metrics, no component; else a hundred, fifty or nothing for two, one or none of them within bounds. */
  lemma {:induction false} PerformanceExact(e: Evidence)
    ensures PerformanceComponent(e).Some? <==>
              e.passport.Some? && e.passport.value.r2.Some? && e.passport.value.mse.Some?
    ensures PerformanceComponent(e).Some? ==>
              PerformanceComponent(e).value ==
              (If(e.passport.value.r2.value >= 0.8, 50) + If(e.passport.value.mse.value <= 0.05, 50)) as real
  {
    OnGrid(100.0, 100);
    OnGrid(50.0, 50);
    ClampedNegative(0.0);
  }

  /** How many findings have failed, whoever reports them. */
  function FailuresReported(os: seq<Observation>): nat {
    if os == [] then 0 else CountBy(os[0].findings, Failed()) + FailuresReported(os[1..])
  }

  lemma {:induction false} FailuresCollected(os: seq<Observation>)
    ensures CountBy(Collect(os, AnyAgent()), Failed()) == FailuresReported(os)
  {
    if os != [] {
      assert os == [os[0]] + os[1..];
      FailuresCollected(os[1..]);
      CollectFirst(os[0], os[1..], AnyAgent());
      CountConcat(os[0].findings, Collect(os[1..], AnyAgent()), Failed());
    }
  }

  /** Ten points for each failure, up to forty. */
  function FailuresCost(os: seq<Observation>): int {
    if FailuresReported(os) >= 4 then 40 else 10 * FailuresReported(os)
  }

  lemma {:induction false} OperationalExact(e: Evidence)
    ensures OperationalComponent(e) == (100 - DriftLoss(e.drift) - FailuresCost(e.observations)) as real
  {
    FailuresCollected(e.observations);
    OnGrid((100 - DriftLoss(e.drift) - FailuresCost(e.observations)) as real,
           100 - DriftLoss(e.drift) - FailuresCost(e.observations));
  }

  function DriftLoss(drift: Option<string>): int {
    if drift.None? then 0
    else if Upper(drift.value) == "CRITICAL" then 60
    else if Upper(drift.value) == "HIGH" then 30
    else if Upper(drift.value) == "MEDIUM" then 15
    else 0
  }

  // ---- The composite ----

  lemma {:induction false} WeightNext(weights: seq<(string, real)>, c: map<string, real>, n: nat)
    requires n < |weights|
    ensures WeightTotal(weights[..n + 1], c) ==
              WeightTotal(weights[..n], c) + if weights[n].0 in c then weights[n].1 else 0.0
    ensures WeightedSum(weights[..n + 1], c) ==
              WeightedSum(weights[..n], c) + if weights[n].0 in c then weights[n].1 * c[weights[n].0] else 0.0
  {
    assert weights[..n + 1][..n] == weights[..n];
  }

  lemma {:induction false} FiveWeights(c: map<string, real>)
    requires {"security", "integrity", "lineage", "operational"} <= c.Keys
    ensures WeightTotal(WEIGHTS, c) == if "performance" in c then 1.0 else 0.85
    ensures WeightedSum(WEIGHTS, c) ==
              0.35 * c["security"] + 0.25 * c["integrity"] + 0.15 * c["lineage"] + 0.10 * c["operational"]
              + if "performance" in c then 0.15 * c["performance"] else 0.0
  {
    WeightNext(WEIGHTS, c, 0);
    WeightNext(WEIGHTS, c, 1);
    WeightNext(WEIGHTS, c, 2);
    WeightNext(WEIGHTS, c, 3);
    WeightNext(WEIGHTS, c, 4);
    assert WEIGHTS[..5] == WEIGHTS;
  }

  /** The components under their weights; absent metrics weigh nothing. */
  function Mean(c: map<string, real>): real
    requires {"security", "integrity", "lineage", "operational"} <= c.Keys
  {
    var four := 0.35 * c["security"] + 0.25 * c["integrity"] + 0.15 * c["lineage"] + 0.10 * c["operational"];
    if "performance" in c then four + 0.15 * c["performance"] else four / 0.85
  }

  lemma {:induction false} CompositeIsMean(c: map<string, real>)
    requires {"security", "integrity", "lineage", "operational"} <= c.Keys && InRange(c)
    ensures Composite(c) == RoundAt(Mean(c), 100.0)
  {
    FiveWeights(c);
    CompositeInRange(c);
    ClampedMean(WeightedSum(WEIGHTS, c), WeightTotal(WEIGHTS, c), Mean(c));
  }

  lemma ClampedMean(sum: real, total: real, mean: real)
    requires total != 0.0 && mean == sum / total && 0.0 <= sum / total <= 100.0
    ensures Clamp(sum / total) == RoundAt(mean, 100.0)
  {
  }

  /** The trust score of an evaluation is the mean of its components under fixed weights, without absent metrics. */
  lemma {:induction false} CompositeExact(e: Evidence)
    ensures var c := Evaluate(e).components;
            && c.Keys == {"security", "integrity", "lineage", "operational"}
                         + (if PerformanceComponent(e).Some? then {"performance"} else {})
            && Evaluate(e).trustScore == RoundAt(Mean(c), 100.0)
  {
    ResultInRange(e);
    CompositeIsMean(Evaluate(e).components);
  }

  /** Each component, exactly. */
  lemma {:induction false} ComponentsExact(e: Evidence)
    ensures var c := Evaluate(e).components;
            && c["security"] == Evaluate(e).securityScore
            && c["lineage"] == LineagePoints(e) as real
            && c["operational"] == (100 - DriftLoss(e.drift) - FailuresCost(e.observations)) as real
            && c["integrity"] ==
               (if Raised(e, ArtifactCorrupted) || Raised(e, ArtifactMismatch) then 0.0
                else if e.bom.None? then 60.0
                else AtLeastZero(100 - 25 * Unconfirmed(e.bom.value, e.store)) as real)
            && (PerformanceComponent(e).Some? ==> c["performance"] == PerformanceComponent(e).value)
  {
    LineageExact(e);
    OperationalExact(e);
    IntegrityExact(e);
  }

  /** The security component falls to zero with a broken signature chain, and is the security score otherwise. */
  lemma {:induction false} SecurityExact(e: Evidence)
    ensures Evaluate(e).securityScore ==
              if exists b :: Raised(e, b) && b.Cryptographic() then 0.0
              else SecurityScore(e.observations, e.passport, e.keystore, e.now)
  {
    forall b ensures b in SignatureBlockers(e) <==> Raised(e, b) && b.Cryptographic() {
      SignatureBlockersAre(e);
      if b.Cryptographic() {
        SignatureListed(e, b);
      }
    }
    ClampedNegative(0.0);
    if SignatureBlockers(e) == [] {
      ScoreIsClamped(e);
    } else {
      assert SignatureBlockers(e)[0] in SignatureBlockers(e);
    }
  }

  lemma {:induction false} ScoreIsClamped(e: Evidence)
    ensures var s := SecurityScore(e.observations, e.passport, e.keystore, e.now); Clamp(s) == s
  {
    var x := 100.0 - Deduction(Collect(e.observations, CryptoAgent())) - KeyPenalty(e.passport, e.keystore, e.now);
    ClampTwice(x);
  }

  lemma {:induction false} ClampTwice(x: real)
    ensures Clamp(Clamp(x)) == Clamp(x)
  {
    ClampLaws(x, x);
    var n := RoundHalfEven(Clip(x, 0.0, 100.0) * 100.0);
    assert Clamp(x) * 100.0 == n as real;
    RoundAtGrid(Clamp(x), 100.0, n);
  }
}
