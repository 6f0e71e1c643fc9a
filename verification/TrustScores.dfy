/** The security score, the trust score and the trust evaluation of qsmlops/scores.py, over exact reals. */
module TrustScores {
  import opened Counting
  import opened RealArithmetic

  // ---- Evidence ----

  datatype Finding = Finding(name: string, passed: bool, severity: string, confidence: real)
  datatype Observation = Observation(agent: string, findings: seq<Finding>)
  datatype KeyRecord = KeyRecord(status: string, createdAt: real, expiresAt: Option<real>)
  datatype Verification = Verifies | Fails | Raises
  datatype Signature = Signature(signerKeyId: string, check: Verification)
  datatype BomEntry = BomEntry(kind: string, name: string, digest: string)

  type KeyStore = map<string, KeyRecord>

  /** `provenance` holds the names of the non-empty provenance fields; a missing digest is the empty string. */
  datatype Passport = Passport(signature: Option<Signature>, artifactDigest: string, provenance: set<string>,
                               r2: Option<real>, mse: Option<real>)

  /** `store` is the set of digests that verify in the artifact store. */
  datatype Evidence = Evidence(
    state: string, artifactDigest: string, passport: Option<Passport>, keystore: Option<KeyStore>,
    store: Option<set<string>>, bom: Option<seq<BomEntry>>, observations: seq<Observation>,
    drift: Option<string>, trusted: real, conditional: real, now: real)

  datatype Blocker =
    | PassportUnsigned | SignatureInvalid | SignerRevoked | SignerUnknown | ArtifactCorrupted | ArtifactMismatch
  {
    predicate Cryptographic() {
      PassportUnsigned? || SignatureInvalid? || SignerRevoked? || SignerUnknown?
    }
  }

  datatype Decision = Trusted | ConditionallyTrusted | ReviewRequired | Blocked | Quarantined

  datatype TrustResult = TrustResult(decision: Decision, trustScore: real, securityScore: real,
                                     components: map<string, real>, blocking: seq<Blocker>, eligible: bool)

  const CRYPTO_AGENTS := {"quantum-security-agent", "security-agent", "red-team-agent", "data-agent"}
  const PROVENANCE_FIELDS := ["bom_digest", "dataset_name", "dataset_digest", "n_samples", "feature_names"]
  const BOM_POINTS: seq<(string, real)> := [("dataset", 15.0), ("code", 10.0), ("framework", 10.0), ("hardware", 5.0)]
  const WEIGHTS: seq<(string, real)> :=
    [("security", 0.35), ("integrity", 0.25), ("lineage", 0.15), ("performance", 0.15), ("operational", 0.10)]
  const MIN_R2 := 0.80
  const MAX_MSE := 0.05

  // ---- Deductions ----

  function Clip(x: real, lo: real, hi: real): real {
    if x < lo then lo else if x > hi then hi else x
  }

  /** `round(max(0.0, min(100.0, value)), 2)` */
  function Clamp(x: real): real {
    RoundAt(Clip(x, 0.0, 100.0), 100.0)
  }

  function SeverityDeduction(severity: string): (d: real)
    ensures 2.0 <= d <= 45.0
  {
    match severity
    case "LOW" => 2.0
    case "MEDIUM" => 8.0
    case "HIGH" => 20.0
    case "CRITICAL" => 45.0
    case _ => 5.0
  }

  predicate HighOrWorse(severity: string) {
    severity == "HIGH" || severity == "CRITICAL"
  }

  function Points(f: Finding): real {
    if f.passed then 0.0 else SeverityDeduction(f.severity) * (0.5 + 0.5 * Clip(f.confidence, 0.0, 1.0))
  }

  function TotalPoints(fs: seq<Finding>): real {
    if fs == [] then 0.0 else TotalPoints(fs[..|fs| - 1]) + Points(fs[|fs| - 1])
  }

  function Deduction(fs: seq<Finding>): real {
    if TotalPoints(fs) < 100.0 then TotalPoints(fs) else 100.0
  }

  method ComputeDeduction(fs: seq<Finding>) returns (deduction: real)
    ensures deduction == Deduction(fs)
  {
    var total := 0.0;
    for i := 0 to |fs|
      invariant total == TotalPoints(fs[..i])
    {
      assert fs[..i + 1][..i] == fs[..i];
      if !fs[i].passed {
        var weight := 0.5 + 0.5 * Clip(fs[i].confidence, 0.0, 1.0);
        total := total + SeverityDeduction(fs[i].severity) * weight;
      }
    }
    assert fs[..|fs|] == fs;
    deduction := if total < 100.0 then total else 100.0;
  }

  /** The findings of the observations whose agent satisfies `p`, in order. */
  function Collect(os: seq<Observation>, p: string -> bool): seq<Finding> {
    if os == [] then []
    else Collect(os[..|os| - 1], p) + (if p(os[|os| - 1].agent) then os[|os| - 1].findings else [])
  }

  function CryptoAgent(): string -> bool {
    agent => agent in CRYPTO_AGENTS
  }

  function AnyAgent(): string -> bool {
    agent => true
  }

  // ---- Scores ----

  /** What the age and the expiry of the signing key cost. */
  function KeyPenalty(passport: Option<Passport>, keystore: Option<KeyStore>, now: real): real {
    if passport.None? || passport.value.signature.None? || keystore.None? then 0.0
    else if passport.value.signature.value.signerKeyId !in keystore.value then 30.0
    else
      var rec := keystore.value[passport.value.signature.value.signerKeyId];
      (if (now - rec.createdAt) / 86400.0 > 365.0 then 5.0 else 0.0)
      + (if rec.expiresAt.Some? && rec.expiresAt.value != 0.0 && now >= rec.expiresAt.value then 25.0 else 0.0)
  }

  function SecurityScore(os: seq<Observation>, passport: Option<Passport>, keystore: Option<KeyStore>,
                         now: real): real {
    Clamp(100.0 - Deduction(Collect(os, CryptoAgent())) - KeyPenalty(passport, keystore, now))
  }

  method ComputeSecurityScore(os: seq<Observation>, passport: Option<Passport>, keystore: Option<KeyStore>, now: real)
    returns (result: real)
    ensures result == SecurityScore(os, passport, keystore, now)
  {
    var findings: seq<Finding> := [];
    for i := 0 to |os|
      invariant findings == Collect(os[..i], CryptoAgent())
    {
      assert os[..i + 1][..i] == os[..i];
      if os[i].agent in CRYPTO_AGENTS {
        findings := findings + os[i].findings;
      }
    }
    assert os[..|os|] == os;
    var deduction := ComputeDeduction(findings);
    var score := 100.0 - deduction;
    if passport.Some? && passport.value.signature.Some? && keystore.Some? {
      var id := passport.value.signature.value.signerKeyId;
      if id in keystore.value {
        var rec := keystore.value[id];
        var ageDays := (now - rec.createdAt) / 86400.0;
        if ageDays > 365.0 {
          score := score - 5.0;
        }
        if rec.expiresAt.Some? && rec.expiresAt.value != 0.0 && now >= rec.expiresAt.value {
          score := score - 25.0;
        }
      } else {
        score := score - 30.0;
      }
    }
    result := Clamp(score);
  }

  function UpperChar(c: char): char {
    if 'a' <= c <= 'z' then (c as int - 32) as char else c
  }

  function Upper(s: string): string {
    seq(|s|, i requires 0 <= i < |s| => UpperChar(s[i]))
  }

  /** How bad the drift summary says the drift is. */
  function DriftLevel(drift: Option<string>): (level: nat)
    ensures level <= 3
  {
    if drift.None? then 0
    else
      match Upper(drift.value)
      case "CRITICAL" => 3
      case "HIGH" => 2
      case "MEDIUM" => 1
      case _ => 0
  }

  function DriftCost(level: nat): real {
    match level
    case 3 => 35.0
    case 2 => 20.0
    case 1 => 8.0
    case _ => 0.0
  }

  function DriftPenalty(level: nat): real {
    match level
    case 3 => 60.0
    case 2 => 30.0
    case 1 => 15.0
    case _ => 0.0
  }

  function TrustScore(os: seq<Observation>, security: Option<real>, drift: Option<string>): real {
    TrustFrom(Deduction(Collect(os, AnyAgent())), security, DriftLevel(drift))
  }

  function TrustFrom(deduction: real, security: Option<real>, level: nat): real {
    Clamp(Capped(100.0 - deduction, security) - DriftCost(level))
  }

  /** Trust cannot exceed the cryptographic posture by more than ten points. */
  function Capped(x: real, security: Option<real>): real {
    if security.Some? && x > security.value + 10.0 then security.value + 10.0 else x
  }

  method ComputeDriftCost(drift: Option<string>) returns (cost: real)
    ensures cost == DriftCost(DriftLevel(drift))
  {
    if drift.None? {
      return 0.0;
    }
    var sev := Upper(drift.value);
    if sev == "CRITICAL" {
      return 35.0;
    } else if sev == "HIGH" {
      return 20.0;
    } else if sev == "MEDIUM" {
      return 8.0;
    }
    return 0.0;
  }

  method ComputeTrustScore(os: seq<Observation>, security: Option<real>, drift: Option<string>) returns (result: real)
    ensures result == TrustScore(os, security, drift)
  {
    var findings := Collect(os, AnyAgent());
    var deduction := ComputeDeduction(findings);
    var score := 100.0 - deduction;
    if security.Some? {
      score := if score > security.value + 10.0 then security.value + 10.0 else score;
    }
    var cost := ComputeDriftCost(drift);
    result := Clamp(score - cost);
  }

  // ---- Blockers ----

  predicate SignatureValid(e: Evidence) {
    && e.passport.Some? && e.passport.value.signature.Some? && e.keystore.Some?
    && e.passport.value.signature.value.check == Verifies
  }

  function SignerRecord(e: Evidence): Option<KeyRecord>
    requires e.passport.Some? && e.passport.value.signature.Some?
  {
    if e.keystore.None? then None else Find(e.keystore.value, e.passport.value.signature.value.signerKeyId)
  }

  function SignatureBlockers(e: Evidence): seq<Blocker> {
    if e.passport.None? || e.passport.value.signature.None? then [PassportUnsigned]
    else
      (if e.keystore.Some? && e.passport.value.signature.value.check == Raises then [SignatureInvalid] else [])
      + (if SignatureValid(e) then [] else [SignatureInvalid])
      + (match SignerRecord(e)
         case Some(rec) => if rec.status == "revoked" then [SignerRevoked] else []
         case None => if SignatureValid(e) then [SignerUnknown] else [])
  }

  predicate ArtifactIntact(e: Evidence) {
    e.store.Some? && e.artifactDigest != "" && e.artifactDigest in e.store.value
  }

  predicate ArtifactMatches(e: Evidence) {
    e.passport.Some? && e.passport.value.artifactDigest != "" && e.passport.value.artifactDigest == e.artifactDigest
  }

  function ArtifactBlockers(e: Evidence): seq<Blocker> {
    (if e.store.Some? && e.artifactDigest != "" && !ArtifactIntact(e) then [ArtifactCorrupted] else [])
    + (if e.passport.Some? && !ArtifactMatches(e) then [ArtifactMismatch] else [])
  }

  function Blocking(e: Evidence): seq<Blocker> {
    SignatureBlockers(e) + ArtifactBlockers(e)
  }

  // ---- Components ----

  function SecurityComponent(e: Evidence): real {
    if SignatureBlockers(e) != [] then Clamp(0.0)
    else Clamp(SecurityScore(e.observations, e.passport, e.keystore, e.now))
  }

  function Unverified(store: Option<set<string>>): BomEntry -> bool {
    (entry: BomEntry) => !(store.Some? && entry.digest in store.value)
  }

  function IntegrityComponent(e: Evidence): real {
    if ArtifactBlockers(e) != [] then Clamp(0.0)
    else if e.bom.None? then Clamp(60.0)
    else Clamp(100.0 - 25.0 * CountBy(e.bom.value, Unverified(e.store)) as real)
  }

  function KindPoints(entries: seq<BomEntry>, kinds: seq<(string, real)>): real {
    if kinds == [] then 0.0
    else
      var (kind, points) := kinds[|kinds| - 1];
      KindPoints(entries, kinds[..|kinds| - 1]) + (if exists b :: b in entries && b.kind == kind then points else 0.0)
  }

  function LineageComponent(e: Evidence): real {
    var provenance := if e.passport.Some? then e.passport.value.provenance else {};
    Clamp(12.0 * CountBy(PROVENANCE_FIELDS, (f: string) => f in provenance) as real
          + (if e.bom.Some? then KindPoints(e.bom.value, BOM_POINTS) else 0.0))
  }

  function PerformanceComponent(e: Evidence): Option<real> {
    if e.passport.None? || e.passport.value.r2.None? || e.passport.value.mse.None? then None
    else
      var r2Ok, mseOk := e.passport.value.r2.value >= MIN_R2, e.passport.value.mse.value <= MAX_MSE;
      Some(Clamp(if r2Ok && mseOk then 100.0 else if r2Ok || mseOk then 50.0 else 0.0))
  }

  function Failed(): Finding -> bool {
    (f: Finding) => !f.passed
  }

  function HighFailure(): Finding -> bool {
    (f: Finding) => !f.passed && HighOrWorse(f.severity)
  }

  function OperationalComponent(e: Evidence): real {
    Operational(CountBy(Collect(e.observations, AnyAgent()), Failed()), DriftLevel(e.drift))
  }

  function Operational(failed: nat, level: nat): real {
    Clamp(100.0 - DriftPenalty(level) - (if 10 * failed < 40 then (10 * failed) as real else 40.0))
  }

  function ComponentMap(security: real, integrity: real, lineage: real, operational: real,
                        performance: Option<real>): map<string, real> {
    map["security" := security, "integrity" := integrity, "lineage" := lineage, "operational" := operational]
    + (if performance.Some? then map["performance" := performance.value] else map[])
  }

  function Components(e: Evidence): map<string, real> {
    ComponentMap(SecurityComponent(e), IntegrityComponent(e), LineageComponent(e), OperationalComponent(e),
                 PerformanceComponent(e))
  }

  // ---- Composite and decision ----

  function WeightTotal(weights: seq<(string, real)>, components: map<string, real>): real {
    if weights == [] then 0.0
    else
      var (name, w) := weights[|weights| - 1];
      WeightTotal(weights[..|weights| - 1], components) + (if name in components then w else 0.0)
  }

  function WeightedSum(weights: seq<(string, real)>, components: map<string, real>): real {
    if weights == [] then 0.0
    else
      var (name, w) := weights[|weights| - 1];
      WeightedSum(weights[..|weights| - 1], components) + (if name in components then w * components[name] else 0.0)
  }

  /** The weighted mean of the components that are present, with their weights renormalised. */
  function Composite(components: map<string, real>): real {
    var total := WeightTotal(WEIGHTS, components);
    Clamp(if total != 0.0 then WeightedSum(WEIGHTS, components) / total else 0.0)
  }

  function Decide(e: Evidence, composite: real): Decision {
    if Upper(e.state) == "QUARANTINED" then Quarantined
    else if Blocking(e) != [] then Blocked
    else if composite >= e.trusted && CountBy(Collect(e.observations, AnyAgent()), HighFailure()) == 0 then Trusted
    else if composite >= e.conditional then ConditionallyTrusted
    else ReviewRequired
  }

  function Evaluate(e: Evidence): TrustResult {
    var components := Components(e);
    var composite := Composite(components);
    var decision := Decide(e, composite);
    TrustResult(decision, composite, components["security"], components, Blocking(e),
                decision == Trusted || decision == ConditionallyTrusted)
  }

  method FindSignatureBlockers(e: Evidence) returns (blocking: seq<Blocker>)
    ensures blocking == SignatureBlockers(e)
  {
    if e.passport.None? || e.passport.value.signature.None? {
      return [PassportUnsigned];
    }
    var signature := e.passport.value.signature.value;
    var valid := false;
    blocking := [];
    if e.keystore.Some? {
      if signature.check == Raises {
        blocking := blocking + [SignatureInvalid];
      } else {
        valid := signature.check == Verifies;
      }
    }
    if !valid {
      blocking := blocking + [SignatureInvalid];
    }
    if e.keystore.Some? && signature.signerKeyId in e.keystore.value {
      if e.keystore.value[signature.signerKeyId].status == "revoked" {
        blocking := blocking + [SignerRevoked];
      }
    } else if valid {
      blocking := blocking + [SignerUnknown];
    }
  }

  method FindBlockers(e: Evidence) returns (blocking: seq<Blocker>)
    ensures blocking == Blocking(e)
  {
    blocking := FindSignatureBlockers(e);
    if e.store.Some? && e.artifactDigest != "" && !ArtifactIntact(e) {
      blocking := blocking + [ArtifactCorrupted];
    }
    if e.passport.Some? && !ArtifactMatches(e) {
      blocking := blocking + [ArtifactMismatch];
    }
  }

  method CountUnverified(store: Option<set<string>>, entries: seq<BomEntry>) returns (unverified: nat, verified: nat)
    ensures unverified == CountBy(entries, Unverified(store)) && verified == |entries| - unverified
  {
    unverified, verified := 0, 0;
    for i := 0 to |entries|
      invariant unverified == CountBy(entries[..i], Unverified(store)) && verified == i - unverified
    {
      assert entries[..i + 1][..i] == entries[..i];
      if store.Some? && entries[i].digest in store.value {
        verified := verified + 1;
      } else {
        unverified := unverified + 1;
      }
    }
    assert entries[..|entries|] == entries;
  }

  method ComputeSecurityComponent(e: Evidence, blocking: seq<Blocker>) returns (component: real)
    requires blocking == Blocking(e)
    ensures component == SecurityComponent(e)
  {
    var crypto := exists b :: b in blocking && b.Cryptographic();
    BlockerKinds(e);
    var security := 0.0;
    if !crypto {
      security := ComputeSecurityScore(e.observations, e.passport, e.keystore, e.now);
    }
    component := Clamp(security);
  }

  method ComputeIntegrityComponent(e: Evidence, blocking: seq<Blocker>) returns (component: real)
    requires blocking == Blocking(e)
    ensures component == IntegrityComponent(e)
  {
    BlockerKinds(e);
    var integrity := 100.0;
    if e.bom.None? {
      integrity := integrity - 40.0;
    } else {
      var unverified, verified := CountUnverified(e.store, e.bom.value);
      integrity := integrity - 25.0 * unverified as real;
    }
    if ArtifactCorrupted in blocking || ArtifactMismatch in blocking {
      integrity := 0.0;
    }
    component := Clamp(integrity);
  }

  method ComputeComponents(e: Evidence, blocking: seq<Blocker>) returns (components: map<string, real>)
    requires blocking == Blocking(e)
    ensures components == Components(e)
  {
    var security := ComputeSecurityComponent(e, blocking);
    var integrity := ComputeIntegrityComponent(e, blocking);
    components := map["security" := security];
    components := components["integrity" := integrity];
    components := components["lineage" := LineageComponent(e)];
    var performance := PerformanceComponent(e);
    if performance.Some? {
      components := components["performance" := performance.value];
    }
    components := components["operational" := OperationalComponent(e)];
  }

  lemma {:induction false} SignatureBlockersAre(e: Evidence)
    ensures forall b :: b in SignatureBlockers(e) ==> b.Cryptographic()
  {
  }

  lemma {:induction false} ArtifactBlockersAre(e: Evidence)
    ensures forall b :: b in ArtifactBlockers(e) ==> b == ArtifactCorrupted || b == ArtifactMismatch
  {
  }

  /** The signature blockers are the cryptographic ones, the artifact blockers the others. */
  lemma {:induction false} BlockerKinds(e: Evidence)
    ensures (exists b :: b in Blocking(e) && b.Cryptographic()) <==> SignatureBlockers(e) != []
    ensures (ArtifactCorrupted in Blocking(e) || ArtifactMismatch in Blocking(e)) <==> ArtifactBlockers(e) != []
  {
    SignatureBlockersAre(e);
    ArtifactBlockersAre(e);
    SplitBlockers(SignatureBlockers(e), ArtifactBlockers(e));
  }

  lemma {:induction false} SplitBlockers(s: seq<Blocker>, a: seq<Blocker>)
    requires forall b :: b in s ==> b.Cryptographic()
    requires forall b :: b in a ==> b == ArtifactCorrupted || b == ArtifactMismatch
    ensures (exists b :: b in s + a && b.Cryptographic()) <==> s != []
    ensures (ArtifactCorrupted in s + a || ArtifactMismatch in s + a) <==> a != []
  {
    assert s != [] ==> s[0] in s + a;
    assert a != [] ==> a[0] in s + a;
  }

  method EvaluateTrust(e: Evidence) returns (result: TrustResult)
    ensures result == Evaluate(e)
  {
    var blocking := FindBlockers(e);
    var components := ComputeComponents(e, blocking);
    var composite := Composite(components);
    var highFailures := CountBy(Collect(e.observations, AnyAgent()), HighFailure());
    var decision;
    if Upper(e.state) == "QUARANTINED" {
      decision := Quarantined;
    } else if blocking != [] {
      decision := Blocked;
    } else if composite >= e.trusted && highFailures == 0 {
      decision := Trusted;
    } else if composite >= e.conditional {
      decision := ConditionallyTrusted;
    } else {
      decision := ReviewRequired;
    }
    var eligible := decision == Trusted || decision == ConditionallyTrusted;
    result := TrustResult(decision, composite, components["security"], components, blocking, eligible);
  }

  // ---- Hard blockers dominate ----

  /** No blocker is raised exactly when the whole cryptographic chain holds. */
  lemma {:induction false} BlockersExact(e: Evidence)
    ensures Blocking(e) == [] <==>
              SignatureValid(e) && SignerRecord(e).Some? && SignerRecord(e).value.status != "revoked"
              && ArtifactMatches(e) && (e.store.Some? ==> e.artifactDigest in e.store.value)
  {
  }

  /** Any blocker forces BLOCKED, or QUARANTINED, whatever the scores; the version cannot be promoted. */
  lemma {:induction false} BlockersDominate(e: Evidence)
    ensures var r := Evaluate(e);
            (r.decision == Quarantined <==> Upper(e.state) == "QUARANTINED")
            && (r.decision == Blocked <==> r.blocking != [] && Upper(e.state) != "QUARANTINED")
            && (r.eligible ==> r.blocking == [] && (r.trustScore >= e.trusted || r.trustScore >= e.conditional))
            && (r.eligible ==> SignatureValid(e) && ArtifactMatches(e))
            && (SignatureBlockers(e) != [] ==> r.securityScore == 0.0)
  {
    BlockersExact(e);
    assert Clamp(0.0) == 0.0 by { ClampLaws(0.0, 0.0); }
  }

  // ---- Every score lies in [0, 100] ----

  lemma {:induction false} ClampLaws(x: real, y: real)
    requires x <= y
    ensures 0.0 <= Clamp(x) <= Clamp(y) <= 100.0
    ensures x <= 0.0 ==> Clamp(x) == 0.0
  {
    var a, b := Clip(x, 0.0, 100.0), Clip(y, 0.0, 100.0);
    RoundAtMonotone(0.0, a, 100.0);
    RoundAtMonotone(a, b, 100.0);
    RoundAtMonotone(b, 100.0, 100.0);
    RoundAtGrid(0.0, 100.0, 0);
    RoundAtGrid(100.0, 100.0, 10000);
  }

  lemma {:induction false} ScoresInRange(os: seq<Observation>, passport: Option<Passport>, keystore: Option<KeyStore>,
                                         now: real, security: Option<real>, drift: Option<string>)
    ensures 0.0 <= SecurityScore(os, passport, keystore, now) <= 100.0
    ensures 0.0 <= TrustScore(os, security, drift) <= 100.0
  {
    var x := 100.0 - Deduction(Collect(os, CryptoAgent())) - KeyPenalty(passport, keystore, now);
    ClampLaws(x, x);
    var y := Capped(100.0 - Deduction(Collect(os, AnyAgent())), security) - DriftCost(DriftLevel(drift));
    ClampLaws(y, y);
  }

  ghost predicate InRange(components: map<string, real>) {
    forall c :: c in components ==> 0.0 <= components[c] <= 100.0
  }

  ghost predicate NonNegativeWeights(weights: seq<(string, real)>) {
    forall i :: 0 <= i < |weights| ==> weights[i].1 >= 0.0
  }

  lemma {:induction false} WeightedInRange(weights: seq<(string, real)>, components: map<string, real>)
    requires NonNegativeWeights(weights) && InRange(components)
    ensures 0.0 <= WeightTotal(weights, components)
    ensures 0.0 <= WeightedSum(weights, components) <= 100.0 * WeightTotal(weights, components)
  {
    if weights != [] {
      var (name, w) := weights[|weights| - 1];
      WeightedInRange(weights[..|weights| - 1], components);
      if name in components {
        MulMonotone(w, 0.0, components[name]);
        MulMonotone(w, components[name], 100.0);
      }
    }
  }

  /** Whichever components are present, the renormalised mean of values in [0, 100] stays there before it is clamped. */
  lemma {:induction false} CompositeInRange(components: map<string, real>)
    requires InRange(components)
    ensures 0.0 <= Composite(components) <= 100.0
    ensures var total := WeightTotal(WEIGHTS, components);
            total != 0.0 ==> 0.0 <= WeightedSum(WEIGHTS, components) / total <= 100.0
  {
    var total, sum := WeightTotal(WEIGHTS, components), WeightedSum(WEIGHTS, components);
    WeightedInRange(WEIGHTS, components);
    if total != 0.0 {
      DivideMonotone(0.0, sum, total);
      DivideMonotone(sum, 100.0 * total, total);
      DivideCancel(100.0, total);
    }
    var x := if total != 0.0 then sum / total else 0.0;
    ClampLaws(x, x);
  }

  lemma {:induction false} ClampedInRange(x: real)
    ensures 0.0 <= Clamp(x) <= 100.0
  {
    ClampLaws(x, x);
  }

  lemma {:induction false} ResultInRange(e: Evidence)
    ensures InRange(Evaluate(e).components) && 0.0 <= Evaluate(e).trustScore <= 100.0
  {
    var c := Components(e);
    forall x: real ensures 0.0 <= Clamp(x) <= 100.0 {
      ClampedInRange(x);
    }
    assert InRange(c);
    CompositeInRange(c);
  }

  // ---- Worse evidence never helps ----

  /** `g` is `f` or something at least as bad. */
  ghost predicate NoBetter(f: Finding, g: Finding) {
    f.passed ||
    (!g.passed && SeverityDeduction(f.severity) <= SeverityDeduction(g.severity) && f.confidence <= g.confidence)
  }

  /** `gs` has a finding no better for each finding of `fs`, in order, and possibly more findings anywhere. */
  ghost predicate Worsened(fs: seq<Finding>, gs: seq<Finding>)
    decreases |gs|
  {
    if gs == [] then fs == []
    else
      var m, n := |fs| - 1, |gs| - 1;
      (fs != [] && NoBetter(fs[m], gs[n]) && Worsened(fs[..m], gs[..n])) || Worsened(fs, gs[..n])
  }

  ghost predicate WorsenedObservation(o: Observation, p: Observation) {
    o.agent == p.agent && Worsened(o.findings, p.findings)
  }

  /** The same for whole observations: each may get worse, and new ones may appear anywhere. */
  ghost predicate WorsenedAll(os: seq<Observation>, ps: seq<Observation>)
    decreases |ps|
  {
    if ps == [] then os == []
    else
      var m, n := |os| - 1, |ps| - 1;
      (os != [] && WorsenedObservation(os[m], ps[n]) && WorsenedAll(os[..m], ps[..n])) || WorsenedAll(os, ps[..n])
  }

  lemma {:induction false} PointsMonotone(f: Finding, g: Finding)
    requires NoBetter(f, g)
    ensures 0.0 <= Points(f) <= Points(g)
    ensures Failed()(f) ==> Failed()(g)
    ensures HighFailure()(f) ==> HighFailure()(g)
  {
    var u, v := 0.5 + 0.5 * Clip(f.confidence, 0.0, 1.0), 0.5 + 0.5 * Clip(g.confidence, 0.0, 1.0);
    var a, b := SeverityDeduction(f.severity), SeverityDeduction(g.severity);
    MulMonotone(a, 0.0, u);
    MulMonotone(b, 0.0, v);
    if !f.passed {
      MulMonotone(a, u, v);
      MulMonotone(v, a, b);
    }
  }

  /** The measures of a list of findings that feed the scores. */
  lemma {:induction false} FindingsMonotone(fs: seq<Finding>, gs: seq<Finding>)
    requires Worsened(fs, gs)
    ensures 0.0 <= TotalPoints(fs) <= TotalPoints(gs)
    ensures CountBy(fs, Failed()) <= CountBy(gs, Failed())
    ensures CountBy(fs, HighFailure()) <= CountBy(gs, HighFailure())
    decreases |gs|
  {
    if gs != [] {
      var m, n := |fs| - 1, |gs| - 1;
      if fs != [] && NoBetter(fs[m], gs[n]) && Worsened(fs[..m], gs[..n]) {
        FindingsMonotone(fs[..m], gs[..n]);
        PointsMonotone(fs[m], gs[n]);
      } else {
        FindingsMonotone(fs, gs[..n]);
        PointsMonotone(gs[n], gs[n]);
      }
    }
  }

  lemma {:induction false} WorsenedConcat(fs: seq<Finding>, gs: seq<Finding>, fs': seq<Finding>, gs': seq<Finding>)
    requires Worsened(fs, fs') && Worsened(gs, gs')
    ensures Worsened(fs + gs, fs' + gs')
    decreases |gs'|
  {
    if gs' == [] {
      assert fs + gs == fs && fs' + gs' == fs';
    } else {
      var m, n := |gs| - 1, |gs'| - 1;
      assert (fs' + gs')[..|fs' + gs'| - 1] == fs' + gs'[..n];
      if gs != [] && NoBetter(gs[m], gs'[n]) && Worsened(gs[..m], gs'[..n]) {
        WorsenedConcat(fs, gs[..m], fs', gs'[..n]);
        assert (fs + gs)[..|fs + gs| - 1] == fs + gs[..m];
      } else {
        WorsenedConcat(fs, gs, fs', gs'[..n]);
      }
    }
  }

  lemma {:induction false} WorsenedEmpty(gs: seq<Finding>)
    ensures Worsened([], gs)
  {
    if gs != [] {
      WorsenedEmpty(gs[..|gs| - 1]);
    }
  }

  lemma {:induction false} CollectMonotone(os: seq<Observation>, ps: seq<Observation>, p: string -> bool)
    requires WorsenedAll(os, ps)
    ensures Worsened(Collect(os, p), Collect(ps, p))
    decreases |ps|
  {
    if ps != [] {
      var m, n := |os| - 1, |ps| - 1;
      WorsenedEmpty([]);
      if os != [] && WorsenedObservation(os[m], ps[n]) && WorsenedAll(os[..m], ps[..n]) {
        CollectMonotone(os[..m], ps[..n], p);
        var a, b := if p(os[m].agent) then os[m].findings else [], if p(ps[n].agent) then ps[n].findings else [];
        WorsenedConcat(Collect(os[..m], p), a, Collect(ps[..n], p), b);
      } else {
        CollectMonotone(os, ps[..n], p);
        var b := if p(ps[n].agent) then ps[n].findings else [];
        WorsenedEmpty(b);
        WorsenedConcat(Collect(os, p), [], Collect(ps[..n], p), b);
        assert Collect(os, p) + [] == Collect(os, p);
      }
    }
  }

  /** Evidence that differs only in worse findings and worse drift. */
  ghost predicate WorsenedEvidence(e: Evidence, f: Evidence) {
    && f == e.(observations := f.observations, drift := f.drift)
    && WorsenedAll(e.observations, f.observations)
    && DriftLevel(e.drift) <= DriftLevel(f.drift)
  }

  lemma {:induction false} SecurityMonotone(os: seq<Observation>, ps: seq<Observation>, passport: Option<Passport>,
                                            keystore: Option<KeyStore>, now: real)
    requires WorsenedAll(os, ps)
    ensures SecurityScore(ps, passport, keystore, now) <= SecurityScore(os, passport, keystore, now)
  {
    CollectMonotone(os, ps, CryptoAgent());
    FindingsMonotone(Collect(os, CryptoAgent()), Collect(ps, CryptoAgent()));
    ClampLaws(100.0 - Deduction(Collect(ps, CryptoAgent())) - KeyPenalty(passport, keystore, now),
              100.0 - Deduction(Collect(os, CryptoAgent())) - KeyPenalty(passport, keystore, now));
  }

  lemma {:induction false} DeductionMonotone(os: seq<Observation>, ps: seq<Observation>, p: string -> bool)
    requires WorsenedAll(os, ps)
    ensures Deduction(Collect(os, p)) <= Deduction(Collect(ps, p))
  {
    CollectMonotone(os, ps, p);
    FindingsMonotone(Collect(os, p), Collect(ps, p));
  }

  lemma TrustFromMonotone(x: real, y: real, s: real, t: real, c: nat, d: nat)
    requires x <= y && t <= s && c <= d <= 3
    ensures TrustFrom(y, Some(t), d) <= TrustFrom(x, Some(s), c)
  {
    ClampLaws(Capped(100.0 - y, Some(t)) - DriftCost(d), Capped(100.0 - x, Some(s)) - DriftCost(c));
  }

  /** The trust score falls with worse findings, a lower security score, or worse drift. */
  lemma {:induction false} TrustScoreMonotone(os: seq<Observation>, ps: seq<Observation>, s: real, t: real,
                                              d: Option<string>, d': Option<string>)
    requires WorsenedAll(os, ps) && t <= s && DriftLevel(d) <= DriftLevel(d')
    ensures TrustScore(ps, Some(t), d') <= TrustScore(os, Some(s), d)
  {
    DeductionMonotone(os, ps, AnyAgent());
    TrustFromMonotone(Deduction(Collect(os, AnyAgent())), Deduction(Collect(ps, AnyAgent())), s, t,
                      DriftLevel(d), DriftLevel(d'));
  }

  lemma OperationalOf(m: nat, n: nat, c: nat, d: nat)
    requires m <= n && c <= d <= 3
    ensures Operational(n, d) <= Operational(m, c)
  {
    ClampLaws(100.0 - DriftPenalty(d) - (if 10 * n < 40 then (10 * n) as real else 40.0),
              100.0 - DriftPenalty(c) - (if 10 * m < 40 then (10 * m) as real else 40.0));
  }

  lemma {:induction false} OperationalMonotone(e: Evidence, f: Evidence)
    requires WorsenedEvidence(e, f)
    ensures OperationalComponent(f) <= OperationalComponent(e)
  {
    CollectMonotone(e.observations, f.observations, AnyAgent());
    var a, b := Collect(e.observations, AnyAgent()), Collect(f.observations, AnyAgent());
    FindingsMonotone(a, b);
    OperationalOf(CountBy(a, Failed()), CountBy(b, Failed()), DriftLevel(e.drift), DriftLevel(f.drift));
  }

  ghost predicate Lower(c: map<string, real>, d: map<string, real>) {
    c.Keys == d.Keys && forall name :: name in c ==> c[name] <= d[name]
  }

  lemma {:induction false} WeightedMonotone(weights: seq<(string, real)>, c: map<string, real>, d: map<string, real>)
    requires NonNegativeWeights(weights) && Lower(c, d)
    ensures WeightTotal(weights, c) == WeightTotal(weights, d)
    ensures WeightedSum(weights, c) <= WeightedSum(weights, d)
  {
    if weights != [] {
      var (name, w) := weights[|weights| - 1];
      WeightedMonotone(weights[..|weights| - 1], c, d);
      if name in c {
        MulMonotone(w, c[name], d[name]);
      }
    }
  }

  lemma {:induction false} CompositeMonotone(c: map<string, real>, d: map<string, real>)
    requires Lower(c, d) && InRange(c)
    ensures Composite(c) <= Composite(d)
  {
    WeightedMonotone(WEIGHTS, c, d);
    WeightedInRange(WEIGHTS, c);
    var total := WeightTotal(WEIGHTS, c);
    if total != 0.0 {
      DivideMonotone(WeightedSum(WEIGHTS, c), WeightedSum(WEIGHTS, d), total);
      ClampLaws(WeightedSum(WEIGHTS, c) / total, WeightedSum(WEIGHTS, d) / total);
    }
  }

  function Rank(d: Decision): nat {
    match d
    case Trusted => 2
    case ConditionallyTrusted => 1
    case _ => 0
  }

  lemma {:induction false} SecurityComponentMonotone(e: Evidence, f: Evidence)
    requires WorsenedEvidence(e, f)
    ensures SecurityComponent(f) <= SecurityComponent(e)
  {
    SecurityMonotone(e.observations, f.observations, e.passport, e.keystore, e.now);
    ClampLaws(SecurityScore(f.observations, e.passport, e.keystore, e.now),
              SecurityScore(e.observations, e.passport, e.keystore, e.now));
  }

  lemma {:induction false} BlockingKept(e: Evidence, f: Evidence)
    requires WorsenedEvidence(e, f)
    ensures Blocking(f) == Blocking(e)
  {
  }

  lemma {:induction false} OtherComponentsKept(e: Evidence, f: Evidence)
    requires WorsenedEvidence(e, f)
    ensures IntegrityComponent(f) == IntegrityComponent(e) && LineageComponent(f) == LineageComponent(e)
    ensures PerformanceComponent(f) == PerformanceComponent(e)
  {
    BlockingKept(e, f);
  }

  lemma ComponentMapMonotone(s: real, t: real, integrity: real, lineage: real, x: real, y: real,
                             performance: Option<real>)
    requires s <= t && x <= y
    ensures Lower(ComponentMap(s, integrity, lineage, x, performance),
                  ComponentMap(t, integrity, lineage, y, performance))
  {
  }

  lemma {:induction false} ComponentsMonotone(e: Evidence, f: Evidence)
    requires WorsenedEvidence(e, f)
    ensures Lower(Components(f), Components(e))
  {
    OperationalMonotone(e, f);
    SecurityComponentMonotone(e, f);
    OtherComponentsKept(e, f);
    ComponentMapMonotone(SecurityComponent(f), SecurityComponent(e), IntegrityComponent(e), LineageComponent(e),
                         OperationalComponent(f), OperationalComponent(e), PerformanceComponent(e));
  }

  /**
   * With the clock and all other evidence fixed, worse findings and worse drift raise neither the security score nor
   * the composite nor the decision, leave the blockers alone, and never make a version eligible for promotion.
   */
  lemma {:induction false} WorseEvidenceNeverHelps(e: Evidence, f: Evidence)
    requires WorsenedEvidence(e, f)
    ensures var r, s := Evaluate(e), Evaluate(f);
            s.securityScore <= r.securityScore && s.trustScore <= r.trustScore && s.blocking == r.blocking
            && Rank(s.decision) <= Rank(r.decision) && (s.eligible ==> r.eligible)
            && (r.decision in {Blocked, Quarantined} ==> s.decision == r.decision)
  {
    ScoresFall(e, f);
    BlockingKept(e, f);
    CollectMonotone(e.observations, f.observations, AnyAgent());
    FindingsMonotone(Collect(e.observations, AnyAgent()), Collect(f.observations, AnyAgent()));
  }

  lemma {:induction false} ScoresFall(e: Evidence, f: Evidence)
    requires WorsenedEvidence(e, f)
    ensures Composite(Components(f)) <= Composite(Components(e))
    ensures Evaluate(f).securityScore <= Evaluate(e).securityScore
  {
    ComponentsMonotone(e, f);
    ResultInRange(f);
    CompositeMonotone(Components(f), Components(e));
  }

  /** Adding one finding, failed or not, to any observation is worse evidence. */
  lemma {:induction false} AddedFindingWorsens(os: seq<Observation>, i: nat, k: nat, added: Finding)
    requires i < |os| && k <= |os[i].findings|
    ensures var fs := os[i].findings;
            WorsenedAll(os, os[i := os[i].(findings := fs[..k] + [added] + fs[k..])])
  {
    var fs := os[i].findings;
    var o := os[i].(findings := fs[..k] + [added] + fs[k..]);
    InsertionWorsens(fs[..k], added, fs[k..]);
    assert fs == fs[..k] + fs[k..];
    ReplacementWorsens(os, i, o);
  }

  lemma {:induction false} WorsenedSelf(fs: seq<Finding>)
    ensures Worsened(fs, fs)
  {
    if fs != [] {
      WorsenedSelf(fs[..|fs| - 1]);
    }
  }

  lemma {:induction false} InsertionWorsens(fs: seq<Finding>, added: Finding, gs: seq<Finding>)
    ensures Worsened(fs + gs, fs + [added] + gs)
  {
    WorsenedSelf(fs);
    WorsenedSelf(gs);
    WorsenedEmpty([added]);
    WorsenedConcat(fs, [], fs, [added]);
    assert fs + [] == fs;
    WorsenedConcat(fs, gs, fs + [added], gs);
  }

  lemma {:induction false} ReplacementWorsens(os: seq<Observation>, i: nat, o: Observation)
    requires i < |os| && WorsenedObservation(os[i], o)
    ensures WorsenedAll(os, os[i := o])
  {
    var n := |os| - 1;
    if i == n {
      AllSelf(os[..n]);
      assert os[i := o][..n] == os[..n];
    } else {
      ReplacementWorsens(os[..n], i, o);
      WorsenedSelf(os[n].findings);
      assert os[i := o][..n] == os[..n][i := o];
    }
  }

  lemma {:induction false} AllSelf(os: seq<Observation>)
    ensures WorsenedAll(os, os)
  {
    if os != [] {
      WorsenedSelf(os[|os| - 1].findings);
      AllSelf(os[..|os| - 1]);
    }
  }
}
