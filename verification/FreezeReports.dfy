/** What the record of a freeze holds, and what a verification names when something has changed. */
module FreezeReports {
  import opened Counting
  import opened FileTree
  import opened EvidenceFreeze
  import opened FreezeIntegrity
  import opened FreezeTheorems

  // ---- The problems of a bundle ----

  /** When the check of a bundle finds each problem. */
  ghost predicate Finds(tools: Tools, f: Files, dir: string, expected: Option<Digest>, p: Problem) {
    var path, config := Join(dir, "manifest.json"), Join(dir, "config.json");
    if path !in f then p == ManifestMissing
    else
      var m := tools.manifest(f[path]);
      match p
      case ManifestMissing => false
      case ManifestDiffers => expected.Some? && expected.value != "" && expected.value != tools.hash(f[path])
      case ManifestInvalid => m.None?
      case ArtifactMissing(n) => m.Some? && n in m.value.artifacts && Join(dir, n) !in f
      case ArtifactDiffers(n) =>
        m.Some? && n in m.value.artifacts && Join(dir, n) in f && tools.hash(f[Join(dir, n)]) != m.value.artifacts[n]
      case ConfigurationDiffers => m.Some? && config in f && m.value.configuration != Some(tools.hash(f[config]))
      case SupportingDiffers => false
  }

  ghost predicate FindsArtifact(tools: Tools, f: Files, dir: string, artifacts: map<string, Digest>,
                                names: seq<string>, p: Problem)
  {
    match p
    case ArtifactMissing(n) => n in names && Join(dir, n) !in f
    case ArtifactDiffers(n) =>
      n in names && n in artifacts && Join(dir, n) in f && tools.hash(f[Join(dir, n)]) != artifacts[n]
    case _ => false
  }

  lemma {:induction false} ArtifactsListed(tools: Tools, f: Files, dir: string, artifacts: map<string, Digest>,
                                           names: seq<string>, p: Problem)
    requires forall n :: n in names ==> n in artifacts
    ensures p in ArtifactProblems(tools, f, dir, artifacts, names) <==>
              FindsArtifact(tools, f, dir, artifacts, names, p)
  {
    if names != [] {
      var front, last := names[..|names| - 1], names[|names| - 1];
      assert forall n :: n in names <==> n in front || n == last;
      ArtifactsListed(tools, f, dir, artifacts, front, p);
    }
  }

  /** The check of a bundle reports every problem it should, and no other. */
  lemma {:induction false} ProblemsListed(tools: Tools, f: Files, dir: string, expected: Option<Digest>, p: Problem)
    ensures p in BundleProblems(tools, f, dir, expected) <==> Finds(tools, f, dir, expected, p)
  {
    var path := Join(dir, "manifest.json");
    if path in f && tools.manifest(f[path]).Some? {
      var artifacts := tools.manifest(f[path]).value.artifacts;
      ArtifactsListed(tools, f, dir, artifacts, ArtifactNames(artifacts), p);
    }
  }

  // ---- What a verification names ----

  ghost predicate IsRecord(tools: Tools, f: Files, dir: string, r: Record) {
    && Join(dir, "freeze.json") in f && tools.record(f[Join(dir, "freeze.json")]) == Some(r)
    && r.schema == "satsa-evidence-freeze/1" && WellNamed(r.bundles, r.supporting)
  }

  ghost predicate BadBundle(tools: Tools, f: Files, dir: string, b: Entry, k: string) {
    b.bundle == k && exists p :: Finds(tools, f, BundleDir(dir, k), Some(b.manifestDigest), p)
  }

  ghost predicate BadFile(tools: Tools, f: Files, dir: string, s: Supporting, k: string) {
    s.file == k && !(Join(dir, k) in f && tools.hash(f[Join(dir, k)]) == s.digest)
  }

  /** The name belongs to a bundle in which something is found, or to a supporting file that its last record misses. */
  ghost predicate IsBad(tools: Tools, f: Files, dir: string, r: Record, k: string) {
    || (exists i :: 0 <= i < |r.bundles| && BadBundle(tools, f, dir, r.bundles[i], k))
    || (exists i :: 0 <= i < |r.supporting| && IsLast(r.supporting, i) && BadFile(tools, f, dir, r.supporting[i], k))
  }

  function AllResults(tools: Tools, f: Files, dir: string, r: Record): Results {
    WithSupporting(tools, f, dir, BundleResults(tools, f, dir, r.bundles), r.supporting)
  }

  lemma {:induction false} VerifyIs(tools: Tools, f: Files, dir: string, r: Record)
    requires IsRecord(tools, f, dir, r)
    ensures var all := AllResults(tools, f, dir, r);
            Verify(tools, f, dir)
            == Result.Ok(Report(r.id, AllClear(all), |all|, map k | k in all && all[k] != [] :: all[k]))
  {
  }

  lemma {:induction false} BundleResultOf(tools: Tools, f: Files, dir: string, r: Record, i: nat)
    requires WellNamed(r.bundles, r.supporting) && i < |r.bundles|
    ensures var b, all := r.bundles[i], AllResults(tools, f, dir, r);
            && b.bundle in all
            && all[b.bundle] == BundleProblems(tools, f, BundleDir(dir, b.bundle), Some(b.manifestDigest))
  {
    assert WellNamed(r.bundles, []);
    BundleResultsAt(tools, f, dir, r.bundles, i);
    OthersKeep(tools, f, dir, BundleResults(tools, f, dir, r.bundles), r.supporting, r.bundles[i].bundle);
  }

  lemma {:induction false} KeysAre(tools: Tools, f: Files, dir: string, r: Record, k: string)
    ensures k in AllResults(tools, f, dir, r) <==>
              (exists i :: 0 <= i < |r.bundles| && r.bundles[i].bundle == k)
              || exists i :: 0 <= i < |r.supporting| && r.supporting[i].file == k
  {
    BundleResultsKeys(tools, f, dir, r.bundles, k);
    WithSupportingKeys(tools, f, dir, BundleResults(tools, f, dir, r.bundles), r.supporting, k);
  }

  lemma {:induction false} BadBundleExactly(tools: Tools, f: Files, dir: string, b: Entry)
    ensures BundleProblems(tools, f, BundleDir(dir, b.bundle), Some(b.manifestDigest)) != [] <==>
              BadBundle(tools, f, dir, b, b.bundle)
  {
    var d := BundleDir(dir, b.bundle);
    var problems := BundleProblems(tools, f, d, Some(b.manifestDigest));
    if problems != [] {
      ProblemsListed(tools, f, d, Some(b.manifestDigest), problems[0]);
    }
    if p :| Finds(tools, f, d, Some(b.manifestDigest), p) {
      ProblemsListed(tools, f, d, Some(b.manifestDigest), p);
    }
  }

  lemma {:induction false} BundleNamed(tools: Tools, f: Files, dir: string, r: Record, i: nat)
    requires WellNamed(r.bundles, r.supporting) && i < |r.bundles|
    ensures var k, all := r.bundles[i].bundle, AllResults(tools, f, dir, r);
            k in all && (all[k] != [] <==> IsBad(tools, f, dir, r, k))
  {
    var k := r.bundles[i].bundle;
    BundleResultOf(tools, f, dir, r, i);
    BadBundleExactly(tools, f, dir, r.bundles[i]);
    assert forall j :: 0 <= j < |r.bundles| && r.bundles[j].bundle == k ==> j == i;
  }

  lemma {:induction false} FileNamed(tools: Tools, f: Files, dir: string, r: Record, i: nat)
    requires WellNamed(r.bundles, r.supporting) && i < |r.supporting| && IsLast(r.supporting, i)
    ensures var k, all := r.supporting[i].file, AllResults(tools, f, dir, r);
            && k in all && (all[k] != [] <==> IsBad(tools, f, dir, r, k))
            && (all[k] != [] ==> all[k] == [SupportingDiffers])
  {
    LastDecides(tools, f, dir, BundleResults(tools, f, dir, r.bundles), r.supporting, i);
    var k := r.supporting[i].file;
    assert forall j :: 0 <= j < |r.supporting| && IsLast(r.supporting, j) && r.supporting[j].file == k ==> j == i;
  }

  lemma {:induction false} ResultNamed(tools: Tools, f: Files, dir: string, r: Record, k: string)
    requires WellNamed(r.bundles, r.supporting)
    ensures k in AllResults(tools, f, dir, r) && AllResults(tools, f, dir, r)[k] != [] <==> IsBad(tools, f, dir, r, k)
  {
    KeysAre(tools, f, dir, r, k);
    if i :| 0 <= i < |r.bundles| && r.bundles[i].bundle == k {
      BundleNamed(tools, f, dir, r, i);
    } else if i :| 0 <= i < |r.supporting| && r.supporting[i].file == k {
      var j := LastExists(r.supporting, i);
      FileNamed(tools, f, dir, r, j);
    }
  }

  /** A verification names exactly the bundles and supporting files that are bad, and is intact when there are none. */
  lemma {:induction false} ReportNames(tools: Tools, f: Files, dir: string, r: Record, k: string)
    requires IsRecord(tools, f, dir, r)
    ensures Verify(tools, f, dir).Ok? && Verify(tools, f, dir).value.id == r.id
    ensures k in Verify(tools, f, dir).value.problems <==> IsBad(tools, f, dir, r, k)
    ensures Verify(tools, f, dir).value.intact <==> forall n :: !IsBad(tools, f, dir, r, n)
  {
    VerifyIs(tools, f, dir, r);
    forall n
      ensures n in AllResults(tools, f, dir, r) && AllResults(tools, f, dir, r)[n] != [] <==>
                IsBad(tools, f, dir, r, n)
    {
      ResultNamed(tools, f, dir, r, n);
    }
  }

  /** Under a bundle's name stand exactly its problems, under a file's that it differs. */
  lemma {:induction false} ReportHolds(tools: Tools, f: Files, dir: string, r: Record, k: string, p: Problem)
    requires IsRecord(tools, f, dir, r) && k in Verify(tools, f, dir).value.problems
    ensures p in Verify(tools, f, dir).value.problems[k] <==>
              (exists i :: 0 <= i < |r.bundles| && r.bundles[i].bundle == k
                           && Finds(tools, f, BundleDir(dir, k), Some(r.bundles[i].manifestDigest), p))
              || (p == SupportingDiffers && forall i :: 0 <= i < |r.bundles| ==> r.bundles[i].bundle != k)
  {
    VerifyIs(tools, f, dir, r);
    KeysAre(tools, f, dir, r, k);
    if i :| 0 <= i < |r.bundles| && r.bundles[i].bundle == k {
      BundleResultOf(tools, f, dir, r, i);
      ProblemsListed(tools, f, BundleDir(dir, k), Some(r.bundles[i].manifestDigest), p);
      assert forall j :: 0 <= j < |r.bundles| && r.bundles[j].bundle == k ==> j == i;
    } else {
      var i :| 0 <= i < |r.supporting| && r.supporting[i].file == k;
      var j := LastExists(r.supporting, i);
      FileNamed(tools, f, dir, r, j);
    }
  }

  /** The number of checks is that of the different names. */
  lemma {:induction false} ReportCounts(tools: Tools, f: Files, dir: string, r: Record, names: set<string>)
    requires IsRecord(tools, f, dir, r)
    requires forall k :: k in names <==>
                           (exists i :: 0 <= i < |r.bundles| && r.bundles[i].bundle == k)
                           || exists i :: 0 <= i < |r.supporting| && r.supporting[i].file == k
    ensures Verify(tools, f, dir).value.checked == |names|
  {
    VerifyIs(tools, f, dir, r);
    forall k ensures k in names <==> k in AllResults(tools, f, dir, r) {
      KeysAre(tools, f, dir, r, k);
    }
    assert names == AllResults(tools, f, dir, r).Keys;
  }

  /** After any change a bundle is named exactly when it is not as it was frozen. */
  lemma {:induction false} ChangedBundleNamed(tools: Tools, f: Files, dir: string, r: Record, g: Files, i: nat)
    requires CollisionFree(tools) && WritesReadBack(tools) && Frozen(tools, f, dir, r) && i < |r.bundles|
    requires SameFile(f, Join(dir, "freeze.json"), g, Join(dir, "freeze.json"))
    ensures Verify(tools, g, dir).Ok?
    ensures r.bundles[i].bundle in Verify(tools, g, dir).value.problems <==>
              !BundleUnchanged(tools, f, g, BundleDir(dir, r.bundles[i].bundle))
  {
    assert tools.record(tools.render(r)) == Some(r);
    var k := r.bundles[i].bundle;
    ReportNames(tools, g, dir, r, k);
    BundleNamed(tools, g, dir, r, i);
    BundleResultOf(tools, g, dir, r, i);
    BundleChangeShows(tools, f, g, BundleDir(dir, k), r.bundles[i].manifestDigest);
  }

  // ---- What a build records ----

  /** The entry says what was selected and what its manifest and its results say. */
  ghost predicate Carries(tools: Tools, f: Files, s: Selection, e: Entry) {
    var manifest, raw := Join(s.path, "manifest.json"), Join(s.path, "raw/results.json");
    && e.bundle == Name(s.path) && e.role == s.role && e.note == s.note
    && s.role in {"canonical", "superseded", "historical", "supporting"}
    && manifest in f && tools.manifest(f[manifest]) == Some(e.manifest) && e.manifestDigest == tools.hash(f[manifest])
    && (if raw in f then tools.experiment(f[raw]) == Some(e.experiment) else e.experiment == None)
    && forall p :: !Finds(tools, f, s.path, None, p)
  }

  lemma {:induction false} EntryCarries(tools: Tools, f: Files, s: Selection)
    requires EntryOf(tools, f, s).Ok?
    ensures Carries(tools, f, s, EntryOf(tools, f, s).value)
  {
    forall p ensures !Finds(tools, f, s.path, None, p) {
      ProblemsListed(tools, f, s.path, None, p);
    }
    ProblemsExact(tools, f, s.path, None);
    KnownRole(s.role);
  }

  lemma KnownRole(role: string)
    ensures role in ROLES <==> role in {"canonical", "superseded", "historical", "supporting"}
  {
    assert ROLES[0] == "canonical" && ROLES[1] == "superseded" && ROLES[2] == "historical" && ROLES[3] == "supporting";
  }

  ghost predicate AllCarry(tools: Tools, f: Files, selections: seq<Selection>, entries: seq<Entry>) {
    |entries| == |selections| && forall i :: 0 <= i < |entries| ==> Carries(tools, f, selections[i], entries[i])
  }

  lemma {:induction false} EntriesCarry(tools: Tools, f: Files, selections: seq<Selection>)
    requires Entries(tools, f, selections).Ok?
    ensures AllCarry(tools, f, selections, Entries(tools, f, selections).value)
  {
    if selections != [] {
      var n := |selections| - 1;
      EntriesCarry(tools, f, selections[..n]);
      EntryCarries(tools, f, selections[n]);
      CarryMore(tools, f, selections, Entries(tools, f, selections[..n]).value, EntryOf(tools, f, selections[n]).value);
    }
  }

  lemma {:induction false} CarryMore(tools: Tools, f: Files, selections: seq<Selection>, front: seq<Entry>, last: Entry)
    requires selections != [] && AllCarry(tools, f, selections[..|selections| - 1], front)
    requires Carries(tools, f, selections[|selections| - 1], last)
    ensures AllCarry(tools, f, selections, front + [last])
  {
    var n := |selections| - 1;
    forall i | 0 <= i <= n ensures Carries(tools, f, selections[i], (front + [last])[i]) {
      assert i < n ==> selections[..n][i] == selections[i];
    }
  }

  /** The supporting records are in the order of the items, each with its note under its name. */
  ghost predicate SupportingCarry(items: seq<Item>, supporting: seq<Supporting>) {
    |supporting| == |items|
    && forall i :: 0 <= i < |items| ==>
         supporting[i].file == "supporting/" + Name(items[i].path) && supporting[i].note == items[i].note
  }

  lemma {:induction false} NamedSupporting(path: string)
    ensures SupportingName(path) == "supporting/" + Name(path)
  {
    assert "supporting" + "/" == "supporting/";
  }

  lemma {:induction false} SupportingCarries(tools: Tools, f: Files, staging: string, items: seq<Item>)
    requires CopySupporting(tools, f, staging, items).1.Ok?
    ensures SupportingCarry(items, CopySupporting(tools, f, staging, items).1.value)
  {
    if items != [] {
      SupportingCarries(tools, f, staging, items[..|items| - 1]);
      NamedSupporting(items[|items| - 1].path);
    }
  }

  /** The record of a build that returns. */
  lemma {:induction false} RecordExactly(tools: Tools, f: Files, q: Request)
    requires Build(tools, f, q).1.Ok?
    ensures var r := Build(tools, f, q).1.value;
            && r.schema == "satsa-evidence-freeze/1" && r.id == q.id && r.createdAt == q.now && r.commit == q.commit
            && AllCarry(tools, f, q.selections, r.bundles) && SupportingCarry(q.supporting, r.supporting)
  {
    var entries, g, h := BuildStages(tools, f, q);
    EntriesCarry(tools, f, q.selections);
    SupportingCarries(tools, g, Staging(q.out), q.supporting);
  }
}
