/** The main results about the evidence freeze. */
module FreezeTheorems {
  import opened Counting
  import opened FileTree
  import opened EvidenceFreeze
  import opened FreezeIntegrity

  /** A directory that holds a freeze as its record describes it. */
  ghost predicate Frozen(tools: Tools, f: Files, dir: string, r: Record) {
    && Join(dir, "freeze.json") in f && f[Join(dir, "freeze.json")] == tools.render(r)
    && r.schema == SCHEMA && WellNamed(r.bundles, r.supporting) && DigestsGiven(r.bundles)
    && BundlesClear(tools, f, dir, r.bundles) && SupportingClear(tools, f, dir, r.supporting)
  }

  ghost predicate DigestsGiven(bundles: seq<Entry>) {
    forall i :: 0 <= i < |bundles| ==> bundles[i].manifestDigest != ""
  }

  /** A digest is never the empty text. */
  ghost predicate DigestsNonempty(tools: Tools) {
    forall c :: tools.hash(c) != ""
  }

  // ---- Building ----

  ghost predicate NamedAfter(entries: seq<Entry>, selections: seq<Selection>) {
    |entries| == |selections| && forall i :: 0 <= i < |entries| ==> entries[i].bundle == Name(selections[i].path)
  }

  lemma {:induction false} CopiesClear(tools: Tools, f: Files, g: Files, dir: string, selections: seq<Selection>,
                                       entries: seq<Entry>)
    requires NamedAfter(entries, selections) && Copied(tools, f, dir, selections, entries)
    requires forall name :: SameTree(f, BundleDir(dir, name), g, BundleDir(dir, name))
    ensures BundlesClear(tools, g, dir, entries)
  {
    forall i | 0 <= i < |entries|
      ensures BundleProblems(tools, g, BundleDir(dir, entries[i].bundle), Some(entries[i].manifestDigest)) == []
    {
      var b := BundleDir(dir, entries[i].bundle);
      SameProblems(tools, f, b, g, b, Some(entries[i].manifestDigest));
    }
  }

  /** What the staging directory holds before it is published. */
  lemma {:induction false} StagedClear(tools: Tools, f: Files, staging: string, q: Request, entries: seq<Entry>)
    requires NamedAfter(entries, q.selections)
    requires CopyBundles(tools, f, staging, q.selections, entries).1.None?
    requires CopySupporting(tools, CopyBundles(tools, f, staging, q.selections, entries).0, staging, q.supporting).1.Ok?
    ensures var g := CopyBundles(tools, f, staging, q.selections, entries).0;
            var (h, r) := CopySupporting(tools, g, staging, q.supporting);
            BundlesClear(tools, h, staging, entries) && Stored(tools, h, staging, q.supporting, r.value)
  {
    var g := CopyBundles(tools, f, staging, q.selections, entries).0;
    var (h, r) := CopySupporting(tools, g, staging, q.supporting);
    BundlesCopied(tools, f, staging, q.selections, entries);
    forall name ensures SameTree(g, BundleDir(staging, name), h, BundleDir(staging, name)) {
      SupportingKeepsBundle(tools, g, staging, q.supporting, name);
    }
    CopiesClear(tools, g, h, staging, q.selections, entries);
    SupportingStored(tools, g, staging, q.supporting);
  }

  /** Writing freeze.json disturbs neither the bundles nor the supporting files. */
  lemma {:induction false} RecordBesideBundles(tools: Tools, f: Files, dir: string, bundles: seq<Entry>,
                                               content: Content)
    requires BundlesClear(tools, f, dir, bundles)
    ensures BundlesClear(tools, f[Join(dir, "freeze.json") := content], dir, bundles)
  {
    var g := f[Join(dir, "freeze.json") := content];
    forall i | 0 <= i < |bundles|
      ensures BundleProblems(tools, g, BundleDir(dir, bundles[i].bundle), Some(bundles[i].manifestDigest)) == []
    {
      var b := BundleDir(dir, bundles[i].bundle);
      BesideKeepsBundle(f, dir, bundles[i].bundle, "freeze.json", content);
      SameProblems(tools, f, b, g, b, Some(bundles[i].manifestDigest));
    }
  }

  lemma {:induction false} RecordBesideSupporting(tools: Tools, f: Files, dir: string, items: seq<Item>,
                                                  supporting: seq<Supporting>, content: Content)
    requires Stored(tools, f, dir, items, supporting)
    ensures SupportingClear(tools, f[Join(dir, "freeze.json") := content], dir, supporting)
  {
    forall i | 0 <= i < |supporting| ensures Join(dir, supporting[i].file) != Join(dir, "freeze.json") {
      OtherFirstLetter(dir, Name(items[i].path));
    }
  }

  lemma {:induction false} OtherFirstLetter(dir: string, name: string)
    ensures Join(dir, Join("supporting", name)) != Join(dir, "freeze.json")
  {
    assert Join(dir, Join("supporting", name))[|dir| + 1] == 's' && Join(dir, "freeze.json")[|dir| + 1] == 'f';
  }

  /** A directory that is moved as it is stays clear. */
  lemma {:induction false} MovedClear(tools: Tools, f: Files, a: string, g: Files, b: string, bundles: seq<Entry>,
                                      supporting: seq<Supporting>)
    requires SameTree(f, a, g, b) && BundlesClear(tools, f, a, bundles) && SupportingClear(tools, f, a, supporting)
    ensures BundlesClear(tools, g, b, bundles) && SupportingClear(tools, g, b, supporting)
  {
    forall i | 0 <= i < |bundles|
      ensures BundleProblems(tools, g, BundleDir(b, bundles[i].bundle), Some(bundles[i].manifestDigest)) == []
    {
      SameBundleTree(f, a, g, b, bundles[i].bundle);
      SameProblems(tools, f, BundleDir(a, bundles[i].bundle), g, BundleDir(b, bundles[i].bundle),
                   Some(bundles[i].manifestDigest));
    }
    forall i | 0 <= i < |supporting| && IsLast(supporting, i)
      ensures FileHas(tools, g, Join(b, supporting[i].file), supporting[i].digest)
    {
      assert SameFile(f, Join(a, supporting[i].file), g, Join(b, supporting[i].file));
    }
  }

  lemma {:induction false} SameOutsideTransitive(f: Files, g: Files, h: Files, dir: string)
    requires SameOutside(f, g, dir) && SameOutside(g, h, dir)
    ensures SameOutside(f, h, dir)
  {
    forall q | !Under(dir, q) ensures SameFile(f, q, h, q) {
      assert SameFile(f, q, g, q) && SameFile(g, q, h, q);
    }
  }

  /** The staging directory is not the freeze: while it fills, the place of the freeze stays empty. */
  lemma {:induction false} OutStaysEmpty(f: Files, g: Files, out: string)
    requires SameOutside(f, g, Staging(out))
    ensures IsDirectory(g, out) ==> IsDirectory(f, out)
  {
    if IsDirectory(g, out) {
      var p :| p in g && Under(out, p);
      StagingApart(out, p);
      assert SameFile(f, p, g, p);
    }
  }

  lemma {:induction false} StagingOutside(tools: Tools, f: Files, q: Request, entries: seq<Entry>)
    requires |entries| == |q.selections|
    ensures var staging := Staging(q.out);
            var g := CopyBundles(tools, RemoveTree(f, staging), staging, q.selections, entries).0;
            SameOutside(f, g, staging) && SameOutside(f, CopySupporting(tools, g, staging, q.supporting).0, staging)
  {
    var staging := Staging(q.out);
    var start := RemoveTree(f, staging);
    var g := CopyBundles(tools, start, staging, q.selections, entries).0;
    CopyBundlesOutside(tools, start, staging, q.selections, entries);
    assert SameOutside(f, start, staging);
    SameOutsideTransitive(f, start, g, staging);
    CopySupportingOutside(tools, g, staging, q.supporting);
    SameOutsideTransitive(f, g, CopySupporting(tools, g, staging, q.supporting).0, staging);
  }

  lemma {:induction false} Published(tools: Tools, f: Files, h: Files, out: string, record: Record, items: seq<Item>)
    requires !IsDirectory(f, out) && SameOutside(f, h, Staging(out))
    requires BundlesClear(tools, h, Staging(out), record.bundles)
    requires Stored(tools, h, Staging(out), items, record.supporting)
    ensures var g := Publish(tools, h, out, record);
            && Join(out, "freeze.json") in g && g[Join(out, "freeze.json")] == tools.render(record)
            && BundlesClear(tools, g, out, record.bundles) && SupportingClear(tools, g, out, record.supporting)
  {
    var staging := Staging(out);
    var written := h[Join(staging, "freeze.json") := tools.render(record)];
    RecordBesideBundles(tools, h, staging, record.bundles, tools.render(record));
    RecordBesideSupporting(tools, h, staging, items, record.supporting, tools.render(record));
    JoinUnder(staging, "freeze.json");
    assert SameOutside(h, written, staging);
    SameOutsideTransitive(f, h, written, staging);
    OutStaysEmpty(f, written, out);
    forall q | Under(out, q) ensures !Under(staging, q) {
      StagingApart(out, q);
    }
    RenameInside(written, staging, out);
    var g := Rename(written, staging, out);
    MovedClear(tools, written, staging, g, out, record.bundles, record.supporting);
    assert SameFile(written, Join(staging, "freeze.json"), g, Join(out, "freeze.json"));
  }

  lemma {:induction false} BuiltWellNamed(tools: Tools, f: Files, q: Request, entries: seq<Entry>,
                                          supporting: seq<Supporting>)
    requires NamedAfter(entries, q.selections) && CopyBundles(tools, f, Staging(q.out), q.selections, entries).1.None?
    requires AllNamed(supporting)
    ensures WellNamed(entries, supporting)
  {
    NamesDistinct(tools, f, Staging(q.out), q.selections, entries);
    forall i | 0 <= i < |supporting| ensures '/' in supporting[i].file {
      assert IsSupporting(supporting[i]);
      var path :| supporting[i].file == SupportingName(path);
      assert SupportingName(path)[10] == '/';
    }
  }

  /** The stages of a build that returns. */
  ghost predicate Stages(tools: Tools, f: Files, q: Request, entries: seq<Entry>, g: Files, h: Files, r: Record) {
    var staging := Staging(q.out);
    && !IsDirectory(f, q.out) && Entries(tools, f, q.selections) == Result.Ok(entries) && |entries| == |q.selections|
    && CopyBundles(tools, RemoveTree(f, staging), staging, q.selections, entries) == (g, None)
    && CopySupporting(tools, g, staging, q.supporting) == (h, Result.Ok(r.supporting))
    && r == Record(SCHEMA, q.id, q.now, q.commit, entries, r.supporting)
  }

  lemma {:induction false} BuildStages(tools: Tools, f: Files, q: Request)
    returns (entries: seq<Entry>, g: Files, h: Files)
    requires Build(tools, f, q).1.Ok?
    ensures Stages(tools, f, q, entries, g, h, Build(tools, f, q).1.value)
    ensures Build(tools, f, q).0 == Publish(tools, h, q.out, Build(tools, f, q).1.value)
  {
    entries := Entries(tools, f, q.selections).value;
    g := CopyBundles(tools, RemoveTree(f, Staging(q.out)), Staging(q.out), q.selections, entries).0;
    h := CopySupporting(tools, g, Staging(q.out), q.supporting).0;
  }

  lemma {:induction false} StoredNamed(tools: Tools, f: Files, dir: string, items: seq<Item>,
                                       supporting: seq<Supporting>)
    requires Stored(tools, f, dir, items, supporting)
    ensures AllNamed(supporting)
  {
    forall i | 0 <= i < |supporting| ensures IsSupporting(supporting[i]) {
      assert supporting[i].file == SupportingName(items[i].path);
    }
  }

  ghost predicate IsSupporting(s: Supporting) {
    exists path :: s.file == SupportingName(path)
  }

  ghost predicate AllNamed(supporting: seq<Supporting>) {
    forall i :: 0 <= i < |supporting| ==> IsSupporting(supporting[i])
  }

  lemma {:induction false} StagesFreeze(tools: Tools, f: Files, q: Request, entries: seq<Entry>, g: Files, h: Files,
                                        r: Record)
    requires DigestsNonempty(tools) && Stages(tools, f, q, entries, g, h, r)
    ensures Frozen(tools, Publish(tools, h, q.out, r), q.out, r) && AllNamed(r.supporting)
  {
    var start := RemoveTree(f, Staging(q.out));
    assert NamedAfter(entries, q.selections) && DigestsGiven(entries);
    StagedClear(tools, start, Staging(q.out), q, entries);
    StagingOutside(tools, f, q, entries);
    Published(tools, f, h, q.out, r, q.supporting);
    StoredNamed(tools, h, Staging(q.out), q.supporting, r.supporting);
    BuiltWellNamed(tools, start, q, entries, r.supporting);
  }

  /** A build that returns leaves a freeze as its record describes it. */
  lemma {:induction false} BuildFreezes(tools: Tools, f: Files, q: Request)
    requires DigestsNonempty(tools) && Build(tools, f, q).1.Ok?
    ensures Frozen(tools, Build(tools, f, q).0, q.out, Build(tools, f, q).1.value)
    ensures AllNamed(Build(tools, f, q).1.value.supporting)
  {
    var entries, g, h := BuildStages(tools, f, q);
    StagesFreeze(tools, f, q, entries, g, h, Build(tools, f, q).1.value);
  }

  /** THE ROUND TRIP: what a build returns verifies as intact, even when supporting files share a name. */
  lemma {:induction false} RoundTrip(tools: Tools, f: Files, q: Request)
    requires DigestsNonempty(tools) && WritesReadBack(tools) && Build(tools, f, q).1.Ok?
    ensures var report := Verify(tools, Build(tools, f, q).0, q.out);
            report.Ok? && report.value.intact && report.value.id == q.id && report.value.problems == map[]
  {
    var (g, r) := Build(tools, f, q);
    BuildFreezes(tools, f, q);
    assert tools.record(tools.render(r.value)) == Some(r.value);
    IntactExactly(tools, g, q.out, r.value);
  }

  // ---- Building disturbs nothing else ----

  lemma {:induction false} PublishOutside(tools: Tools, h: Files, out: string, record: Record, p: string)
    requires !Under(Staging(out), p) && !Under(out, p)
    ensures SameFile(h, p, Publish(tools, h, out, record), p)
  {
    JoinUnder(Staging(out), "freeze.json");
    CopyTreeOutside(h[Join(Staging(out), "freeze.json") := tools.render(record)], Staging(out), out, p);
  }

  lemma {:induction false} AssemblyOutside(tools: Tools, f: Files, q: Request, entries: seq<Entry>, p: string)
    requires |entries| == |q.selections| && !Under(Staging(q.out), p)
    ensures var (g, r) := Assemble(tools, RemoveTree(f, Staging(q.out)), q, entries);
            r.Raised? || !Under(q.out, p) ==> SameFile(f, p, g, p)
  {
    var staging := Staging(q.out);
    var g := CopyBundles(tools, RemoveTree(f, staging), staging, q.selections, entries).0;
    var (h, supporting) := CopySupporting(tools, g, staging, q.supporting);
    StagingOutside(tools, f, q, entries);
    assert SameFile(f, p, g, p) && SameFile(f, p, h, p);
    if supporting.Ok? && !Under(q.out, p) {
      PublishOutside(tools, h, q.out, Record(SCHEMA, q.id, q.now, q.commit, entries, supporting.value), p);
    }
  }

  /** Sources and all else survive: only the staging directory is cleared and only the freeze is added. */
  lemma {:induction false} NothingElseChanges(tools: Tools, f: Files, q: Request, p: string)
    requires !Under(Staging(q.out), p)
    ensures Build(tools, f, q).1.Raised? || !Under(q.out, p) ==> SameFile(f, p, Build(tools, f, q).0, p)
  {
    if Entries(tools, f, q.selections).Ok? {
      AssemblyOutside(tools, f, q, Entries(tools, f, q.selections).value, p);
    }
  }

  // ---- Detection ----

  /**
    * The manifest and the artifacts it lists are the same, and a config.json that is present has the recorded digest.
    */
  ghost predicate BundleUnchanged(tools: Tools, f: Files, g: Files, dir: string) {
    var path, config := Join(dir, "manifest.json"), Join(dir, "config.json");
    && path in f && path in g && g[path] == f[path] && tools.manifest(f[path]).Some?
    && (forall n :: n in tools.manifest(f[path]).value.artifacts ==>
          Join(dir, n) in f && Join(dir, n) in g && g[Join(dir, n)] == f[Join(dir, n)])
    && (config in g ==> tools.manifest(f[path]).value.configuration == Some(tools.hash(g[config])))
  }

  lemma {:induction false} BundleChangeShows(tools: Tools, f: Files, g: Files, dir: string, digest: Digest)
    requires CollisionFree(tools) && digest != "" && BundleProblems(tools, f, dir, Some(digest)) == []
    ensures BundleProblems(tools, g, dir, Some(digest)) == [] <==> BundleUnchanged(tools, f, g, dir)
  {
    var path := Join(dir, "manifest.json");
    ProblemsExact(tools, f, dir, Some(digest));
    ProblemsExact(tools, g, dir, Some(digest));
    if path in g && g[path] == f[path] {
      var artifacts := tools.manifest(f[path]).value.artifacts;
      forall n | n in artifacts
        ensures FileHas(tools, g, Join(dir, n), artifacts[n]) <==>
                  Join(dir, n) in g && g[Join(dir, n)] == f[Join(dir, n)]
      {
        assert FileHas(tools, f, Join(dir, n), artifacts[n]);
      }
    }
  }

  /** Everything the freeze records is as it was. */
  ghost predicate RecordedUnchanged(tools: Tools, f: Files, g: Files, dir: string, r: Record) {
    && (forall i :: 0 <= i < |r.bundles| ==> BundleUnchanged(tools, f, g, BundleDir(dir, r.bundles[i].bundle)))
    && (forall i :: 0 <= i < |r.supporting| ==>
          Join(dir, r.supporting[i].file) in g
          && SameFile(f, Join(dir, r.supporting[i].file), g, Join(dir, r.supporting[i].file)))
  }

  lemma {:induction false} SupportingChangeShows(tools: Tools, f: Files, g: Files, dir: string,
                                                 supporting: seq<Supporting>)
    requires CollisionFree(tools) && SupportingClear(tools, f, dir, supporting)
    ensures SupportingClear(tools, g, dir, supporting) <==>
              forall i :: 0 <= i < |supporting| ==>
                Join(dir, supporting[i].file) in g
                && SameFile(f, Join(dir, supporting[i].file), g, Join(dir, supporting[i].file))
  {
    forall i | 0 <= i < |supporting| && IsLast(supporting, i)
      ensures FileHas(tools, g, Join(dir, supporting[i].file), supporting[i].digest) <==>
                Join(dir, supporting[i].file) in g
                && SameFile(f, Join(dir, supporting[i].file), g, Join(dir, supporting[i].file))
    {
      assert FileHas(tools, f, Join(dir, supporting[i].file), supporting[i].digest);
    }
    if SupportingClear(tools, g, dir, supporting) {
      forall i | 0 <= i < |supporting|
        ensures Join(dir, supporting[i].file) in g
        ensures SameFile(f, Join(dir, supporting[i].file), g, Join(dir, supporting[i].file))
      {
        var j := LastExists(supporting, i);
        assert FileHas(tools, g, Join(dir, supporting[j].file), supporting[j].digest);
      }
    }
  }

  /**
    * DETECTION, EXACTLY: whatever else happened to the file system, as long as freeze.json is as written a freeze is
    * reported intact if and only if everything it records is unchanged.
    */
  lemma {:induction false} IntactIffUnchanged(tools: Tools, f: Files, dir: string, r: Record, g: Files)
    requires CollisionFree(tools) && WritesReadBack(tools) && Frozen(tools, f, dir, r)
    requires SameFile(f, Join(dir, "freeze.json"), g, Join(dir, "freeze.json"))
    ensures Verify(tools, g, dir).Ok?
    ensures Verify(tools, g, dir).value.intact <==> RecordedUnchanged(tools, f, g, dir, r)
  {
    assert tools.record(tools.render(r)) == Some(r);
    IntactExactly(tools, g, dir, r);
    forall i | 0 <= i < |r.bundles|
      ensures BundleProblems(tools, g, BundleDir(dir, r.bundles[i].bundle), Some(r.bundles[i].manifestDigest)) == []
              <==> BundleUnchanged(tools, f, g, BundleDir(dir, r.bundles[i].bundle))
    {
      BundleChangeShows(tools, f, g, BundleDir(dir, r.bundles[i].bundle), r.bundles[i].manifestDigest);
    }
    SupportingChangeShows(tools, f, g, dir, r.supporting);
  }

  /** A configuration that is changed but still there always shows. */
  lemma {:induction false} ChangedConfigurationShows(tools: Tools, f: Files, dir: string, r: Record, g: Files, i: nat)
    requires CollisionFree(tools) && WritesReadBack(tools) && Frozen(tools, f, dir, r) && i < |r.bundles|
    requires SameFile(f, Join(dir, "freeze.json"), g, Join(dir, "freeze.json"))
    requires var config := Join(BundleDir(dir, r.bundles[i].bundle), "config.json");
             config in f && config in g && f[config] != g[config]
    ensures Verify(tools, g, dir).Ok? && !Verify(tools, g, dir).value.intact
  {
    var b := BundleDir(dir, r.bundles[i].bundle);
    IntactIffUnchanged(tools, f, dir, r, g);
    ProblemsExact(tools, f, b, Some(r.bundles[i].manifestDigest));
    var config := Join(b, "config.json");
    assert BundleUnchanged(tools, f, g, b) ==> tools.hash(f[config]) == tools.hash(g[config]);
  }

  /** The files of a freeze that its verification depends on. */
  ghost predicate Recorded(tools: Tools, f: Files, dir: string, r: Record, p: string) {
    || p == Join(dir, "freeze.json")
    || (exists i :: 0 <= i < |r.supporting| && p == Join(dir, r.supporting[i].file))
    || (exists i :: 0 <= i < |r.bundles| && RecordedInBundle(tools, f, BundleDir(dir, r.bundles[i].bundle), p))
  }

  ghost predicate RecordedInBundle(tools: Tools, f: Files, dir: string, p: string) {
    var path := Join(dir, "manifest.json");
    p == path
    || (path in f && tools.manifest(f[path]).Some?
        && exists n :: n in tools.manifest(f[path]).value.artifacts && p == Join(dir, n))
  }

  lemma {:induction false} RemovalKeepsBundle(tools: Tools, f: Files, dir: string, p: string, digest: Digest)
    requires BundleProblems(tools, f, dir, Some(digest)) == [] && !RecordedInBundle(tools, f, dir, p)
    ensures BundleUnchanged(tools, f, f - {p}, dir)
  {
    ProblemsExact(tools, f, dir, Some(digest));
    var path := Join(dir, "manifest.json");
    forall n | n in tools.manifest(f[path]).value.artifacts ensures Join(dir, n) in f && Join(dir, n) != p {
      assert FileHas(tools, f, Join(dir, n), tools.manifest(f[path]).value.artifacts[n]);
    }
  }

  /**
    * The removal of any other file goes unseen, and so does that of a config.json that its manifest does not list,
    * although its digest is recorded.
    */
  lemma {:induction false} RemovalShowsIffRecorded(tools: Tools, f: Files, dir: string, r: Record, p: string)
    requires CollisionFree(tools) && WritesReadBack(tools) && Frozen(tools, f, dir, r) && p != Join(dir, "freeze.json")
    ensures Verify(tools, f - {p}, dir).Ok?
    ensures Verify(tools, f - {p}, dir).value.intact <==> !Recorded(tools, f, dir, r, p)
  {
    var g := f - {p};
    IntactIffUnchanged(tools, f, dir, r, g);
    if !Recorded(tools, f, dir, r, p) {
      forall i | 0 <= i < |r.bundles| ensures BundleUnchanged(tools, f, g, BundleDir(dir, r.bundles[i].bundle)) {
        RemovalKeepsBundle(tools, f, BundleDir(dir, r.bundles[i].bundle), p, r.bundles[i].manifestDigest);
      }
      forall i | 0 <= i < |r.supporting| ensures Join(dir, r.supporting[i].file) in g {
        var j := LastExists(r.supporting, i);
        assert FileHas(tools, f, Join(dir, r.supporting[j].file), r.supporting[j].digest);
      }
    }
  }
}
