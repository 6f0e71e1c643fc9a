/** When a freeze can be built, and which configurations its verification can miss. */
module FreezeConfiguration {
  import opened Counting
  import opened FileTree
  import opened EvidenceFreeze
  import opened FreezeIntegrity
  import opened FreezeTheorems

  // ---- A request that can be built is built ----

  /** No file of the directory lies under the other one. */
  ghost predicate Apart(dir: string, other: string) {
    forall rel :: !Under(other, Join(dir, rel))
  }

  predicate Selectable(tools: Tools, f: Files, s: Selection) {
    && s.role in ROLES && BundleProblems(tools, f, s.path, None) == []
    && var raw := Join(s.path, "raw/results.json"); raw in f ==> tools.experiment(f[raw]).Some?
  }

  ghost predicate Buildable(tools: Tools, f: Files, q: Request) {
    var staging := Staging(q.out);
    && !Exists(f, q.out) && staging !in f && DistinctNames(q.selections)
    && (forall i :: 0 <= i < |q.selections| ==>
          Selectable(tools, f, q.selections[i]) && Apart(q.selections[i].path, staging))
    && (forall i :: 0 <= i < |q.supporting| ==> q.supporting[i].path in f && !Under(staging, q.supporting[i].path))
  }

  lemma {:induction false} EntriesCollected(tools: Tools, f: Files, selections: seq<Selection>)
    requires forall i :: 0 <= i < |selections| ==> Selectable(tools, f, selections[i])
    ensures Entries(tools, f, selections).Ok?
  {
    if selections != [] {
      EntriesCollected(tools, f, selections[..|selections| - 1]);
      assert EntryOf(tools, f, selections[|selections| - 1]).Ok?;
    }
  }

  /** A bundle without problems keeps none when its manifest's own digest is expected. */
  lemma {:induction false} OwnDigest(tools: Tools, f: Files, dir: string, digest: Digest)
    requires BundleProblems(tools, f, dir, None) == [] && FileHas(tools, f, Join(dir, "manifest.json"), digest)
    ensures BundleProblems(tools, f, dir, Some(digest)) == []
  {
    ProblemsExact(tools, f, dir, None);
    ProblemsExact(tools, f, dir, Some(digest));
  }

  /** All that lies in the staging directory is in the copies made so far. */
  ghost predicate OnlyBundles(f: Files, staging: string, selections: seq<Selection>) {
    forall p :: p in f && Under(staging, p) ==> InSomeBundle(p, staging, selections)
  }

  ghost predicate InSomeBundle(p: string, staging: string, selections: seq<Selection>) {
    exists j :: 0 <= j < |selections| && Under(BundleDir(staging, Name(selections[j].path)), p)
  }

  lemma {:induction false} NoSibling(dir: string, a: string, b: string)
    requires '/' !in b
    ensures !Under(Join(dir, a), Join(dir, b))
  {
    var p := Join(dir, b);
    assert forall i :: |dir| < i < |p| ==> p[i] == b[i - |dir| - 1] != '/';
  }

  lemma {:induction false} NotInAnyBundle(staging: string, selections: seq<Selection>, name: string)
    requires '/' !in name
    ensures !InSomeBundle(BundleDir(staging, name), staging, selections)
    ensures Under(staging, BundleDir(staging, name))
  {
    forall j | 0 <= j < |selections|
      ensures !Under(BundleDir(staging, Name(selections[j].path)), BundleDir(staging, name))
    {
      NoSibling(Join(staging, "bundles"), Name(selections[j].path), name);
    }
    JoinAssociates(staging, "bundles", name);
    JoinUnder(staging, Join("bundles", name));
  }

  lemma {:induction false} NotInOtherBundle(staging: string, selections: seq<Selection>, name: string, p: string)
    requires '/' !in name && Under(BundleDir(staging, name), p)
    requires forall j :: 0 <= j < |selections| ==> Name(selections[j].path) != name
    ensures !InSomeBundle(p, staging, selections) && Under(staging, p)
  {
    BundleDirInside(staging, name, p);
    if InSomeBundle(p, staging, selections) {
      var j :| 0 <= j < |selections| && Under(BundleDir(staging, Name(selections[j].path)), p);
      SameSibling(Join(staging, "bundles"), Name(selections[j].path), name, p);
    }
  }

  /** A name not copied yet is free. */
  lemma {:induction false} PlaceFree(f: Files, staging: string, selections: seq<Selection>, name: string)
    requires OnlyBundles(f, staging, selections) && '/' !in name
    requires forall j :: 0 <= j < |selections| ==> Name(selections[j].path) != name
    ensures !Exists(f, BundleDir(staging, name))
  {
    NotInAnyBundle(staging, selections, name);
    forall p | p in f ensures !Under(BundleDir(staging, name), p) {
      if Under(BundleDir(staging, name), p) {
        NotInOtherBundle(staging, selections, name, p);
      }
    }
  }

  lemma {:induction false} SourceUnchanged(f: Files, g: Files, staging: string, source: string)
    requires SameOutside(f, g, staging) && Apart(source, staging)
    ensures SameTree(f, source, g, source)
  {
  }

  lemma {:induction false} SameTreeVia(f: Files, a: string, g: Files, b: string, h: Files, c: string)
    requires SameTree(f, a, g, b) && SameTree(g, b, h, c)
    ensures SameTree(f, a, h, c)
  {
    forall rel ensures SameFile(f, Join(a, rel), h, Join(c, rel)) {
      assert SameFile(f, Join(a, rel), g, Join(b, rel)) && SameFile(g, Join(b, rel), h, Join(c, rel));
    }
  }

  /** The same tree elsewhere has the same manifest and, if there were none, no problems. */
  lemma {:induction false} SameTreeIsGood(tools: Tools, f: Files, a: string, h: Files, c: string, digest: Digest)
    requires SameTree(f, a, h, c)
    requires BundleProblems(tools, f, a, None) == [] && FileHas(tools, f, Join(a, "manifest.json"), digest)
    ensures BundleProblems(tools, h, c, Some(digest)) == []
  {
    SameProblems(tools, f, a, h, c, None);
    assert SameFile(f, Join(a, "manifest.json"), h, Join(c, "manifest.json"));
    OwnDigest(tools, h, c, digest);
  }

  lemma {:induction false} CopyIsGood(tools: Tools, f: Files, g: Files, source: string, dst: string, digest: Digest)
    requires SameTree(f, source, g, source) && !IsDirectory(g, dst)
    requires BundleProblems(tools, f, source, None) == [] && FileHas(tools, f, Join(source, "manifest.json"), digest)
    ensures BundleProblems(tools, CopyTree(g, source, dst), dst, Some(digest)) == []
  {
    CopyTreeInside(g, source, dst);
    SameTreeVia(f, source, g, source, CopyTree(g, source, dst), dst);
    SameTreeIsGood(tools, f, source, CopyTree(g, source, dst), dst, digest);
  }

  lemma {:induction false} StillDirectory(tools: Tools, f: Files, g: Files, source: string)
    requires SameTree(f, source, g, source) && BundleProblems(tools, f, source, None) == []
    ensures IsDirectory(g, source)
  {
    SameProblems(tools, f, source, g, source, None);
    IntactIsDirectory(tools, g, source, None);
  }

  /** One more copy succeeds. */
  lemma {:induction false} CopySucceeds(tools: Tools, f: Files, g: Files, staging: string, selections: seq<Selection>,
                                        s: Selection, digest: Digest)
    requires SameOutside(f, g, staging) && OnlyBundles(g, staging, selections) && Apart(s.path, staging)
    requires BundleProblems(tools, f, s.path, None) == [] && FileHas(tools, f, Join(s.path, "manifest.json"), digest)
    requires forall j :: 0 <= j < |selections| ==> Name(selections[j].path) != Name(s.path)
    ensures CopyBundle(tools, g, staging, s.path, digest).1.None?
  {
    SourceUnchanged(f, g, staging, s.path);
    StillDirectory(tools, f, g, s.path);
    PlaceFree(g, staging, selections, Name(s.path));
    CopyIsGood(tools, f, g, s.path, BundleDir(staging, Name(s.path)), digest);
  }

  lemma {:induction false} CopyStaysInBundle(tools: Tools, g: Files, staging: string, selections: seq<Selection>,
                                             s: Selection, digest: Digest)
    requires OnlyBundles(g, staging, selections)
    ensures OnlyBundles(CopyBundle(tools, g, staging, s.path, digest).0, staging, selections + [s])
  {
    var h, all := CopyBundle(tools, g, staging, s.path, digest).0, selections + [s];
    CopyBundleOutside(tools, g, staging, s.path, digest);
    forall p | p in h && Under(staging, p) ensures InSomeBundle(p, staging, all) {
      if Under(BundleDir(staging, Name(s.path)), p) {
        assert all[|selections|] == s;
      } else {
        assert SameFile(g, p, h, p) && InSomeBundle(p, staging, selections);
        var j :| 0 <= j < |selections| && Under(BundleDir(staging, Name(selections[j].path)), p);
        assert all[j] == selections[j];
      }
    }
  }

  /** What a copy needs to know of its bundle. */
  ghost predicate Copyable(tools: Tools, f: Files, staging: string, s: Selection, digest: Digest) {
    && BundleProblems(tools, f, s.path, None) == [] && FileHas(tools, f, Join(s.path, "manifest.json"), digest)
    && Apart(s.path, staging)
  }

  ghost predicate AllCopyable(tools: Tools, f: Files, staging: string, selections: seq<Selection>,
                              entries: seq<Entry>) {
    |selections| == |entries|
    && forall i :: 0 <= i < |selections| ==> Copyable(tools, f, staging, selections[i], entries[i].manifestDigest)
  }

  lemma {:induction false} NextCopy(tools: Tools, f: Files, g: Files, staging: string, selections: seq<Selection>,
                                    s: Selection, digest: Digest)
    requires SameOutside(f, g, staging) && OnlyBundles(g, staging, selections) && Copyable(tools, f, staging, s, digest)
    requires forall j :: 0 <= j < |selections| ==> Name(selections[j].path) != Name(s.path)
    ensures CopyBundle(tools, g, staging, s.path, digest).1.None?
    ensures OnlyBundles(CopyBundle(tools, g, staging, s.path, digest).0, staging, selections + [s])
  {
    CopySucceeds(tools, f, g, staging, selections, s, digest);
    CopyStaysInBundle(tools, g, staging, selections, s, digest);
  }

  lemma {:induction false} FrontCopyable(tools: Tools, f: Files, staging: string, selections: seq<Selection>,
                                         entries: seq<Entry>)
    requires AllCopyable(tools, f, staging, selections, entries) && selections != []
    ensures var n := |selections| - 1;
            AllCopyable(tools, f, staging, selections[..n], entries[..n])
            && Copyable(tools, f, staging, selections[n], entries[n].manifestDigest)
  {
    var n := |selections| - 1;
    forall i | 0 <= i < n ensures Copyable(tools, f, staging, selections[..n][i], entries[..n][i].manifestDigest) {
      assert selections[..n][i] == selections[i] && entries[..n][i] == entries[i];
    }
  }

  lemma {:induction false} FrontDistinct(selections: seq<Selection>)
    requires DistinctNames(selections) && selections != []
    ensures var n := |selections| - 1;
            && DistinctNames(selections[..n]) && selections == selections[..n] + [selections[n]]
            && forall j :: 0 <= j < n ==> Name(selections[..n][j].path) != Name(selections[n].path)
  {
  }

  lemma {:induction false} CopiesSucceed(tools: Tools, f: Files, start: Files, staging: string,
                                         selections: seq<Selection>, entries: seq<Entry>)
    requires SameOutside(f, start, staging) && OnlyBundles(start, staging, [])
    requires AllCopyable(tools, f, staging, selections, entries) && DistinctNames(selections)
    ensures CopyBundles(tools, start, staging, selections, entries).1.None?
    ensures OnlyBundles(CopyBundles(tools, start, staging, selections, entries).0, staging, selections)
  {
    if selections != [] {
      var n := |selections| - 1;
      var front, rest := selections[..n], entries[..n];
      FrontCopyable(tools, f, staging, selections, entries);
      FrontDistinct(selections);
      CopiesSucceed(tools, f, start, staging, front, rest);
      CopyBundlesOutside(tools, start, staging, front, rest);
      var g := CopyBundles(tools, start, staging, front, rest).0;
      SameOutsideTransitive(f, start, g, staging);
      NextCopy(tools, f, g, staging, front, selections[n], entries[n].manifestDigest);
    }
  }

  lemma {:induction false} ItemsSucceed(tools: Tools, f: Files, g: Files, staging: string, items: seq<Item>)
    requires SameOutside(f, g, staging)
    requires forall i :: 0 <= i < |items| ==> items[i].path in f && !Under(staging, items[i].path)
    ensures CopySupporting(tools, g, staging, items).1.Ok?
  {
    if items != [] {
      var n := |items| - 1;
      ItemsSucceed(tools, f, g, staging, items[..n]);
      CopySupportingOutside(tools, g, staging, items[..n]);
      assert SameFile(f, items[n].path, g, items[n].path);
      assert SameFile(g, items[n].path, CopySupporting(tools, g, staging, items[..n]).0, items[n].path);
      JoinUnder(staging, SupportingName(items[n].path));
    }
  }

  /**
    * A request whose bundles verify, bear different names and lie,
    * like its supporting files, outside the staging directory.
    */
  lemma {:induction false} BuildSucceeds(tools: Tools, f: Files, q: Request)
    requires Buildable(tools, f, q)
    ensures Build(tools, f, q).1.Ok?
  {
    var staging := Staging(q.out);
    EntriesCollected(tools, f, q.selections);
    var entries, start := Entries(tools, f, q.selections).value, RemoveTree(f, staging);
    assert SameOutside(f, start, staging) && OnlyBundles(start, staging, []);
    assert AllCopyable(tools, f, staging, q.selections, entries);
    CopiesSucceed(tools, f, start, staging, q.selections, entries);
    StagingOutside(tools, f, q, entries);
    ItemsSucceed(tools, f, CopyBundles(tools, start, staging, q.selections, entries).0, staging, q.supporting);
  }

  // ---- The copies are the originals ----

  ghost predicate TreesCopied(f: Files, g: Files, dir: string, selections: seq<Selection>) {
    forall i :: 0 <= i < |selections| ==> SameTree(f, selections[i].path, g, BundleDir(dir, Name(selections[i].path)))
  }

  ghost predicate AllApart(selections: seq<Selection>, staging: string) {
    forall i :: 0 <= i < |selections| ==> Apart(selections[i].path, staging)
  }

  lemma {:induction false} NewTree(tools: Tools, f: Files, g: Files, staging: string, s: Selection, digest: Digest)
    requires SameOutside(f, g, staging) && Apart(s.path, staging)
    requires CopyBundle(tools, g, staging, s.path, digest).1.None?
    ensures SameTree(f, s.path, CopyBundle(tools, g, staging, s.path, digest).0, BundleDir(staging, Name(s.path)))
  {
    var dst := BundleDir(staging, Name(s.path));
    SourceUnchanged(f, g, staging, s.path);
    CopyTreeInside(g, s.path, dst);
    SameTreeVia(f, s.path, g, s.path, CopyTree(g, s.path, dst), dst);
  }

  lemma {:induction false} OldTrees(tools: Tools, f: Files, g: Files, staging: string, selections: seq<Selection>,
                                    s: Selection, digest: Digest)
    requires TreesCopied(f, g, staging, selections)
    requires forall i :: 0 <= i < |selections| ==> Name(selections[i].path) != Name(s.path)
    ensures TreesCopied(f, CopyBundle(tools, g, staging, s.path, digest).0, staging, selections)
  {
    var h := CopyBundle(tools, g, staging, s.path, digest).0;
    CopyBundleOutside(tools, g, staging, s.path, digest);
    forall i | 0 <= i < |selections|
      ensures SameTree(f, selections[i].path, h, BundleDir(staging, Name(selections[i].path)))
    {
      var dir := BundleDir(staging, Name(selections[i].path));
      OtherBundleSame(g, h, staging, Name(s.path), Name(selections[i].path));
      SameTreeVia(f, selections[i].path, g, dir, h, dir);
    }
  }

  lemma {:induction false} OneMoreTree(f: Files, g: Files, dir: string, selections: seq<Selection>, s: Selection)
    requires TreesCopied(f, g, dir, selections) && SameTree(f, s.path, g, BundleDir(dir, Name(s.path)))
    ensures TreesCopied(f, g, dir, selections + [s])
  {
  }

  lemma {:induction false} NextTree(tools: Tools, f: Files, g: Files, staging: string, front: seq<Selection>,
                                    last: Selection, digest: Digest)
    requires SameOutside(f, g, staging) && TreesCopied(f, g, staging, front) && Apart(last.path, staging)
    requires forall i :: 0 <= i < |front| ==> Name(front[i].path) != Name(last.path)
    requires CopyBundle(tools, g, staging, last.path, digest).1.None?
    ensures TreesCopied(f, CopyBundle(tools, g, staging, last.path, digest).0, staging, front + [last])
  {
    NewTree(tools, f, g, staging, last, digest);
    OldTrees(tools, f, g, staging, front, last, digest);
    OneMoreTree(f, CopyBundle(tools, g, staging, last.path, digest).0, staging, front, last);
  }

  lemma {:induction false} StagedTrees(tools: Tools, f: Files, start: Files, staging: string,
                                       selections: seq<Selection>, entries: seq<Entry>)
    requires SameOutside(f, start, staging) && |selections| == |entries| && AllApart(selections, staging)
    requires CopyBundles(tools, start, staging, selections, entries).1.None?
    ensures TreesCopied(f, CopyBundles(tools, start, staging, selections, entries).0, staging, selections)
  {
    if selections != [] {
      var n := |selections| - 1;
      var front, last, rest := selections[..n], selections[n], entries[..n];
      assert AllApart(front, staging) && Apart(last.path, staging);
      StagedTrees(tools, f, start, staging, front, rest);
      LastNameNew(tools, start, staging, selections, entries);
      CopyBundlesOutside(tools, start, staging, front, rest);
      var g := CopyBundles(tools, start, staging, front, rest).0;
      SameOutsideTransitive(f, start, g, staging);
      NextTree(tools, f, g, staging, front, last, entries[n].manifestDigest);
      assert selections == front + [last];
    }
  }

  lemma {:induction false} PublishedTree(tools: Tools, f: Files, h: Files, out: string, record: Record, name: string)
    requires !IsDirectory(f, out) && SameOutside(f, h, Staging(out))
    ensures SameTree(h, BundleDir(Staging(out), name), Publish(tools, h, out, record), BundleDir(out, name))
  {
    var staging := Staging(out);
    var written := h[Join(staging, "freeze.json") := tools.render(record)];
    JoinUnder(staging, "freeze.json");
    assert SameOutside(h, written, staging);
    SameOutsideTransitive(f, h, written, staging);
    OutStaysEmpty(f, written, out);
    forall q | Under(out, q) ensures !Under(staging, q) {
      StagingApart(out, q);
    }
    RenameInside(written, staging, out);
    SameBundleTree(written, staging, Rename(written, staging, out), out, name);
    BesideKeepsBundle(h, staging, name, "freeze.json", tools.render(record));
    SameTreeVia(h, BundleDir(staging, name), written, BundleDir(staging, name), Rename(written, staging, out),
                BundleDir(out, name));
  }

  lemma {:induction false} FinishedTree(tools: Tools, f: Files, q: Request, g: Files, h: Files, r: Record, s: Selection)
    requires !IsDirectory(f, q.out) && SameOutside(f, h, Staging(q.out))
    requires h == CopySupporting(tools, g, Staging(q.out), q.supporting).0
    requires SameTree(f, s.path, g, BundleDir(Staging(q.out), Name(s.path)))
    ensures SameTree(f, s.path, Publish(tools, h, q.out, r), BundleDir(q.out, Name(s.path)))
  {
    var staging, name := Staging(q.out), Name(s.path);
    SupportingKeepsBundle(tools, g, staging, q.supporting, name);
    SameTreeVia(f, s.path, g, BundleDir(staging, name), h, BundleDir(staging, name));
    PublishedTree(tools, f, h, q.out, r, name);
    SameTreeVia(f, s.path, h, BundleDir(staging, name), Publish(tools, h, q.out, r), BundleDir(q.out, name));
  }

  lemma {:induction false} FinishedTrees(tools: Tools, f: Files, q: Request, entries: seq<Entry>, g: Files, h: Files,
                                         r: Record)
    requires Stages(tools, f, q, entries, g, h, r) && AllApart(q.selections, Staging(q.out))
    ensures TreesCopied(f, Publish(tools, h, q.out, r), q.out, q.selections)
  {
    var staging := Staging(q.out);
    assert SameOutside(f, RemoveTree(f, staging), staging);
    StagedTrees(tools, f, RemoveTree(f, staging), staging, q.selections, entries);
    StagingOutside(tools, f, q, entries);
    forall i | 0 <= i < |q.selections|
      ensures SameTree(f, q.selections[i].path, Publish(tools, h, q.out, r),
                       BundleDir(q.out, Name(q.selections[i].path)))
    {
      FinishedTree(tools, f, q, g, h, r, q.selections[i]);
    }
  }

  /**
    * A build copies every bundle that lies outside the staging directory file by file: nothing added, nothing changed.
    */
  lemma {:induction false} CopiesAreOriginals(tools: Tools, f: Files, q: Request)
    requires Build(tools, f, q).1.Ok? && AllApart(q.selections, Staging(q.out))
    ensures TreesCopied(f, Build(tools, f, q).0, q.out, q.selections)
  {
    var entries, g, h := BuildStages(tools, f, q);
    FinishedTrees(tools, f, q, entries, g, h, Build(tools, f, q).1.value);
  }

  // ---- The removal of a configuration ----

  /** The path of a bundle's configuration in a freeze. */
  function ConfigurationOf(dir: string, name: string): string {
    Join(BundleDir(dir, name), "config.json")
  }

  /** The manifest of the frozen bundle lists its configuration among the artifacts. */
  predicate ListsConfiguration(tools: Tools, f: Files, dir: string, name: string) {
    var path := Join(BundleDir(dir, name), "manifest.json");
    path in f && tools.manifest(f[path]).Some? && "config.json" in tools.manifest(f[path]).value.artifacts
  }

  lemma {:induction false} JoinInjective(dir: string, a: string, b: string)
    requires Join(dir, a) == Join(dir, b)
    ensures a == b
  {
    assert Join(dir, a)[|dir| + 1..] == a && Join(dir, b)[|dir| + 1..] == b;
  }

  /** Of the files recorded in the bundles, only a listed configuration is at this path. */
  lemma {:induction false} ConfigurationInBundle(tools: Tools, f: Files, dir: string, name: string, other: string)
    requires '/' !in name && '/' !in other
    ensures RecordedInBundle(tools, f, BundleDir(dir, other), ConfigurationOf(dir, name))
            <==> name == other && ListsConfiguration(tools, f, dir, name)
  {
    var p, b := ConfigurationOf(dir, name), BundleDir(dir, other);
    JoinUnder(BundleDir(dir, name), "config.json");
    if RecordedInBundle(tools, f, b, p) {
      var listed := tools.manifest(f[Join(b, "manifest.json")]).value.artifacts;
      var n :| p == Join(b, n) && (n == "manifest.json" || n in listed);
      JoinUnder(b, n);
      SameSibling(Join(dir, "bundles"), name, other, p);
      JoinInjective(b, n, "config.json");
    }
  }

  lemma {:induction false} ConfigurationBeside(dir: string, name: string, rel: string)
    requires rel != "" && rel[0] != 'b'
    ensures ConfigurationOf(dir, name) != Join(dir, rel)
  {
    BesideBundles(dir, name, rel);
    JoinUnder(BundleDir(dir, name), "config.json");
  }

  lemma {:induction false} ConfigurationRecorded(tools: Tools, f: Files, q: Request, i: nat)
    requires DigestsNonempty(tools) && Build(tools, f, q).1.Ok? && i < |Build(tools, f, q).1.value.bundles|
    ensures var (g, r) := Build(tools, f, q); var name := r.value.bundles[i].bundle;
            Recorded(tools, g, q.out, r.value, ConfigurationOf(q.out, name)) <==>
              ListsConfiguration(tools, g, q.out, name)
  {
    var g, r := Build(tools, f, q).0, Build(tools, f, q).1.value;
    var name := r.bundles[i].bundle;
    BuildFreezes(tools, f, q);
    ConfigurationBeside(q.out, name, "freeze.json");
    forall j | 0 <= j < |r.supporting| ensures ConfigurationOf(q.out, name) != Join(q.out, r.supporting[j].file) {
      assert IsSupporting(r.supporting[j]);
      var path :| r.supporting[j].file == SupportingName(path);
      ConfigurationBeside(q.out, name, SupportingName(path));
    }
    forall j | 0 <= j < |r.bundles|
      ensures RecordedInBundle(tools, g, BundleDir(q.out, r.bundles[j].bundle), ConfigurationOf(q.out, name))
              <==> name == r.bundles[j].bundle && ListsConfiguration(tools, g, q.out, name)
    {
      ConfigurationInBundle(tools, g, q.out, name, r.bundles[j].bundle);
    }
  }

  /**
    * After any build that returns, the removal of a bundle's config.json is reported if and only if the bundle's
    * manifest lists that file, whether or not the manifest records the digest of the configuration.
    */
  lemma {:induction false} ConfigurationRemovalShowsIffListed(tools: Tools, f: Files, q: Request, i: nat)
    requires CollisionFree(tools) && DigestsNonempty(tools) && WritesReadBack(tools)
    requires Build(tools, f, q).1.Ok? && i < |Build(tools, f, q).1.value.bundles|
    ensures var (g, r) := Build(tools, f, q); var name := r.value.bundles[i].bundle;
            var report := Verify(tools, g - {ConfigurationOf(q.out, name)}, q.out);
            report.Ok? && (report.value.intact <==> !ListsConfiguration(tools, g, q.out, name))
  {
    var g, r := Build(tools, f, q).0, Build(tools, f, q).1.value;
    var name := r.bundles[i].bundle;
    BuildFreezes(tools, f, q);
    ConfigurationRecorded(tools, f, q, i);
    ConfigurationBeside(q.out, name, "freeze.json");
    RemovalShowsIffRecorded(tools, g, q.out, r, ConfigurationOf(q.out, name));
  }

  // ---- Such a freeze exists ----

  /** One bundle with a configuration whose digest its manifest records, but which the manifest does not list. */
  function SampleFiles(manifest: Content, configuration: Content): Files {
    map[Join("b", "manifest.json") := manifest, Join("b", "config.json") := configuration]
  }

  const SampleRequest := Request([Selection("b", "canonical", "")], "freeze", "id", "commit", "now", [])

  lemma {:induction false} SamplePaths()
    ensures Name("b") == "b" && Staging("freeze")[0] == 'f'
    ensures Join("b", "manifest.json") != Join("b", "config.json")
    ensures Join("b", "raw/results.json") != Join("b", "config.json")
    ensures Join("b", "raw/results.json") != Join("b", "manifest.json")
  {
    assert "b"[..0] == "" && Name("") == "";
    assert |Join("b", "manifest.json")| == 15 && |Join("b", "config.json")| == 13;
    assert |Join("b", "raw/results.json")| == 18;
  }

  lemma {:induction false} SampleSelectable(tools: Tools, m: Content, c: Content)
    requires tools.manifest(m) == Some(Manifest(map[], Some(tools.hash(c)), map[]))
    ensures Selectable(tools, SampleFiles(m, c), SampleRequest.selections[0])
  {
    SamplePaths();
    var f := SampleFiles(m, c);
    assert BundleIntact(tools, f, "b", None);
    ProblemsExact(tools, f, "b", None);
    assert "canonical" == ROLES[0];
  }

  lemma {:induction false} SampleApart(rel: string)
    ensures !Under(Staging("freeze"), Join("b", rel)) && !Under("freeze", Join("b", rel))
    ensures Join("b", rel)[0] == 'b'
  {
    NotUnder(Staging("freeze"), Join("b", rel), 0);
    NotUnder("freeze", Join("b", rel), 0);
  }

  lemma {:induction false} SampleBuildable(tools: Tools, m: Content, c: Content)
    requires tools.manifest(m) == Some(Manifest(map[], Some(tools.hash(c)), map[]))
    ensures Buildable(tools, SampleFiles(m, c), SampleRequest)
  {
    SampleSelectable(tools, m, c);
    SampleApart("manifest.json");
    SampleApart("config.json");
    assert "freeze"[0] == 'f' && Staging("freeze")[0] == 'f';
    forall rel ensures !Under(Staging("freeze"), Join("b", rel)) {
      SampleApart(rel);
    }
  }

  /**
    * For any tools that read some text as a manifest that records the digest of a configuration and lists no artifacts:
    * the freeze of that bundle is built, holds the configuration, and after its removal is still reported intact.
    */
  lemma {:induction false} UnlistedRemovalUnseen(tools: Tools, m: Content, c: Content)
    requires CollisionFree(tools) && DigestsNonempty(tools) && WritesReadBack(tools)
    requires tools.manifest(m) == Some(Manifest(map[], Some(tools.hash(c)), map[]))
    ensures var (g, r) := Build(tools, SampleFiles(m, c), SampleRequest);
            var p := ConfigurationOf("freeze", "b");
            var report := Verify(tools, g - {p}, "freeze");
            r.Ok? && p in g && g[p] == c && report.Ok? && report.value.intact
  {
    var f := SampleFiles(m, c);
    SampleBuildable(tools, m, c);
    BuildSucceeds(tools, f, SampleRequest);
    var g, r := Build(tools, f, SampleRequest).0, Build(tools, f, SampleRequest).1.value;
    SampleTree(tools, m, c);
    SampleCopied(tools, m, c, g);
    var entries, _, _ := BuildStages(tools, f, SampleRequest);
    assert Describes(tools, f, SampleRequest.selections[0], entries[0]) && r.bundles[0].bundle == Name("b");
    SamplePaths();
    ConfigurationRemovalShowsIffListed(tools, f, SampleRequest, 0);
  }

  lemma {:induction false} SampleTree(tools: Tools, m: Content, c: Content)
    requires Build(tools, SampleFiles(m, c), SampleRequest).1.Ok?
    ensures SameTree(SampleFiles(m, c), "b", Build(tools, SampleFiles(m, c), SampleRequest).0, BundleDir("freeze", "b"))
  {
    forall rel ensures !Under(Staging("freeze"), Join("b", rel)) {
      SampleApart(rel);
    }
    SamplePaths();
    assert AllApart(SampleRequest.selections, Staging("freeze"));
    CopiesAreOriginals(tools, SampleFiles(m, c), SampleRequest);
    assert SampleRequest.selections[0].path == "b";
  }

  lemma {:induction false} SampleCopied(tools: Tools, m: Content, c: Content, g: Files)
    requires tools.manifest(m) == Some(Manifest(map[], Some(tools.hash(c)), map[]))
    requires SameTree(SampleFiles(m, c), "b", g, BundleDir("freeze", "b"))
    ensures var p := ConfigurationOf("freeze", "b"); p in g && g[p] == c && !ListsConfiguration(tools, g, "freeze", "b")
  {
    SamplePaths();
    var f, dir := SampleFiles(m, c), BundleDir("freeze", "b");
    assert SameFile(f, Join("b", "config.json"), g, Join(dir, "config.json"));
    assert SameFile(f, Join("b", "manifest.json"), g, Join(dir, "manifest.json"));
  }
}
