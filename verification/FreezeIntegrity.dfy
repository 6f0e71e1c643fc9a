/** What a freeze guarantees: it verifies when built, and afterwards shows every change to what it records. */
module FreezeIntegrity {
  import opened Counting
  import opened FileTree
  import opened EvidenceFreeze

  // ---- When a bundle has no problems ----

  ghost predicate ArtifactsIntact(tools: Tools, f: Files, dir: string, artifacts: map<string, Digest>) {
    forall n :: n in artifacts ==> FileHas(tools, f, Join(dir, n), artifacts[n])
  }

  ghost predicate BundleIntact(tools: Tools, f: Files, dir: string, expected: Option<Digest>) {
    var path, config := Join(dir, "manifest.json"), Join(dir, "config.json");
    && path in f && (expected.Some? && expected.value != "" ==> tools.hash(f[path]) == expected.value)
    && tools.manifest(f[path]).Some? && ArtifactsIntact(tools, f, dir, tools.manifest(f[path]).value.artifacts)
    && (config in f ==> tools.manifest(f[path]).value.configuration == Some(tools.hash(f[config])))
  }

  lemma {:induction false} ArtifactProblemsExact(tools: Tools, f: Files, dir: string, artifacts: map<string, Digest>,
                                                 names: seq<string>)
    requires forall n :: n in names ==> n in artifacts
    ensures ArtifactProblems(tools, f, dir, artifacts, names) == []
            <==> forall n :: n in names ==> FileHas(tools, f, Join(dir, n), artifacts[n])
  {
    if names != [] {
      var front, last := names[..|names| - 1], names[|names| - 1];
      ArtifactProblemsExact(tools, f, dir, artifacts, front);
      assert forall n :: n in names <==> n in front || n == last;
    }
  }

  /** The checks of a bundle find nothing exactly when it is intact. */
  lemma {:induction false} ProblemsExact(tools: Tools, f: Files, dir: string, expected: Option<Digest>)
    ensures BundleProblems(tools, f, dir, expected) == [] <==> BundleIntact(tools, f, dir, expected)
  {
    var path := Join(dir, "manifest.json");
    if path in f && tools.manifest(f[path]).Some? {
      var artifacts := tools.manifest(f[path]).value.artifacts;
      ArtifactProblemsExact(tools, f, dir, artifacts, ArtifactNames(artifacts));
    }
  }

  lemma {:induction false} SameArtifactProblems(tools: Tools, f: Files, a: string, g: Files, b: string,
                                                artifacts: map<string, Digest>, names: seq<string>)
    requires SameTree(f, a, g, b) && forall n :: n in names ==> n in artifacts
    ensures ArtifactProblems(tools, f, a, artifacts, names) == ArtifactProblems(tools, g, b, artifacts, names)
  {
    if names != [] {
      var n := |names| - 1;
      SameArtifactProblems(tools, f, a, g, b, artifacts, names[..n]);
      assert SameFile(f, Join(a, names[n]), g, Join(b, names[n]));
    }
  }

  /** A check looks at nothing outside its directory. */
  lemma {:induction false} SameProblems(tools: Tools, f: Files, a: string, g: Files, b: string,
                                        expected: Option<Digest>)
    requires SameTree(f, a, g, b)
    ensures BundleProblems(tools, f, a, expected) == BundleProblems(tools, g, b, expected)
  {
    var path := Join(a, "manifest.json");
    assert SameFile(f, path, g, Join(b, "manifest.json"));
    assert SameFile(f, Join(a, "config.json"), g, Join(b, "config.json"));
    if path in f && tools.manifest(f[path]).Some? {
      var artifacts := tools.manifest(f[path]).value.artifacts;
      SameArtifactProblems(tools, f, a, g, b, artifacts, ArtifactNames(artifacts));
    }
  }

  // ---- Building changes nothing outside the staging directory ----

  ghost predicate SameOutside(f: Files, g: Files, dir: string) {
    forall q :: !Under(dir, q) ==> SameFile(f, q, g, q)
  }

  lemma {:induction false} BundleDirInside(dir: string, name: string, p: string)
    requires Under(BundleDir(dir, name), p)
    ensures Under(dir, p)
  {
    UnderNested(Join(dir, "bundles"), name, p);
    UnderNested(dir, "bundles", p);
  }

  lemma {:induction false} CopyBundleOutside(tools: Tools, f: Files, staging: string, source: string, digest: Digest)
    ensures SameOutside(f, CopyBundle(tools, f, staging, source, digest).0, BundleDir(staging, Name(source)))
    ensures SameOutside(f, CopyBundle(tools, f, staging, source, digest).0, staging)
  {
    var dst, g := BundleDir(staging, Name(source)), CopyBundle(tools, f, staging, source, digest).0;
    forall q | !Under(dst, q) ensures SameFile(f, q, g, q) {
      CopyTreeOutside(f, source, dst, q);
    }
    forall q | !Under(staging, q) ensures SameFile(f, q, g, q) {
      if Under(dst, q) {
        BundleDirInside(staging, Name(source), q);
      }
    }
  }

  lemma {:induction false} CopyBundlesOutside(tools: Tools, f: Files, staging: string, selections: seq<Selection>,
                                              entries: seq<Entry>)
    requires |selections| == |entries|
    ensures SameOutside(f, CopyBundles(tools, f, staging, selections, entries).0, staging)
  {
    if selections != [] {
      var n := |selections| - 1;
      CopyBundlesOutside(tools, f, staging, selections[..n], entries[..n]);
      var g := CopyBundles(tools, f, staging, selections[..n], entries[..n]).0;
      CopyBundleOutside(tools, g, staging, selections[n].path, entries[n].manifestDigest);
    }
  }

  lemma {:induction false} CopySupportingOutside(tools: Tools, f: Files, staging: string, items: seq<Item>)
    ensures SameOutside(f, CopySupporting(tools, f, staging, items).0, staging)
  {
    if items != [] {
      var n := |items| - 1;
      CopySupportingOutside(tools, f, staging, items[..n]);
      JoinUnder(staging, SupportingName(items[n].path));
    }
  }

  /** A path cannot lie both in the freeze and in its staging directory. */
  lemma {:induction false} StagingApart(out: string, q: string)
    requires Under(out, q)
    ensures !Under(Staging(out), q)
  {
    assert Staging(out)[|out|] == '.' && q[|out|] == '/';
    NotUnder(Staging(out), q, |out|);
  }

  // ---- The copies ----

  ghost predicate Copied(tools: Tools, f: Files, staging: string, selections: seq<Selection>, entries: seq<Entry>)
    requires |selections| == |entries|
  {
    forall i :: 0 <= i < |selections| ==>
      BundleProblems(tools, f, BundleDir(staging, Name(selections[i].path)), Some(entries[i].manifestDigest)) == []
  }

  ghost predicate DistinctNames(selections: seq<Selection>) {
    forall i, j :: 0 <= i < j < |selections| ==> Name(selections[i].path) != Name(selections[j].path)
  }

  lemma {:induction false} IntactIsDirectory(tools: Tools, f: Files, dir: string, expected: Option<Digest>)
    requires BundleProblems(tools, f, dir, expected) == []
    ensures IsDirectory(f, dir)
  {
    JoinUnder(dir, "manifest.json");
    assert Join(dir, "manifest.json") in f;
  }

  /** A change confined to one bundle leaves the others as they are. */
  lemma {:induction false} OtherBundleSame(f: Files, g: Files, dir: string, name: string, other: string)
    requires SameOutside(f, g, BundleDir(dir, name)) && '/' !in name && '/' !in other && name != other
    ensures SameTree(f, BundleDir(dir, other), g, BundleDir(dir, other))
  {
    forall rel ensures SameFile(f, Join(BundleDir(dir, other), rel), g, Join(BundleDir(dir, other), rel)) {
      var p := Join(BundleDir(dir, other), rel);
      JoinUnder(BundleDir(dir, other), rel);
      if Under(BundleDir(dir, name), p) {
        SameSibling(Join(dir, "bundles"), name, other, p);
      }
    }
  }

  lemma {:induction false} CopyKeepsBundle(tools: Tools, f: Files, staging: string, source: string, digest: Digest,
                                           other: string, expected: Option<Digest>)
    requires CopyBundle(tools, f, staging, source, digest).1.None? && '/' !in other
    requires BundleProblems(tools, f, BundleDir(staging, other), expected) == []
    ensures other != Name(source)
    ensures BundleProblems(tools, CopyBundle(tools, f, staging, source, digest).0, BundleDir(staging, other), expected)
            == []
  {
    var g := CopyBundle(tools, f, staging, source, digest).0;
    IntactIsDirectory(tools, f, BundleDir(staging, other), expected);
    CopyBundleOutside(tools, f, staging, source, digest);
    OtherBundleSame(f, g, staging, Name(source), other);
    SameProblems(tools, f, BundleDir(staging, other), g, BundleDir(staging, other), expected);
  }

  lemma {:induction false} CopyKeepsCopied(tools: Tools, f: Files, staging: string, source: string, digest: Digest,
                                           selections: seq<Selection>, entries: seq<Entry>)
    requires |selections| == |entries| && Copied(tools, f, staging, selections, entries)
    requires CopyBundle(tools, f, staging, source, digest).1.None?
    ensures Copied(tools, CopyBundle(tools, f, staging, source, digest).0, staging, selections, entries)
    ensures forall i :: 0 <= i < |selections| ==> Name(selections[i].path) != Name(source)
  {
    var g := CopyBundle(tools, f, staging, source, digest).0;
    forall i | 0 <= i < |selections|
      ensures Name(selections[i].path) != Name(source)
      ensures BundleProblems(tools, g, BundleDir(staging, Name(selections[i].path)), Some(entries[i].manifestDigest))
              == []
    {
      CopyKeepsBundle(tools, f, staging, source, digest, Name(selections[i].path), Some(entries[i].manifestDigest));
    }
  }

  lemma {:induction false} CopiedMore(tools: Tools, f: Files, staging: string, selections: seq<Selection>,
                                      entries: seq<Entry>)
    requires |selections| == |entries| && selections != []
    requires Copied(tools, f, staging, selections[..|selections| - 1], entries[..|selections| - 1])
    requires BundleProblems(tools, f, BundleDir(staging, Name(selections[|selections| - 1].path)),
                            Some(entries[|selections| - 1].manifestDigest)) == []
    ensures Copied(tools, f, staging, selections, entries)
  {
    var n := |selections| - 1;
    forall i | 0 <= i < |selections|
      ensures BundleProblems(tools, f, BundleDir(staging, Name(selections[i].path)), Some(entries[i].manifestDigest))
              == []
    {
      if i < n {
        assert selections[..n][i] == selections[i] && entries[..n][i] == entries[i];
      }
    }
  }

  /** When no copy raises, every copy is intact at the end. */
  lemma {:induction false} BundlesCopied(tools: Tools, f: Files, staging: string, selections: seq<Selection>,
                                         entries: seq<Entry>)
    requires |selections| == |entries| && CopyBundles(tools, f, staging, selections, entries).1.None?
    ensures Copied(tools, CopyBundles(tools, f, staging, selections, entries).0, staging, selections, entries)
  {
    if selections != [] {
      var n := |selections| - 1;
      var g := CopyBundles(tools, f, staging, selections[..n], entries[..n]).0;
      BundlesCopied(tools, f, staging, selections[..n], entries[..n]);
      CopyKeepsCopied(tools, g, staging, selections[n].path, entries[n].manifestDigest, selections[..n], entries[..n]);
      CopiedMore(tools, CopyBundle(tools, g, staging, selections[n].path, entries[n].manifestDigest).0, staging,
                 selections, entries);
    }
  }

  lemma {:induction false} DistinctMore(selections: seq<Selection>, s: Selection)
    requires DistinctNames(selections) && forall i :: 0 <= i < |selections| ==> Name(selections[i].path) != Name(s.path)
    ensures DistinctNames(selections + [s])
  {
  }

  lemma {:induction false} LastNameNew(tools: Tools, f: Files, staging: string, selections: seq<Selection>,
                                       entries: seq<Entry>)
    requires |selections| == |entries| && selections != []
    requires CopyBundles(tools, f, staging, selections, entries).1.None?
    ensures var front := selections[..|selections| - 1];
            forall i :: 0 <= i < |front| ==> Name(front[i].path) != Name(selections[|selections| - 1].path)
  {
    var n := |selections| - 1;
    var g := CopyBundles(tools, f, staging, selections[..n], entries[..n]).0;
    BundlesCopied(tools, f, staging, selections[..n], entries[..n]);
    CopyKeepsCopied(tools, g, staging, selections[n].path, entries[n].manifestDigest, selections[..n], entries[..n]);
  }

  /** Copying refuses a second bundle of the same name. */
  lemma {:induction false} NamesDistinct(tools: Tools, f: Files, staging: string, selections: seq<Selection>,
                                         entries: seq<Entry>)
    requires |selections| == |entries| && CopyBundles(tools, f, staging, selections, entries).1.None?
    ensures DistinctNames(selections)
  {
    if selections != [] {
      var n := |selections| - 1;
      var front, last := selections[..n], selections[n];
      NamesDistinct(tools, f, staging, front, entries[..n]);
      assert forall i :: 0 <= i < |front| ==> Name(front[i].path) != Name(last.path) by {
        LastNameNew(tools, f, staging, selections, entries);
      }
      DistinctMore(front, last);
      assert selections == front + [last];
    }
  }

  // ---- The supporting files ----

  /** No later item overwrites the file. */
  predicate IsLast(supporting: seq<Supporting>, i: nat)
    requires i < |supporting|
  {
    forall j :: i < j < |supporting| ==> supporting[j].file != supporting[i].file
  }

  lemma {:induction false} LastExists(supporting: seq<Supporting>, i: nat) returns (j: nat)
    requires i < |supporting|
    ensures i <= j < |supporting| && supporting[j].file == supporting[i].file && IsLast(supporting, j)
    decreases |supporting| - i
  {
    if IsLast(supporting, i) {
      j := i;
    } else {
      var k :| i < k < |supporting| && supporting[k].file == supporting[i].file;
      j := LastExists(supporting, k);
    }
  }

  /** The items are recorded in order, and each file holds what the last item of its name recorded. */
  ghost predicate Stored(tools: Tools, f: Files, dir: string, items: seq<Item>, supporting: seq<Supporting>) {
    && |supporting| == |items| && (forall i :: 0 <= i < |items| ==> supporting[i].file == SupportingName(items[i].path))
    && forall i :: 0 <= i < |supporting| && IsLast(supporting, i) ==>
         FileHas(tools, f, Join(dir, supporting[i].file), supporting[i].digest)
  }

  lemma {:induction false} StoreOne(tools: Tools, f: Files, dir: string, items: seq<Item>, supporting: seq<Supporting>,
                                    item: Item)
    requires Stored(tools, f, dir, items, supporting) && CopyItem(tools, f, dir, item).1.None?
    ensures var (g, _, s) := CopyItem(tools, f, dir, item); Stored(tools, g, dir, items + [item], supporting + [s])
  {
    var (g, _, s) := CopyItem(tools, f, dir, item);
    var all := supporting + [s];
    forall i | 0 <= i < |all| && IsLast(all, i) ensures FileHas(tools, g, Join(dir, all[i].file), all[i].digest) {
      if i < |supporting| {
        assert all[|supporting|] == s && all[i] == supporting[i];
        assert IsLast(supporting, i) by {
          forall j | i < j < |supporting| ensures supporting[j].file != supporting[i].file {
            assert all[j] == supporting[j];
          }
        }
        assert Join(dir, s.file)[|dir| + 1..] == s.file && Join(dir, all[i].file)[|dir| + 1..] == all[i].file;
      }
    }
  }

  lemma {:induction false} SupportingStored(tools: Tools, f: Files, dir: string, items: seq<Item>)
    requires CopySupporting(tools, f, dir, items).1.Ok?
    ensures var (g, r) := CopySupporting(tools, f, dir, items); Stored(tools, g, dir, items, r.value)
  {
    if items != [] {
      var n := |items| - 1;
      SupportingStored(tools, f, dir, items[..n]);
      var (g, r) := CopySupporting(tools, f, dir, items[..n]);
      StoreOne(tools, g, dir, items[..n], r.value, items[n]);
      assert items == items[..n] + [items[n]];
    }
  }

  /** A file beside the bundles is in none of them. */
  lemma {:induction false} BesideBundles(dir: string, name: string, rel: string)
    requires rel != "" && rel[0] != 'b'
    ensures !Under(BundleDir(dir, name), Join(dir, rel))
  {
    var p, b := Join(dir, rel), BundleDir(dir, name);
    assert p[|dir| + 1] == rel[0] && b[|dir| + 1] == 'b';
    NotUnder(b, p, |dir| + 1);
  }

  lemma {:induction false} BesideKeepsBundle(f: Files, dir: string, name: string, rel: string, content: Content)
    requires rel != "" && rel[0] != 'b'
    ensures SameTree(f, BundleDir(dir, name), f[Join(dir, rel) := content], BundleDir(dir, name))
  {
    BesideBundles(dir, name, rel);
    forall r ensures Join(BundleDir(dir, name), r) != Join(dir, rel) {
      JoinUnder(BundleDir(dir, name), r);
    }
  }

  lemma {:induction false} SupportingKeepsBundle(tools: Tools, f: Files, dir: string, items: seq<Item>, name: string)
    ensures SameTree(f, BundleDir(dir, name), CopySupporting(tools, f, dir, items).0, BundleDir(dir, name))
  {
    if items != [] {
      var n := |items| - 1;
      SupportingKeepsBundle(tools, f, dir, items[..n], name);
      var g, h := CopySupporting(tools, f, dir, items[..n]).0, CopySupporting(tools, f, dir, items).0;
      if h != g {
        var content := g[items[n].path];
        BesideKeepsBundle(g, dir, name, SupportingName(items[n].path), content);
        SameTreeTransitive(f, g, h, BundleDir(dir, name));
      }
    }
  }

  lemma {:induction false} SameTreeTransitive(f: Files, g: Files, h: Files, dir: string)
    requires SameTree(f, dir, g, dir) && SameTree(g, dir, h, dir)
    ensures SameTree(f, dir, h, dir)
  {
    forall rel ensures SameFile(f, Join(dir, rel), h, Join(dir, rel)) {
      assert SameFile(f, Join(dir, rel), g, Join(dir, rel)) && SameFile(g, Join(dir, rel), h, Join(dir, rel));
    }
  }

  lemma {:induction false} SameBundleTree(f: Files, a: string, g: Files, b: string, name: string)
    requires SameTree(f, a, g, b)
    ensures SameTree(f, BundleDir(a, name), g, BundleDir(b, name))
  {
    forall rel ensures SameFile(f, Join(BundleDir(a, name), rel), g, Join(BundleDir(b, name), rel)) {
      var inner := Join("bundles", Join(name, rel));
      PathInBundle(a, name, rel);
      PathInBundle(b, name, rel);
      assert SameFile(f, Join(a, inner), g, Join(b, inner));
    }
  }

  lemma {:induction false} PathInBundle(dir: string, name: string, rel: string)
    ensures Join(BundleDir(dir, name), rel) == Join(dir, Join("bundles", Join(name, rel)))
  {
    JoinAssociates(Join(dir, "bundles"), name, rel);
    JoinAssociates(dir, "bundles", Join(name, rel));
  }

  // ---- Where the results of a verification are all clear ----

  ghost predicate BundlesClear(tools: Tools, f: Files, dir: string, bundles: seq<Entry>) {
    forall i :: 0 <= i < |bundles| ==>
        BundleProblems(tools, f, BundleDir(dir, bundles[i].bundle), Some(bundles[i].manifestDigest)) == []
  }

  ghost predicate SupportingClear(tools: Tools, f: Files, dir: string, supporting: seq<Supporting>) {
    forall i :: 0 <= i < |supporting| && IsLast(supporting, i) ==>
        FileHas(tools, f, Join(dir, supporting[i].file), supporting[i].digest)
  }

  /** Bundles with different names that hold no slash, so no name is also that of a supporting file. */
  ghost predicate WellNamed(bundles: seq<Entry>, supporting: seq<Supporting>) {
    && (forall i, j :: 0 <= i < j < |bundles| ==> bundles[i].bundle != bundles[j].bundle)
    && (forall i :: 0 <= i < |bundles| ==> '/' !in bundles[i].bundle)
    && (forall i :: 0 <= i < |supporting| ==> '/' in supporting[i].file)
  }

  lemma {:induction false} BundleResultsKeys(tools: Tools, f: Files, dir: string, bundles: seq<Entry>, k: string)
    ensures k in BundleResults(tools, f, dir, bundles) <==> exists i :: 0 <= i < |bundles| && bundles[i].bundle == k
  {
    if bundles != [] {
      BundleResultsKeys(tools, f, dir, bundles[..|bundles| - 1], k);
    }
  }

  lemma {:induction false} BundleResultsAt(tools: Tools, f: Files, dir: string, bundles: seq<Entry>, i: nat)
    requires WellNamed(bundles, []) && i < |bundles|
    ensures bundles[i].bundle in BundleResults(tools, f, dir, bundles)
    ensures BundleResults(tools, f, dir, bundles)[bundles[i].bundle]
            == BundleProblems(tools, f, BundleDir(dir, bundles[i].bundle), Some(bundles[i].manifestDigest))
  {
    var n := |bundles| - 1;
    if i < n {
      BundleResultsAt(tools, f, dir, bundles[..n], i);
      assert bundles[i].bundle != bundles[n].bundle;
    }
  }

  lemma {:induction false} BundleResultsClear(tools: Tools, f: Files, dir: string, bundles: seq<Entry>)
    requires WellNamed(bundles, [])
    ensures AllClear(BundleResults(tools, f, dir, bundles)) <==> BundlesClear(tools, f, dir, bundles)
    ensures forall k :: k in BundleResults(tools, f, dir, bundles) ==> '/' !in k
  {
    var r := BundleResults(tools, f, dir, bundles);
    forall i | 0 <= i < |bundles|
      ensures bundles[i].bundle in r
      ensures r[bundles[i].bundle]
              == BundleProblems(tools, f, BundleDir(dir, bundles[i].bundle), Some(bundles[i].manifestDigest))
    {
      BundleResultsAt(tools, f, dir, bundles, i);
    }
    forall k | k in r ensures exists i :: 0 <= i < |bundles| && bundles[i].bundle == k {
      BundleResultsKeys(tools, f, dir, bundles, k);
    }
  }

  lemma {:induction false} WithSupportingKeys(tools: Tools, f: Files, dir: string, results: Results,
                                              supporting: seq<Supporting>, k: string)
    ensures k in WithSupporting(tools, f, dir, results, supporting)
            <==> k in results || exists i :: 0 <= i < |supporting| && supporting[i].file == k
  {
    if supporting != [] {
      WithSupportingKeys(tools, f, dir, results, supporting[..|supporting| - 1], k);
    }
  }

  /** The last item of a file name decides its result. */
  lemma {:induction false} LastDecides(tools: Tools, f: Files, dir: string, results: Results,
                                       supporting: seq<Supporting>, i: nat)
    requires i < |supporting| && IsLast(supporting, i)
    ensures supporting[i].file in WithSupporting(tools, f, dir, results, supporting)
    ensures WithSupporting(tools, f, dir, results, supporting)[supporting[i].file]
            == SupportingResult(tools, f, dir, supporting[i])
  {
    var n := |supporting| - 1;
    if i < n {
      assert IsLast(supporting[..n], i);
      LastDecides(tools, f, dir, results, supporting[..n], i);
    }
  }

  lemma {:induction false} OthersKeep(tools: Tools, f: Files, dir: string, results: Results,
                                      supporting: seq<Supporting>, k: string)
    requires k in results && forall i :: 0 <= i < |supporting| ==> supporting[i].file != k
    ensures k in WithSupporting(tools, f, dir, results, supporting)
    ensures WithSupporting(tools, f, dir, results, supporting)[k] == results[k]
  {
    if supporting != [] {
      OthersKeep(tools, f, dir, results, supporting[..|supporting| - 1], k);
    }
  }

  lemma {:induction false} ResultsClear(tools: Tools, f: Files, dir: string, results: Results,
                                        supporting: seq<Supporting>)
    requires forall i :: 0 <= i < |supporting| ==> supporting[i].file !in results
    ensures AllClear(WithSupporting(tools, f, dir, results, supporting))
            <==> AllClear(results) && SupportingClear(tools, f, dir, supporting)
  {
    var r := WithSupporting(tools, f, dir, results, supporting);
    forall k | k in results ensures k in r && r[k] == results[k] {
      OthersKeep(tools, f, dir, results, supporting, k);
    }
    forall i | 0 <= i < |supporting| && IsLast(supporting, i)
      ensures supporting[i].file in r && r[supporting[i].file] == SupportingResult(tools, f, dir, supporting[i])
    {
      LastDecides(tools, f, dir, results, supporting, i);
    }
    forall k | k in r && k !in results
      ensures exists i :: 0 <= i < |supporting| && IsLast(supporting, i) && supporting[i].file == k
    {
      WithSupportingKeys(tools, f, dir, results, supporting, k);
      var i :| 0 <= i < |supporting| && supporting[i].file == k;
      var j := LastExists(supporting, i);
    }
  }

  /** A freeze is reported intact exactly when every bundle and every last-written supporting file is. */
  lemma {:induction false} IntactExactly(tools: Tools, f: Files, dir: string, record: Record)
    requires Join(dir, "freeze.json") in f && tools.record(f[Join(dir, "freeze.json")]) == Some(record)
    requires record.schema == SCHEMA && WellNamed(record.bundles, record.supporting)
    ensures Verify(tools, f, dir).Ok?
    ensures Verify(tools, f, dir).value.intact
            <==> BundlesClear(tools, f, dir, record.bundles) && SupportingClear(tools, f, dir, record.supporting)
  {
    var results := BundleResults(tools, f, dir, record.bundles);
    assert WellNamed(record.bundles, []);
    BundleResultsClear(tools, f, dir, record.bundles);
    ResultsClear(tools, f, dir, results, record.supporting);
  }
}
