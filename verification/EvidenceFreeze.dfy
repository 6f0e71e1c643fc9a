/**
  * The evidence freeze of evaluation/research/freeze.py: copying
  * verified bundles, recording their hashes, checking them.
  */
module EvidenceFreeze {
  import opened Counting
  import opened TextOrder
  import opened FileTree

  type Digest = string

  // ---- Documents ----

  /** What the code reads from a manifest; `details` stands for the fields it only copies. */
  datatype Manifest = Manifest(artifacts: map<string, Digest>, configuration: Option<Digest>,
                               details: map<string, string>)

  datatype Entry = Entry(bundle: string, role: string, note: string, experiment: Option<string>, manifest: Manifest,
                         manifestDigest: Digest)

  datatype Supporting = Supporting(file: string, note: string, digest: Digest)

  datatype Record = Record(schema: string, id: string, createdAt: string, commit: string, bundles: seq<Entry>,
                           supporting: seq<Supporting>)

  /** The hash function and the readers and writers of documents; a reader answers None for text that is not JSON. */
  datatype Tools = Tools(hash: Content -> Digest, manifest: Content -> Option<Manifest>,
                         experiment: Content -> Option<Option<string>>, render: Record -> Content,
                         record: Content -> Option<Record>)

  ghost predicate CollisionFree(tools: Tools) {
    forall a, b :: tools.hash(a) == tools.hash(b) ==> a == b
  }

  ghost predicate WritesReadBack(tools: Tools) {
    forall r :: tools.record(tools.render(r)) == Some(r)
  }

  const SCHEMA := "satsa-evidence-freeze/1"
  const ROLES := ["canonical", "superseded", "historical", "supporting"]

  // ---- One bundle ----

  datatype Problem =
    | ManifestMissing | ManifestDiffers | ManifestInvalid
    | ArtifactMissing(name: string) | ArtifactDiffers(name: string)
    | ConfigurationDiffers | SupportingDiffers

  predicate FileHas(tools: Tools, f: Files, path: string, digest: Digest) {
    path in f && tools.hash(f[path]) == digest
  }

  function ArtifactProblems(tools: Tools, f: Files, dir: string, artifacts: map<string, Digest>,
                            names: seq<string>): seq<Problem>
    requires forall n :: n in names ==> n in artifacts
  {
    if names == [] then []
    else
      var name := names[|names| - 1];
      ArtifactProblems(tools, f, dir, artifacts, names[..|names| - 1])
      + if Join(dir, name) !in f then [ArtifactMissing(name)]
        else if tools.hash(f[Join(dir, name)]) != artifacts[name] then [ArtifactDiffers(name)]
        else []
  }

  /** The listed artifacts in the order of their names. */
  function ArtifactNames(artifacts: map<string, Digest>): (r: seq<string>)
    ensures Ascending(r) && forall n :: n in r <==> n in artifacts
  {
    InOrderAscending(artifacts.Keys);
    InOrder(artifacts.Keys)
  }

  function ManifestProblems(tools: Tools, f: Files, path: string, expected: Option<Digest>): seq<Problem>
    requires path in f
  {
    if expected.Some? && expected.value != "" && tools.hash(f[path]) != expected.value then [ManifestDiffers] else []
  }

  function ConfigurationProblems(tools: Tools, f: Files, path: string, m: Manifest): seq<Problem> {
    if path in f && Some(tools.hash(f[path])) != m.configuration then [ConfigurationDiffers] else []
  }

  function BundleProblems(tools: Tools, f: Files, dir: string, expected: Option<Digest>): seq<Problem> {
    var path := Join(dir, "manifest.json");
    if path !in f then [ManifestMissing]
    else
      var first := ManifestProblems(tools, f, path, expected);
      match tools.manifest(f[path])
      case None => first + [ManifestInvalid]
      case Some(m) =>
        first + ArtifactProblems(tools, f, dir, m.artifacts, ArtifactNames(m.artifacts))
        + ConfigurationProblems(tools, f, Join(dir, "config.json"), m)
  }

  // ---- Building a freeze ----

  datatype Selection = Selection(path: string, role: string, note: string)

  datatype Item = Item(path: string, note: string)

  datatype Error =
    | AlreadyExists | UnknownRole | FailsVerification | NotJson
    | NotADirectory | NotFound | CopyChangedBytes | SameFileTwice
    | NotAFreeze

  datatype Result<T> = Ok(value: T) | Raised(error: Error)

  /** An entry carries its bundle's name and the digest of the manifest that is there. */
  predicate Describes(tools: Tools, f: Files, s: Selection, entry: Entry) {
    entry.bundle == Name(s.path) && FileHas(tools, f, Join(s.path, "manifest.json"), entry.manifestDigest)
  }

  function EntryOf(tools: Tools, f: Files, s: Selection): (r: Result<Entry>)
    ensures r.Ok? ==> Describes(tools, f, s, r.value)
  {
    var manifest, raw := Join(s.path, "manifest.json"), Join(s.path, "raw/results.json");
    if s.role !in ROLES then Raised(UnknownRole)
    else if BundleProblems(tools, f, s.path, None) != [] then Raised(FailsVerification)
    else if raw in f && tools.experiment(f[raw]).None? then Raised(NotJson)
    else
      Ok(Entry(Name(s.path), s.role, s.note, if raw in f then tools.experiment(f[raw]).value else None,
               tools.manifest(f[manifest]).value, tools.hash(f[manifest])))
  }

  predicate AllDescribed(tools: Tools, f: Files, selections: seq<Selection>, entries: seq<Entry>) {
    |entries| == |selections| && forall i :: 0 <= i < |selections| ==> Describes(tools, f, selections[i], entries[i])
  }

  lemma {:induction false} OneMoreDescribed(tools: Tools, f: Files, selections: seq<Selection>, s: Selection,
                                            entries: seq<Entry>, entry: Entry)
    requires AllDescribed(tools, f, selections, entries) && Describes(tools, f, s, entry)
    ensures AllDescribed(tools, f, selections + [s], entries + [entry])
  {
  }

  function Entries(tools: Tools, f: Files, selections: seq<Selection>): (r: Result<seq<Entry>>)
    ensures r.Ok? ==> AllDescribed(tools, f, selections, r.value)
  {
    if selections == [] then Ok([])
    else
      var front, last := selections[..|selections| - 1], selections[|selections| - 1];
      match Entries(tools, f, front)
      case Raised(e) => Raised(e)
      case Ok(entries) =>
        match EntryOf(tools, f, last)
        case Raised(e) => Raised(e)
        case Ok(entry) =>
          assert selections == front + [last];
          OneMoreDescribed(tools, f, front, last, entries, entry);
          Ok(entries + [entry])
  }

  function BundleDir(dir: string, name: string): string {
    Join(Join(dir, "bundles"), name)
  }

  /** The files after the copy, and what was raised, if anything. */
  function CopyBundle(tools: Tools, f: Files, staging: string, source: string, digest: Digest): (Files, Option<Error>) {
    var dst := BundleDir(staging, Name(source));
    if !IsDirectory(f, source) then (f, Some(NotFound))
    else if Exists(f, dst) then (f, Some(AlreadyExists))
    else
      var g := CopyTree(f, source, dst);
      (g, if BundleProblems(tools, g, dst, Some(digest)) != [] then Some(CopyChangedBytes) else None)
  }

  function CopyBundles(tools: Tools, f: Files, staging: string, selections: seq<Selection>,
                       entries: seq<Entry>): (Files, Option<Error>)
    requires |selections| == |entries|
  {
    if selections == [] then (f, None)
    else
      var n := |selections| - 1;
      var (g, e) := CopyBundles(tools, f, staging, selections[..n], entries[..n]);
      if e.Some? then (g, e) else CopyBundle(tools, g, staging, selections[n].path, entries[n].manifestDigest)
  }

  function SupportingName(path: string): string {
    Join("supporting", Name(path))
  }

  function CopySupporting(tools: Tools, f: Files, staging: string, items: seq<Item>): (Files, Result<seq<Supporting>>) {
    if items == [] then (f, Ok([]))
    else
      var n := |items| - 1;
      var (g, r) := CopySupporting(tools, f, staging, items[..n]);
      if r.Raised? then (g, r)
      else
        var (h, e, s) := CopyItem(tools, g, staging, items[n]);
        (h, if e.Some? then Raised(e.value) else Ok(r.value + [s]))
  }

  function CopyItem(tools: Tools, f: Files, staging: string, item: Item): (Files, Option<Error>, Supporting) {
    var file := SupportingName(item.path);
    var target := Join(staging, file);
    if item.path !in f then (f, Some(NotFound), Supporting(file, item.note, ""))
    else if item.path == target then (f, Some(SameFileTwice), Supporting(file, item.note, ""))
    else (f[target := f[item.path]], None, Supporting(file, item.note, tools.hash(f[item.path])))
  }

  datatype Request = Request(selections: seq<Selection>, out: string, id: string, commit: string, now: string,
                             supporting: seq<Item>)

  function Staging(out: string): string {
    out + ".staging"
  }

  function Build(tools: Tools, f: Files, q: Request): (Files, Result<Record>) {
    if Exists(f, q.out) then (f, Raised(AlreadyExists))
    else
      match Entries(tools, f, q.selections)
      case Raised(e) => (f, Raised(e))
      case Ok(entries) =>
        if Staging(q.out) in f then (f, Raised(NotADirectory))
        else Assemble(tools, RemoveTree(f, Staging(q.out)), q, entries)
  }

  function Assemble(tools: Tools, f: Files, q: Request, entries: seq<Entry>): (Files, Result<Record>)
    requires |entries| == |q.selections|
  {
    var (g, e) := CopyBundles(tools, f, Staging(q.out), q.selections, entries);
    if e.Some? then (g, Raised(e.value))
    else
      var (h, supporting) := CopySupporting(tools, g, Staging(q.out), q.supporting);
      if supporting.Raised? then (h, Raised(supporting.error))
      else
        var record := Record(SCHEMA, q.id, q.now, q.commit, entries, supporting.value);
        (Publish(tools, h, q.out, record), Ok(record))
  }

  /** Writing freeze.json and moving the staging directory into place. */
  function Publish(tools: Tools, f: Files, out: string, record: Record): Files {
    Rename(f[Join(Staging(out), "freeze.json") := tools.render(record)], Staging(out), out)
  }

  // ---- Verifying a freeze ----

  datatype Report = Report(id: string, intact: bool, checked: nat, problems: map<string, seq<Problem>>)

  type Results = map<string, seq<Problem>>

  function BundleResults(tools: Tools, f: Files, dir: string, bundles: seq<Entry>): Results {
    if bundles == [] then map[]
    else
      var last := bundles[|bundles| - 1];
      BundleResults(tools, f, dir, bundles[..|bundles| - 1])
      [last.bundle := BundleProblems(tools, f, BundleDir(dir, last.bundle), Some(last.manifestDigest))]
  }

  function SupportingResult(tools: Tools, f: Files, dir: string, s: Supporting): seq<Problem> {
    if FileHas(tools, f, Join(dir, s.file), s.digest) then [] else [SupportingDiffers]
  }

  function WithSupporting(tools: Tools, f: Files, dir: string, results: Results, supporting: seq<Supporting>): Results {
    if supporting == [] then results
    else
      var last := supporting[|supporting| - 1];
      var before := WithSupporting(tools, f, dir, results, supporting[..|supporting| - 1]);
      before[last.file := SupportingResult(tools, f, dir, last)]
  }

  predicate AllClear(results: Results) {
    forall k :: k in results ==> results[k] == []
  }

  function Verify(tools: Tools, f: Files, dir: string): Result<Report> {
    var path := Join(dir, "freeze.json");
    if path !in f then Raised(NotFound)
    else
      match tools.record(f[path])
      case None => Raised(NotJson)
      case Some(record) =>
        if record.schema != SCHEMA then Raised(NotAFreeze)
        else
          var results := WithSupporting(tools, f, dir, BundleResults(tools, f, dir, record.bundles), record.supporting);
          Ok(Report(record.id, AllClear(results), |results|, map k | k in results && results[k] != [] :: results[k]))
  }

  // ---- The code, as it changes the file system ----

  class FileSystem {
    var files: Files

    constructor (f: Files)
      ensures files == f
    {
      files := f;
    }

    method VerifyArtifacts(tools: Tools, dir: string, artifacts: map<string, Digest>) returns (problems: seq<Problem>)
      ensures problems == ArtifactProblems(tools, files, dir, artifacts, ArtifactNames(artifacts))
    {
      var names := ArtifactNames(artifacts);
      problems := [];
      for i := 0 to |names|
        invariant problems == ArtifactProblems(tools, files, dir, artifacts, names[..i])
      {
        assert names[..i + 1][..i] == names[..i];
        var path := Join(dir, names[i]);
        if path !in files {
          problems := problems + [ArtifactMissing(names[i])];
        } else if tools.hash(files[path]) != artifacts[names[i]] {
          problems := problems + [ArtifactDiffers(names[i])];
        }
      }
      assert names[..|names|] == names;
    }

    method VerifyBundle(tools: Tools, dir: string, expected: Option<Digest>) returns (problems: seq<Problem>)
      ensures problems == BundleProblems(tools, files, dir, expected)
    {
      var path, config := Join(dir, "manifest.json"), Join(dir, "config.json");
      if path !in files {
        return [ManifestMissing];
      }
      problems := [];
      if expected.Some? && expected.value != "" && tools.hash(files[path]) != expected.value {
        problems := [ManifestDiffers];
      }
      var manifest := tools.manifest(files[path]);
      if manifest.None? {
        return problems + [ManifestInvalid];
      }
      var artifacts := VerifyArtifacts(tools, dir, manifest.value.artifacts);
      problems := problems + artifacts;
      if config in files && Some(tools.hash(files[config])) != manifest.value.configuration {
        problems := problems + [ConfigurationDiffers];
      }
    }

    method CollectEntry(tools: Tools, s: Selection) returns (r: Result<Entry>)
      ensures r == EntryOf(tools, files, s)
    {
      if s.role !in ROLES {
        return Raised(UnknownRole);
      }
      var problems := VerifyBundle(tools, s.path, None);
      if problems != [] {
        return Raised(FailsVerification);
      }
      var raw, manifest := Join(s.path, "raw/results.json"), files[Join(s.path, "manifest.json")];
      var experiment := None;
      if raw in files {
        var read := tools.experiment(files[raw]);
        if read.None? {
          return Raised(NotJson);
        }
        experiment := read.value;
      }
      return Ok(Entry(Name(s.path), s.role, s.note, experiment, tools.manifest(manifest).value, tools.hash(manifest)));
    }

    method CollectEntries(tools: Tools, selections: seq<Selection>) returns (r: Result<seq<Entry>>)
      ensures r == Entries(tools, files, selections)
    {
      var entries := [];
      for i := 0 to |selections|
        invariant Entries(tools, files, selections[..i]) == Ok(entries)
      {
        var entry := CollectEntry(tools, selections[i]);
        assert selections[..i + 1][..i] == selections[..i];
        if entry.Raised? {
          EntriesRaise(tools, files, selections, i + 1);
          return Raised(entry.error);
        }
        entries := entries + [entry.value];
      }
      assert selections[..|selections|] == selections;
      return Ok(entries);
    }

    method CopyOneBundle(tools: Tools, staging: string, source: string, digest: Digest) returns (e: Option<Error>)
      modifies this
      ensures (files, e) == CopyBundle(tools, old(files), staging, source, digest)
    {
      var dst := BundleDir(staging, Name(source));
      if !IsDirectory(files, source) {
        return Some(NotFound);
      }
      if Exists(files, dst) {
        return Some(AlreadyExists);
      }
      files := CopyTree(files, source, dst);
      var problems := VerifyBundle(tools, dst, Some(digest));
      if problems != [] {
        return Some(CopyChangedBytes);
      }
      return None;
    }

    method CopyAllBundles(tools: Tools, staging: string, selections: seq<Selection>, entries: seq<Entry>)
      returns (e: Option<Error>)
      requires |selections| == |entries|
      modifies this
      ensures (files, e) == CopyBundles(tools, old(files), staging, selections, entries)
    {
      for i := 0 to |selections|
        invariant CopyBundles(tools, old(files), staging, selections[..i], entries[..i]) == (files, None)
      {
        assert selections[..i + 1][..i] == selections[..i] && entries[..i + 1][..i] == entries[..i];
        e := CopyOneBundle(tools, staging, selections[i].path, entries[i].manifestDigest);
        if e.Some? {
          CopyRaises(tools, old(files), staging, selections, entries, i + 1);
          return;
        }
      }
      assert selections[..|selections|] == selections && entries[..|selections|] == entries;
      return None;
    }

    method CopyAllSupporting(tools: Tools, staging: string, items: seq<Item>) returns (r: Result<seq<Supporting>>)
      modifies this
      ensures (files, r) == CopySupporting(tools, old(files), staging, items)
    {
      var supporting := [];
      for i := 0 to |items|
        invariant CopySupporting(tools, old(files), staging, items[..i]) == (files, Ok(supporting))
      {
        assert items[..i + 1][..i] == items[..i];
        var e, s := CopyOneItem(tools, staging, items[i]);
        if e.Some? {
          SupportingRaises(tools, old(files), staging, items, i + 1);
          return Raised(e.value);
        }
        supporting := supporting + [s];
      }
      assert items[..|items|] == items;
      return Ok(supporting);
    }

    method CopyOneItem(tools: Tools, staging: string, item: Item) returns (e: Option<Error>, s: Supporting)
      modifies this
      ensures (files, e, s) == CopyItem(tools, old(files), staging, item)
    {
      var file := SupportingName(item.path);
      var target := Join(staging, file);
      s := Supporting(file, item.note, "");
      if item.path !in files {
        return Some(NotFound), s;
      }
      if item.path == target {
        return Some(SameFileTwice), s;
      }
      files := files[target := files[item.path]];
      return None, Supporting(file, item.note, tools.hash(files[target]));
    }

    method BuildFreeze(tools: Tools, q: Request) returns (r: Result<Record>)
      modifies this
      ensures (files, r) == Build(tools, old(files), q)
    {
      if Exists(files, q.out) {
        return Raised(AlreadyExists);
      }
      var entries := CollectEntries(tools, q.selections);
      if entries.Raised? {
        return Raised(entries.error);
      }
      var staging := Staging(q.out);
      if staging in files {
        return Raised(NotADirectory);
      }
      files := RemoveTree(files, staging);
      r := AssembleFreeze(tools, q, entries.value);
    }

    method AssembleFreeze(tools: Tools, q: Request, entries: seq<Entry>) returns (r: Result<Record>)
      requires |entries| == |q.selections|
      modifies this
      ensures (files, r) == Assemble(tools, old(files), q, entries)
    {
      var staging := Staging(q.out);
      var e := CopyAllBundles(tools, staging, q.selections, entries);
      if e.Some? {
        return Raised(e.value);
      }
      var supporting := CopyAllSupporting(tools, staging, q.supporting);
      if supporting.Raised? {
        return Raised(supporting.error);
      }
      var record := Record(SCHEMA, q.id, q.now, q.commit, entries, supporting.value);
      files := files[Join(staging, "freeze.json") := tools.render(record)];
      files := Rename(files, staging, q.out);
      return Ok(record);
    }

    method VerifyBundles(tools: Tools, dir: string, bundles: seq<Entry>) returns (results: Results)
      ensures results == BundleResults(tools, files, dir, bundles)
    {
      results := map[];
      for i := 0 to |bundles|
        invariant results == BundleResults(tools, files, dir, bundles[..i])
      {
        assert bundles[..i + 1][..i] == bundles[..i];
        var problems := VerifyBundle(tools, BundleDir(dir, bundles[i].bundle), Some(bundles[i].manifestDigest));
        results := results[bundles[i].bundle := problems];
      }
      assert bundles[..|bundles|] == bundles;
    }

    method VerifyFreeze(tools: Tools, dir: string) returns (r: Result<Report>)
      ensures r == Verify(tools, files, dir)
    {
      var path := Join(dir, "freeze.json");
      if path !in files {
        return Raised(NotFound);
      }
      var read := tools.record(files[path]);
      if read.None? {
        return Raised(NotJson);
      }
      var record := read.value;
      if record.schema != SCHEMA {
        return Raised(NotAFreeze);
      }
      var results := VerifyBundles(tools, dir, record.bundles);
      results := VerifySupporting(tools, dir, results, record.supporting);
      return Ok(Report(record.id, AllClear(results), |results|,
                       map k | k in results && results[k] != [] :: results[k]));
    }

    method VerifySupporting(tools: Tools, dir: string, before: Results, supporting: seq<Supporting>)
      returns (results: Results)
      ensures results == WithSupporting(tools, files, dir, before, supporting)
    {
      results := before;
      for i := 0 to |supporting|
        invariant results == WithSupporting(tools, files, dir, before, supporting[..i])
      {
        assert supporting[..i + 1][..i] == supporting[..i];
        var path := Join(dir, supporting[i].file);
        var ok := path in files && tools.hash(files[path]) == supporting[i].digest;
        results := results[supporting[i].file := if ok then [] else [SupportingDiffers]];
      }
      assert supporting[..|supporting|] == supporting;
    }
  }

  // ---- An error ends a loop ----

  lemma {:induction false} EntriesRaise(tools: Tools, f: Files, selections: seq<Selection>, i: nat)
    requires i <= |selections| && Entries(tools, f, selections[..i]).Raised?
    ensures Entries(tools, f, selections) == Entries(tools, f, selections[..i])
    decreases |selections| - i
  {
    if i < |selections| {
      assert selections[..i + 1][..i] == selections[..i];
      EntriesRaise(tools, f, selections, i + 1);
    } else {
      assert selections[..i] == selections;
    }
  }

  lemma {:induction false} CopyRaises(tools: Tools, f: Files, staging: string, selections: seq<Selection>,
                                      entries: seq<Entry>, i: nat)
    requires |selections| == |entries| && i <= |selections|
    requires CopyBundles(tools, f, staging, selections[..i], entries[..i]).1.Some?
    ensures CopyBundles(tools, f, staging, selections, entries)
            == CopyBundles(tools, f, staging, selections[..i], entries[..i])
    decreases |selections| - i
  {
    if i < |selections| {
      assert selections[..i + 1][..i] == selections[..i] && entries[..i + 1][..i] == entries[..i];
      CopyRaises(tools, f, staging, selections, entries, i + 1);
    } else {
      assert selections[..i] == selections && entries[..i] == entries;
    }
  }

  lemma {:induction false} SupportingRaises(tools: Tools, f: Files, staging: string, items: seq<Item>, i: nat)
    requires i <= |items| && CopySupporting(tools, f, staging, items[..i]).1.Raised?
    ensures CopySupporting(tools, f, staging, items) == CopySupporting(tools, f, staging, items[..i])
    decreases |items| - i
  {
    if i < |items| {
      assert items[..i + 1][..i] == items[..i];
      SupportingRaises(tools, f, staging, items, i + 1);
    } else {
      assert items[..i] == items;
    }
  }
}
