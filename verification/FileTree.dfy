/** A file system as a map from paths to contents, and the operations on whole directories. */
module FileTree {
  type Content = seq<int>
  type Files = map<string, Content>

  function Join(dir: string, rel: string): string {
    dir + "/" + rel
  }

  predicate Under(dir: string, p: string) {
    |p| > |dir| && p[..|dir|] == dir && p[|dir|] == '/'
  }

  function Rest(dir: string, p: string): (rel: string)
    requires Under(dir, p)
    ensures p == Join(dir, rel)
  {
    p[|dir| + 1..]
  }

  /** The last component of a path. */
  function Name(p: string): (r: string)
    ensures '/' !in r
  {
    if p == "" || p[|p| - 1] == '/' then "" else Name(p[..|p| - 1]) + [p[|p| - 1]]
  }

  predicate IsDirectory(f: Files, dir: string) {
    exists p :: p in f && Under(dir, p)
  }

  predicate Exists(f: Files, p: string) {
    p in f || IsDirectory(f, p)
  }

  /** shutil.copytree: every file under src gains a copy under dst. */
  function CopyTree(f: Files, src: string, dst: string): Files {
    map q | q in f.Keys + (set p | p in f && Under(src, p) :: Join(dst, Rest(src, p))) ::
      if Under(dst, q) && Join(src, Rest(dst, q)) in f then f[Join(src, Rest(dst, q))] else f[q]
  }

  /** shutil.rmtree */
  function RemoveTree(f: Files, dir: string): Files {
    map p | p in f && !Under(dir, p) :: f[p]
  }

  /** Path.rename of a directory. */
  function Rename(f: Files, src: string, dst: string): Files {
    RemoveTree(CopyTree(f, src, dst), src)
  }

  /** The directory a of f holds what the directory b of g holds. */
  ghost predicate SameTree(f: Files, a: string, g: Files, b: string) {
    forall rel :: SameFile(f, Join(a, rel), g, Join(b, rel))
  }

  predicate SameFile(f: Files, p: string, g: Files, q: string) {
    (p in f <==> q in g) && (p in f ==> f[p] == g[q])
  }

  lemma {:induction false} JoinUnder(dir: string, rel: string)
    ensures Under(dir, Join(dir, rel)) && Rest(dir, Join(dir, rel)) == rel
  {
    var p := Join(dir, rel);
    assert p[..|dir|] == dir && p[|dir| + 1..] == rel;
  }

  lemma {:induction false} NotUnder(dir: string, p: string, k: nat)
    requires k < |dir| && k < |p| && p[k] != dir[k]
    ensures !Under(dir, p)
  {
    assert k < |p| && |dir| <= |p| ==> p[..|dir|][k] == p[k];
  }

  lemma {:induction false} JoinAssociates(a: string, b: string, c: string)
    ensures Join(Join(a, b), c) == Join(a, Join(b, c))
  {
    assert Join(Join(a, b), c) == a + "/" + b + "/" + c == Join(a, Join(b, c));
  }

  /** A path under a directory of a directory is under the outer one. */
  lemma {:induction false} UnderNested(a: string, b: string, p: string)
    requires Under(Join(a, b), p)
    ensures Under(a, p)
  {
    assert p[..|a| + 1 + |b|] == a + "/" + b;
    assert p[..|a|] == p[..|a| + 1 + |b|][..|a|] == a;
    assert p[|a|] == p[..|a| + 1 + |b|][|a|];
  }

  lemma {:induction false} CopyTreeInside(f: Files, src: string, dst: string)
    requires !IsDirectory(f, dst)
    ensures SameTree(f, src, CopyTree(f, src, dst), dst)
  {
    var g := CopyTree(f, src, dst);
    forall rel ensures SameFile(f, Join(src, rel), g, Join(dst, rel)) {
      JoinUnder(src, rel);
      JoinUnder(dst, rel);
      if Join(dst, rel) in g {
        assert Join(dst, rel) !in f;
        var p :| p in f && Under(src, p) && Join(dst, rel) == Join(dst, Rest(src, p));
        JoinUnder(dst, Rest(src, p));
        assert Rest(src, p) == rel;
      }
    }
  }

  lemma {:induction false} CopyTreeOutside(f: Files, src: string, dst: string, q: string)
    requires !Under(dst, q)
    ensures SameFile(f, q, CopyTree(f, src, dst), q)
  {
    forall p | p in f && Under(src, p) ensures q != Join(dst, Rest(src, p)) {
      JoinUnder(dst, Rest(src, p));
    }
  }

  lemma {:induction false} RenameInside(f: Files, src: string, dst: string)
    requires !IsDirectory(f, dst) && forall q :: Under(dst, q) ==> !Under(src, q)
    ensures SameTree(f, src, Rename(f, src, dst), dst)
  {
    CopyTreeInside(f, src, dst);
    var g := CopyTree(f, src, dst);
    forall rel ensures SameFile(f, Join(src, rel), Rename(f, src, dst), Join(dst, rel)) {
      JoinUnder(dst, rel);
      assert SameFile(f, Join(src, rel), g, Join(dst, rel));
    }
  }

  /** A path lies under one directory only of those with the same parent. */
  lemma {:induction false} SameSibling(dir: string, a: string, b: string, p: string)
    requires '/' !in a && '/' !in b && Under(Join(dir, a), p) && Under(Join(dir, b), p)
    ensures a == b
  {
    var k := |dir| + 1;
    assert p[..k + |a|] == Join(dir, a) && p[..k + |b|] == Join(dir, b);
    assert p[k..k + |a|] == p[..k + |a|][k..] == a;
    assert p[k..k + |b|] == p[..k + |b|][k..] == b;
    assert forall i :: 0 <= i < |a| ==> a[i] == p[k + i] != '/';
    assert forall i :: 0 <= i < |b| ==> b[i] == p[k + i] != '/';
    assert p[k + |a|] == '/' && p[k + |b|] == '/';
  }
}
