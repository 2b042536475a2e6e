/** A directory tree as a value: every path that exists, mapped to a file or a directory. */
module Trees {

  /** A path relative to the project root, one element per component; [] is the root itself. */
  type Path = seq<string>

  /** What a file holds: text that decodes as UTF-8, or bytes that do not. */
  datatype Content = Text(text: string) | Undecodable(bytes: seq<nat>)

  datatype Node = File(content: Content) | Dir

  type Tree = map<Path, Node>

  // The components of a posix path.
  function Split(posix: string): (parts: Path)
    ensures parts != []
  {
    if posix == "" then [""]
    else
      var rest := Split(posix[1..]);
      if posix[0] == '/' then [""] + rest else [[posix[0]] + rest[0]] + rest[1..]
  }

  lemma {:induction false} NoSlash(posix: string)
    requires '/' !in posix
    ensures Split(posix) == [posix]
  {
    if posix != "" {
      NoSlash(posix[1..]);
      assert [posix[0]] + posix[1..] == posix;
    }
  }

  function Parent(p: Path): Path
    requires p != []
  {
    p[..|p| - 1]
  }

  // Everything but the root sits in a directory.
  predicate Closed(t: Tree) {
    forall q <- t.Keys :: q != [] ==> Parent(q) in t && t[Parent(q)].Dir?
  }

  /** A tree that can be on disk. */
  type ClosedTree = t: Tree | Closed(t) witness map[]

  /** p and everything below it. */
  function Below(t: Tree, p: Path): set<Path> {
    set q <- t.Keys | p <= q
  }

  function Under(t: Tree, p: Path): Tree {
    map q <- Below(t, p) :: t[q]
  }

  function Without(t: Tree, p: Path): Tree {
    t - Below(t, p)
  }

  function Prefixes(p: Path): set<Path> {
    set i | 0 <= i <= |p| :: p[..i]
  }

  /** t with p and every directory above it in place: what mkdir(parents=True) aims for. */
  function WithDirs(t: Tree, p: Path): Tree {
    map q <- t.Keys + Prefixes(p) :: if q in t then t[q] else Dir
  }

  // Nothing but directories on the way to d.
  predicate Clear(t: Tree, d: Path) {
    && [] in t
    && forall q <- t.Keys :: q <= d ==> t[q].Dir?
  }

  predicate Comparable(p: Path, q: Path) {
    p <= q || q <= p
  }

  lemma PrefixesAre(p: Path)
    ensures forall q :: q in Prefixes(p) <==> q <= p
  {
    forall q | q <= p ensures q in Prefixes(p) {
      assert q == p[..|q|];
    }
  }

  lemma {:induction false} AncestorIsDir(t: Tree, p: Path, q: Path)
    requires Closed(t) && q in t && p < q
    ensures p in t && t[p].Dir?
    decreases |q|
  {
    var up := Parent(q);
    assert p <= up;
    if p != up { AncestorIsDir(t, p, up); }
  }

  lemma WithoutIsClosed(t: Tree, p: Path)
    requires Closed(t)
    ensures Closed(Without(t, p))
  {
    forall q <- Without(t, p).Keys | q != []
      ensures Parent(q) in Without(t, p) && Without(t, p)[Parent(q)].Dir?
    {
      assert Parent(q) in t;
    }
  }

  lemma RestoreIsClosed(t: Tree, from: Tree, p: Path)
    requires Closed(t) && Closed(from) && p != [] && Parent(p) in t && t[Parent(p)].Dir?
    ensures Closed(Without(t, p) + Under(from, p))
  {
    var r := Without(t, p) + Under(from, p);
    WithoutIsClosed(t, p);
    forall q <- r.Keys | q != [] ensures Parent(q) in r && r[Parent(q)].Dir? {
      if p <= q && q != p { assert p <= Parent(q); }
      assert !(p <= Parent(p));
    }
  }

  lemma PutIsClosed(t: Tree, p: Path, content: Content)
    requires Closed(t) && p != [] && Parent(p) in t && t[Parent(p)].Dir?
    requires p !in t
    ensures Closed(t[p := File(content)])
  {
    assert forall q <- t.Keys :: q != [] ==> Parent(q) != p;
    assert Parent(p) != p;
  }

  lemma NothingUnderAFile(t: Tree, p: Path)
    requires Closed(t) && (p !in t || t[p].File?)
    ensures forall q :: q in t && p <= q ==> q == p
  {
    forall q | q in t && p <= q ensures q == p {
      if q != p { AncestorIsDir(t, p, q); assert false; }
    }
  }
}
