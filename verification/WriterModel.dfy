/** What an apply leaves on disk, as functions of the tree, and the bookkeeping its rollback relies on. */
module WriterModel {
  import opened Wrappers
  import opened Ordering
  import opened Trees
  import opened ChangeSets

  function Mutable(ops: seq<ChangeOperation>): seq<ChangeOperation> {
    if ops == [] then []
    else if ops[0].kind.Unchanged? then Mutable(ops[1..])
    else [ops[0]] + Mutable(ops[1..])
  }

  // One operation: whatever is at the path goes, and the new file takes its place.
  function PutOperation(t: Tree, op: ChangeOperation): Tree {
    if op.path == [] then t
    else match op.after
      case None => Without(t, op.path)
      case Some(text) => WithDirs(Without(t, op.path), Parent(op.path))[op.path := File(Text(text))]
  }

  /** The tree after the operations, one after the other. */
  function Installed(t: Tree, ops: seq<ChangeOperation>): Tree {
    if ops == [] then t else PutOperation(Installed(t, ops[..|ops| - 1]), ops[|ops| - 1])
  }

  /** No operation path is an ancestor of another (or the same). */
  ghost predicate Separate(ops: seq<ChangeOperation>) {
    forall i, j :: 0 <= i < j < |ops| ==> !Comparable(ops[i].path, ops[j].path)
  }

  // --- A tree in the middle of an apply, or of its rollback ---

  /** pre without the paths `lost`, with the directories `dirs` and the files `put` added. */
  ghost function Mix(pre: Tree, lost: set<Path>, dirs: set<Path>, put: map<Path, Node>): Tree {
    (pre - lost) + (map d <- dirs :: Dir) + put
  }

  ghost predicate Covered(gone: set<Path>, q: Path) {
    exists g <- gone :: g <= q
  }

  // Everything at or below the paths that were moved away.
  ghost function Lost(pre: Tree, gone: set<Path>): set<Path> {
    set q <- pre.Keys | Covered(gone, q)
  }

  ghost function Midway(pre: Tree, gone: set<Path>, dirs: set<Path>, put: map<Path, Node>): Tree {
    Mix(pre, Lost(pre, gone), dirs, put)
  }

  /** done: the paths dealt with so far. gone: those moved to the backup. put: those that got a new file. */
  ghost predicate Apart(pre: Tree, done: set<Path>, gone: set<Path>, dirs: set<Path>, put: map<Path, Node>) {
    && Closed(pre)
    && gone <= done && put.Keys <= done && gone <= pre.Keys && [] !in done
    && (forall p <- done, q <- done :: p != q ==> !Comparable(p, q))
    && (forall p <- put.Keys :: p in gone || p !in pre)
    && (forall p <- put.Keys :: put[p].File?)
    && (forall d <- dirs :: d !in pre && d != [] && exists q <- done :: d < q)
  }

  // Two prefixes of one path are comparable.
  lemma PrefixesCompare(p: Path, q: Path, r: Path)
    requires p <= r && q <= r
    ensures Comparable(p, q)
  {
  }

  // Below a path apart from everything done so far, nothing has changed.
  lemma UntouchedBelow(pre: Tree, done: set<Path>, gone: set<Path>, dirs: set<Path>, put: map<Path, Node>, p: Path)
    requires Apart(pre, done, gone, dirs, put)
    requires forall r <- done :: !Comparable(p, r)
    ensures Below(pre, p) !! dirs && Below(pre, p) !! put.Keys && Below(pre, p) !! Lost(pre, gone)
    ensures Below(Midway(pre, gone, dirs, put), p) == Below(pre, p)
  {
    forall q | p <= q ensures q !in dirs && q !in put && !Covered(gone, q) {
      if Covered(gone, q) {
        var g :| g in gone && g <= q;
        PrefixesCompare(p, g, q);
        assert false;
      }
      if q in dirs { assert false; }
    }
  }

  lemma UntouchedContents(pre: Tree, lost: set<Path>, dirs: set<Path>, put: map<Path, Node>, b: set<Path>)
    requires b <= pre.Keys && b !! dirs && b !! put.Keys && b !! lost
    ensures forall q <- b :: q in Mix(pre, lost, dirs, put) && Mix(pre, lost, dirs, put)[q] == pre[q]
  {
  }

  lemma BackupApart(pre: Tree, done: set<Path>, gone: set<Path>, dirs: set<Path>, put: map<Path, Node>, p: Path)
    requires Apart(pre, done, gone, dirs, put)
    requires p in pre && p != [] && forall r <- done :: !Comparable(p, r)
    ensures Apart(pre, done + {p}, gone + {p}, dirs, put)
  {
    forall d <- dirs ensures exists q <- done + {p} :: d < q {
      var q :| q in done && d < q;
      assert q in done + {p};
    }
  }

  lemma MixDrops(pre: Tree, lost: set<Path>, dirs: set<Path>, put: map<Path, Node>, b: set<Path>)
    requires b !! dirs && b !! put.Keys
    ensures Mix(pre, lost, dirs, put) - b == Mix(pre, lost + b, dirs, put)
  {
    assert (Mix(pre, lost, dirs, put) - b).Keys == Mix(pre, lost + b, dirs, put).Keys;
  }

  lemma MixRegains(pre: Tree, lost: set<Path>, dirs: set<Path>, b: set<Path>)
    requires b <= pre.Keys && b !! dirs && b <= lost
    ensures Mix(pre, lost, dirs, map[]) + (map q <- b :: pre[q]) == Mix(pre, lost - b, dirs, map[])
  {
    var t, t' := Mix(pre, lost, dirs, map[]) + (map q <- b :: pre[q]), Mix(pre, lost - b, dirs, map[]);
    assert t.Keys == t'.Keys;
  }

  lemma LostAdds(pre: Tree, gone: set<Path>, p: Path)
    ensures Lost(pre, gone + {p}) == Lost(pre, gone) + Below(pre, p)
  {
    forall q ensures Covered(gone + {p}, q) <==> Covered(gone, q) || p <= q { CoveredAdds(gone, p, q); }
  }

  lemma BackupStep(pre: Tree, done: set<Path>, gone: set<Path>, dirs: set<Path>, put: map<Path, Node>, p: Path)
    requires Apart(pre, done, gone, dirs, put)
    requires p != [] && forall r <- done :: !Comparable(p, r)
    requires p in Midway(pre, gone, dirs, put)
    ensures var t := Midway(pre, gone, dirs, put);
      && p in pre
      && Under(t, p) == Under(pre, p)
      && Without(t, p) == Midway(pre, gone + {p}, dirs, put)
  {
    hide Apart, Covered, Lost;
    UntouchedBelow(pre, done, gone, dirs, put, p);
    UntouchedContents(pre, Lost(pre, gone), dirs, put, Below(pre, p));
    MixDrops(pre, Lost(pre, gone), dirs, put, Below(pre, p));
    LostAdds(pre, gone, p);
  }

  lemma CoveredAdds(gone: set<Path>, p: Path, q: Path)
    ensures Covered(gone + {p}, q) <==> Covered(gone, q) || p <= q
  {
    if Covered(gone, q) {
      var g :| g in gone && g <= q;
      assert g in gone + {p};
    }
    if p <= q { assert p in gone + {p}; }
  }

  // A directory that is missing on the way to p was missing before, too.
  lemma MissingWasMissing(pre: Tree, done: set<Path>, gone: set<Path>, dirs: set<Path>, put: map<Path, Node>, p: Path,
                          d: Path)
    requires Apart(pre, done, gone, dirs, put) && p in done
    requires d < p && d !in Midway(pre, gone, dirs, put)
    ensures d !in pre
  {
    if d in pre {
      var g :| g in gone && g <= d;
      assert Comparable(g, p) && |g| < |p|;
      assert false;
    }
  }

  lemma MixAdds(pre: Tree, lost: set<Path>, dirs: set<Path>, put: map<Path, Node>, made: set<Path>)
    requires made !! put.Keys
    ensures Mix(pre, lost, dirs + made, put) == Mix(pre, lost, dirs, put) + (map d <- made :: Dir)
  {
  }

  // Directories made on the way to p.
  lemma DirsStep(pre: Tree, done: set<Path>, gone: set<Path>, dirs: set<Path>, put: map<Path, Node>, p: Path,
                 made: set<Path>)
    requires Apart(pre, done, gone, dirs, put) && p in done
    requires forall d <- made :: d < p && d != [] && d !in Midway(pre, gone, dirs, put)
    ensures Apart(pre, done, gone, dirs + made, put)
    ensures Midway(pre, gone, dirs + made, put) == Midway(pre, gone, dirs, put) + (map d <- made :: Dir)
  {
    forall d <- made ensures d !in pre && exists q <- done :: d < q {
      MissingWasMissing(pre, done, gone, dirs, put, p, d);
    }
    assert made !! put.Keys;
    MixAdds(pre, Lost(pre, gone), dirs, put, made);
  }

  lemma PutStep(pre: Tree, done: set<Path>, gone: set<Path>, dirs: set<Path>, put: map<Path, Node>, p: Path, node: Node)
    requires Apart(pre, done, gone, dirs, put) && p in done && node.File?
    requires p in gone || p !in pre
    ensures Apart(pre, done, gone, dirs, put[p := node])
    ensures Midway(pre, gone, dirs, put[p := node]) == Midway(pre, gone, dirs, put)[p := node]
  {
  }

  lemma DoneStep(pre: Tree, done: set<Path>, gone: set<Path>, dirs: set<Path>, put: map<Path, Node>, p: Path)
    requires Apart(pre, done, gone, dirs, put)
    requires p != [] && forall r <- done :: !Comparable(p, r)
    ensures Apart(pre, done + {p}, gone, dirs, put)
  {
  }

  // --- Undoing ---

  lemma MixUnlinks(pre: Tree, lost: set<Path>, dirs: set<Path>, put: map<Path, Node>, p: Path)
    requires p !in dirs && (p in lost || p !in pre)
    ensures Mix(pre, lost, dirs, put) - {p} == Mix(pre, lost, dirs, put - {p})
  {
    assert (Mix(pre, lost, dirs, put) - {p}).Keys == Mix(pre, lost, dirs, put - {p}).Keys;
  }

  // A path dealt with is no created directory, and nothing of the old tree is left there.
  lemma DonePlace(pre: Tree, done: set<Path>, gone: set<Path>, dirs: set<Path>, put: map<Path, Node>, p: Path)
    requires Apart(pre, done, gone, dirs, put)
    requires p in done && (p in gone || p !in pre)
    ensures p !in dirs && (p in Lost(pre, gone) || p !in pre)
  {
    if p in dirs { var q :| q in done && p < q; assert Comparable(p, q); assert false; }
    assert p in gone ==> Covered(gone, p);
  }

  lemma UnlinkApart(pre: Tree, done: set<Path>, gone: set<Path>, dirs: set<Path>, put: map<Path, Node>, p: Path)
    requires Apart(pre, done, gone, dirs, put)
    ensures Apart(pre, done, gone, dirs, put - {p})
  {
  }

  lemma UnlinkStep(pre: Tree, done: set<Path>, gone: set<Path>, dirs: set<Path>, put: map<Path, Node>, p: Path)
    requires Apart(pre, done, gone, dirs, put)
    requires p in done && (p in gone || p !in pre)
    ensures var t := Midway(pre, gone, dirs, put);
      && (p !in t || t[p].File?)
      && t - {p} == Midway(pre, gone, dirs, put - {p})
  {
    DonePlace(pre, done, gone, dirs, put, p);
    MixUnlinks(pre, Lost(pre, gone), dirs, put, p);
  }

  // Nothing of what stood at a path that was moved away is left, and its parent still stands.
  lemma RestorePlace(pre: Tree, done: set<Path>, gone: set<Path>, dirs: set<Path>, g: Path)
    requires Apart(pre, done, gone, dirs, map[]) && g in gone
    ensures var t := Midway(pre, gone, dirs, map[]);
      Below(t, g) == {} && Parent(g) in t && t[Parent(g)].Dir?
    ensures Below(pre, g) !! dirs && Below(pre, g) <= Lost(pre, gone) && Below(pre, g) !! Lost(pre, gone - {g})
  {
    forall q | g <= q ensures q !in dirs && Covered(gone, q) && !Covered(gone - {g}, q) {
      if q in dirs { var r :| r in done && q < r; assert Comparable(g, r); assert false; }
      if Covered(gone - {g}, q) {
        var h :| h in gone - {g} && h <= q;
        PrefixesCompare(h, g, q);
        assert false;
      }
    }
    assert Parent(g) in pre;
    if Covered(gone, Parent(g)) {
      var h :| h in gone && h <= Parent(g);
      assert Comparable(h, g) && |h| < |g|;
      assert false;
    }
  }

  lemma LostDrops(pre: Tree, gone: set<Path>, g: Path)
    requires g in gone && Below(pre, g) !! Lost(pre, gone - {g})
    ensures Lost(pre, gone) - Below(pre, g) == Lost(pre, gone - {g})
  {
    LostAdds(pre, gone - {g}, g);
    assert gone - {g} + {g} == gone;
  }

  lemma RestoreApart(pre: Tree, done: set<Path>, gone: set<Path>, dirs: set<Path>, g: Path)
    requires Apart(pre, done, gone, dirs, map[])
    ensures Apart(pre, done, gone - {g}, dirs, map[])
  {
  }

  lemma RestoreStep(pre: Tree, done: set<Path>, gone: set<Path>, dirs: set<Path>, g: Path)
    requires Apart(pre, done, gone, dirs, map[]) && g in gone
    ensures Without(Midway(pre, gone, dirs, map[]), g) + Under(pre, g) == Midway(pre, gone - {g}, dirs, map[])
  {
    hide Apart, Covered, Lost;
    RestorePlace(pre, done, gone, dirs, g);
    MixRegains(pre, Lost(pre, gone), dirs, Below(pre, g));
    LostDrops(pre, gone, g);
  }

  lemma RmdirApart(pre: Tree, done: set<Path>, gone: set<Path>, dirs: set<Path>, d: Path)
    requires Apart(pre, done, gone, dirs, map[])
    ensures Apart(pre, done, gone, dirs - {d}, map[])
  {
  }

  lemma MixRmdirs(pre: Tree, lost: set<Path>, dirs: set<Path>, d: Path)
    requires d !in pre
    ensures Mix(pre, lost, dirs, map[]) - {d} == Mix(pre, lost, dirs - {d}, map[])
  {
    assert (Mix(pre, lost, dirs, map[]) - {d}).Keys == Mix(pre, lost, dirs - {d}, map[]).Keys;
  }

  lemma RmdirStep(pre: Tree, done: set<Path>, gone: set<Path>, dirs: set<Path>, d: Path)
    requires Apart(pre, done, gone, dirs, map[]) && d in dirs
    ensures Midway(pre, gone, dirs, map[]) - {d} == Midway(pre, gone, dirs - {d}, map[])
  {
    MixRmdirs(pre, Lost(pre, gone), dirs, d);
  }

  /** The deepest of the created directories is empty: what it held is gone before it is removed. */
  lemma DeepestIsEmpty(pre: Tree, done: set<Path>, gone: set<Path>, dirs: set<Path>, d: Path)
    requires Apart(pre, done, gone, dirs, map[]) && d in dirs
    requires forall e <- dirs :: |e| <= |d|
    ensures var t := Midway(pre, gone, dirs, map[]);
      d in t && t[d].Dir? && forall q <- t.Keys :: q == [] || Parent(q) != d
  {
    var t := Midway(pre, gone, dirs, map[]);
    forall q <- t.Keys | q != [] && Parent(q) == d ensures false {
      assert false;
    }
  }

  lemma MixOfDirs(pre: Tree, dirs: set<Path>)
    ensures Mix(pre, {}, dirs, map[]) == pre + (map d <- dirs :: Dir)
  {
    assert pre - {} == pre;
  }

  lemma DirsTell(pre: Tree, dirs: set<Path>)
    requires dirs !! pre.Keys
    ensures pre + (map d <- dirs :: Dir) == pre <==> dirs == {}
  {
    if dirs != {} {
      var d :| d in dirs;
      assert d in pre + (map d <- dirs :: Dir);
    }
  }

  lemma NothingIsLost(pre: Tree)
    ensures Lost(pre, {}) == {}
  {
  }

  lemma CreatedAreNew(pre: Tree, done: set<Path>, gone: set<Path>, dirs: set<Path>, put: map<Path, Node>)
    requires Apart(pre, done, gone, dirs, put)
    ensures dirs !! pre.Keys
  {
  }

  /** Once everything moved away is back, only created directories can tell the tree from the old one. */
  lemma NothingLeft(pre: Tree, done: set<Path>, dirs: set<Path>)
    requires Apart(pre, done, {}, dirs, map[])
    ensures Midway(pre, {}, dirs, map[]) == pre + (map d <- dirs :: Dir) && dirs !! pre.Keys
    ensures Midway(pre, {}, dirs, map[]) == pre <==> dirs == {}
  {
    hide Apart, Lost, Mix;
    CreatedAreNew(pre, done, {}, dirs, map[]);
    NothingIsLost(pre);
    MixOfDirs(pre, dirs);
    DirsTell(pre, dirs);
  }
}
