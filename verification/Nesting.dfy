/** Operations whose paths lie below one another: a file makes way for a directory, and the rollback notices. */
module Nesting {
  import opened Wrappers
  import opened Ordering
  import opened Trees
  import opened ChangeSets
  import opened WriterModel
  import opened Journals

  /** No later operation is at or above the path of an earlier one. */
  ghost predicate Topdown(ops: seq<ChangeOperation>) {
    forall i, j :: 0 <= i < j < |ops| ==> !AtOrAbove(ops[j], ops[i])
  }

  predicate AtOrAbove(a: ChangeOperation, b: ChangeOperation) { a.path <= b.path }

  lemma {:induction false} PosixOfAncestor(p: Path, q: Path)
    requires p != [] && p < q
    ensures Posix(p) < Posix(q)
    decreases |q|
  {
    if p != Parent(q) { PosixOfAncestor(p, Parent(q)); }
  }

  /** Sorting by path puts ancestors first. */
  lemma ValidIsTopdown(cs: ChangeSet)
    requires ValidChangeSet(cs)
    ensures Topdown(cs.operations)
  {
    var ops := cs.operations;
    forall i, j | 0 <= i < j < |ops| ensures !(ops[j].path <= ops[i].path) {
      assert Paths(ops)[i] != Paths(ops)[j];
      assert ops[j] in ops && SafePath(ops[j].path);
      if ops[j].path < ops[i].path {
        PosixOfAncestor(ops[j].path, ops[i].path);
        ByKeyIs(OperationKey, ops[i], ops[j]);
        StringLePrefix(Posix(ops[j].path), Posix(ops[i].path));
        StringLeAntisymmetric(Posix(ops[i].path), Posix(ops[j].path));
        assert false;
      }
    }
  }

  lemma {:induction false} MutableIsTopdown(ops: seq<ChangeOperation>)
    requires Topdown(ops)
    ensures Topdown(Mutable(ops))
    ensures forall m <- Mutable(ops) :: m in ops
  {
    hide AtOrAbove;
    if ops != [] {
      var rest := ops[1..];
      assert ops == [ops[0]] + rest;
      assert forall i :: 0 <= i < |rest| ==> rest[i] == ops[i + 1];
      MutableIsTopdown(rest);
      var more := Mutable(rest);
      forall i | 0 <= i < |more| ensures !AtOrAbove(more[i], ops[0]) {
        assert more[i] in more;
        var k :| 0 <= k < |rest| && rest[k] == more[i];
        assert ops[k + 1] == more[i];
      }
    }
  }

  // A file above another: when both are new, staging them already fails.
  ghost predicate NoFileAbove(ops: seq<ChangeOperation>) {
    forall i, j :: 0 <= i < |ops| && 0 <= j < |ops| && ops[i].after.Some? && ops[j].after.Some? ==>
      !(ops[i].path < ops[j].path)
  }

  lemma StagedHasNoFileAbove(stage: Tree, ops: seq<ChangeOperation>)
    requires Closed(stage) && Staged(stage, ops, 0, |ops|)
    ensures NoFileAbove(ops)
  {
    forall i, j | 0 <= i < |ops| && 0 <= j < |ops| && ops[i].after.Some? && ops[j].after.Some?
      ensures !(ops[i].path < ops[j].path)
    {
      if ops[i].path < ops[j].path { AncestorIsDir(stage, ops[i].path, ops[j].path); }
    }
  }

  /** What is not at or below p stays as it is. */
  ghost predicate KeepsAround(t: Tree, t': Tree, p: Path) {
    forall q <- t.Keys :: !(p <= q) ==> q in t' && t'[q] == t[q]
  }

  /** Nothing but directories above p is new. */
  ghost predicate MakesDirs(t: Tree, t': Tree, p: Path) {
    && (forall q <- t.Keys :: q in t' && t'[q] == t[q])
    && (forall q <- t'.Keys - t.Keys :: q < p && t'[q].Dir?)
  }

  lemma KeepsMoved(t: Tree, was: Tree, src: Tree, p: Path)
    requires forall q <- t.Keys :: q in was && was[q] == t[q]
    ensures KeepsAround(t, Without(was, p) + Under(src, p), p)
  {
  }

  lemma KeepsWithout(t: Tree, p: Path)
    ensures KeepsAround(t, Without(t, p), p)
  {
  }

  lemma KeepsMore(t: Tree, t': Tree, p: Path)
    requires forall q <- t.Keys :: q in t' && t'[q] == t[q]
    ensures KeepsAround(t, t', p)
  {
  }

  lemma KeepsItself(root: Tree, backup: Tree, p: Path)
    ensures KeepsAround(root, root, p) && KeepsAround(backup, backup, p)
  {
  }

  // --- A file that cannot be moved back ---

  /** A file that was moved away, with a directory in its place: it cannot be moved back. */
  ghost predicate Blocked(root: Tree, backup: Tree, backedUp: seq<Path>, a: Path) {
    && a in backedUp && a in root && root[a].Dir? && (a in backup ==> backup[a].File?)
    && forall g <- backedUp :: g != a ==> !(g <= a)
  }

  lemma StillBlocked(root: Tree, backup: Tree, backedUp: seq<Path>, root': Tree, backup': Tree, backedUp': seq<Path>,
                     a: Path, p: Path)
    requires Blocked(root, backup, backedUp, a) && a in backup && !(p <= a)
    requires KeepsAround(root, root', p) && KeepsAround(backup, backup', p)
    requires backedUp' == backedUp || backedUp' == backedUp + [p]
    ensures Blocked(root', backup', backedUp', a) && a in backup'
  {
  }

  lemma BlockedPurged(root: Tree, was: Tree, backup: Tree, backedUp: seq<Path>, a: Path)
    requires Blocked(root, was, backedUp, a)
    requires backup.Keys <= was.Keys && forall q <- backup.Keys :: backup[q] == was[q]
    ensures Blocked(root, backup, backedUp, a)
  {
  }

  // --- What the swaps know of the tree they work on ---

  /** Either the journal tracks the tree, or a file is blocked. */
  datatype Footing = Footing(tracked: bool, done: set<Path>, put: map<Path, Node>, above: Path)

  // The paths dealt with are those that are gone or have a new file.
  ghost predicate Effective(pre: Tree, ops: seq<ChangeOperation>, n: nat, done: set<Path>, put: map<Path, Node>)
    requires n <= |ops|
  {
    && (forall r <- done :: exists i :: 0 <= i < n && ops[i].path == r && (ops[i].after.Some? || r in pre))
    && (forall r <- put.Keys :: exists i :: 0 <= i < n && ops[i].path == r && ops[i].after.Some?)
  }

  lemma EffectiveIsUpTo(pre: Tree, ops: seq<ChangeOperation>, n: nat, done: set<Path>, put: map<Path, Node>)
    requires n <= |ops| && Effective(pre, ops, n, done, put)
    ensures done <= PathsUpTo(ops, n) && PathsUpTo(ops, n) <= PathsUpTo(ops, |ops|)
  {
  }

  lemma EffectiveStep(pre: Tree, ops: seq<ChangeOperation>, n: nat, done: set<Path>, put: map<Path, Node>,
                      done': set<Path>, put': map<Path, Node>)
    requires n < |ops| && Effective(pre, ops, n, done, put)
    requires done' == done || (done' == done + {ops[n].path} && (ops[n].after.Some? || ops[n].path in pre))
    requires put'.Keys == put.Keys || (put'.Keys == put.Keys + {ops[n].path} && ops[n].after.Some?)
    ensures Effective(pre, ops, n + 1, done', put')
  {
    forall r <- done' ensures exists i :: 0 <= i < n + 1 && ops[i].path == r && (ops[i].after.Some? || r in pre) {
      if r in done {
        var i :| 0 <= i < n && ops[i].path == r && (ops[i].after.Some? || r in pre);
        assert 0 <= i < n + 1;
      } else {
        assert ops[n].path == r;
      }
    }
    forall r <- put'.Keys ensures exists i :: 0 <= i < n + 1 && ops[i].path == r && ops[i].after.Some? {
      if r in put {
        var i :| 0 <= i < n && ops[i].path == r && ops[i].after.Some?;
        assert 0 <= i < n + 1;
      } else {
        assert ops[n].path == r;
      }
    }
  }

  // The operations are as reviewed: on a tree they were checked against, in the order of their paths, and stageable.
  ghost predicate Reviewed(pre: Tree, ops: seq<ChangeOperation>) {
    PlainTargets(pre, ops) && Topdown(ops) && NoFileAbove(ops) && DistinctPaths(ops)
  }

  /** The first path that lies below an earlier one: nothing is there, and if a file is to go there, the earlier one
      was moved away. */
  lemma NestedIs(pre: Tree, root: Tree, backup: Tree, j: Journal, ops: seq<ChangeOperation>, n: nat, done: set<Path>,
                 put: map<Path, Node>) returns (a: Path)
    requires n < |ops| && Reviewed(pre, ops) && Tracks(pre, root, backup, j, {}, done, put)
    requires Effective(pre, ops, n, done, put)
    requires Elements(j.backedUp) <= backup.Keys && Elements(j.backedUp) == PathsUpTo(ops, n) * pre.Keys
    requires exists r <- done :: Comparable(ops[n].path, r)
    ensures ops[n].path !in root && ops[n].path !in pre
    ensures ops[n].after.Some? ==>
      && a < ops[n].path && a in j.backedUp && a !in root && a != [] && Parent(a) in root && root[Parent(a)].Dir?
      && a in backup && backup[a].File? && forall g <- j.backedUp :: g != a ==> !(g <= a)
  {
    hide Reviewed;
    var p := ops[n].path;
    var i: int;
    a, i := EarlierIsAbove(pre, ops, n, done, put);
    NothingBelow(pre, root, backup, j, ops, n, done, put, a, i);
    if ops[n].after.Some? {
      MovedAway(pre, root, backup, j, ops, n, done, put, a, i);
    }
  }

  lemma EarlierIsAbove(pre: Tree, ops: seq<ChangeOperation>, n: nat, done: set<Path>, put: map<Path, Node>)
    returns (a: Path, i: nat)
    requires n < |ops| && Reviewed(pre, ops) && Effective(pre, ops, n, done, put)
    requires exists r <- done :: Comparable(ops[n].path, r)
    ensures a in done && a < ops[n].path && i < n && ops[i].path == a && (ops[i].after.Some? || a in pre)
  {
    a :| a in done && Comparable(ops[n].path, a);
    i :| 0 <= i < n && ops[i].path == a && (ops[i].after.Some? || a in pre);
    assert !AtOrAbove(ops[n], ops[i]);
    assert a != ops[n].path;
  }

  lemma NothingBelow(pre: Tree, root: Tree, backup: Tree, j: Journal, ops: seq<ChangeOperation>, n: nat,
                     done: set<Path>,
                     put: map<Path, Node>, a: Path, i: nat)
    requires n < |ops| && Reviewed(pre, ops) && Tracks(pre, root, backup, j, {}, done, put)
    requires Effective(pre, ops, n, done, put)
    requires i < n && ops[i].path == a && a < ops[n].path
    ensures ops[n].path !in root && ops[n].path !in pre
  {
    var p := ops[n].path;
    if p in pre { AncestorIsDir(pre, a, p); }
    assert forall k :: 0 <= k < n ==> ops[k].path != p && !AtOrAbove(ops[n], ops[k]);
  }

  // The earlier path had a file that was moved away, and its directory stands.
  lemma MovedAway(pre: Tree, root: Tree, backup: Tree, j: Journal, ops: seq<ChangeOperation>, n: nat, done: set<Path>,
                  put: map<Path, Node>, a: Path, i: nat)
    requires n < |ops| && Reviewed(pre, ops) && Tracks(pre, root, backup, j, {}, done, put)
    requires Effective(pre, ops, n, done, put)
    requires Elements(j.backedUp) <= backup.Keys && Elements(j.backedUp) == PathsUpTo(ops, n) * pre.Keys
    requires a in done && i < n && ops[i].path == a && (ops[i].after.Some? || a in pre) && a < ops[n].path
    requires ops[n].after.Some?
    ensures a in j.backedUp && a !in root && a != [] && Parent(a) in root && root[Parent(a)].Dir?
    ensures a in backup && backup[a].File? && forall g <- j.backedUp :: g != a ==> !(g <= a)
  {
    assert ops[i].after.None?;
    assert a in PathsUpTo(ops, n) * pre.Keys;
    assert a in Elements(j.backedUp);
    assert Under(backup, a) == Under(pre, a);
    assert a in Under(pre, a) && pre[a].File?;
    assert backup[a] == Under(backup, a)[a];
    forall g <- j.backedUp | g != a ensures !(g <= a) { assert g in Elements(j.backedUp) && !Comparable(g, a); }
    assert forall k :: 0 <= k < n && ops[k].path == a ==> k == i;
    ParentStands(pre, root, j, done, put, a);
  }

  lemma ParentStands(pre: Tree, root: Tree, j: Journal, done: set<Path>, put: map<Path, Node>, a: Path)
    requires Apart(pre, done, Elements(j.backedUp), j.created + {}, put) && a in done && a in pre
    requires a in Elements(j.backedUp)
    requires root == Midway(pre, Elements(j.backedUp), j.created + {}, put) && a !in put
    ensures a !in root && Parent(a) in root && root[Parent(a)].Dir?
  {
    var up := Parent(a);
    assert up in pre && pre[up].Dir?;
    assert Covered(Elements(j.backedUp), a);
    forall g <- done | g != a ensures !(g <= up) { assert !Comparable(g, a); }
    assert up != a;
  }

  // A directory made on the way to a new file stands where a stood.
  lemma NowBlocked(root: Tree, root': Tree, backup: Tree, backedUp: seq<Path>, a: Path, op: ChangeOperation)
    requires Closed(root) && Closed(root') && a < op.path && a in backedUp && a !in root && a != []
    requires Parent(a) in root && a in backup && backup[a].File? && forall g <- backedUp :: g != a ==> !(g <= a)
    requires op.after.Some? && (root' == PutOperation(root, op) || (MakesDirs(root, root', op.path) && root' != root))
    ensures Blocked(root', backup, backedUp, a)
  {
    hide PutOperation, MakesDirs;
    if root' == PutOperation(root, op) { PutMakesDir(root, op, a); } else { MadeAtOrBelow(root, root', op.path, a); }
  }

  lemma PutMakesDir(t: Tree, op: ChangeOperation, a: Path)
    requires op.after.Some? && a < op.path && a !in t
    ensures a in PutOperation(t, op) && PutOperation(t, op)[a].Dir?
  {
    PrefixesAre(Parent(op.path));
    assert a <= Parent(op.path);
  }

  lemma MadeAtOrBelow(t: Tree, t': Tree, p: Path, a: Path)
    requires Closed(t) && Closed(t') && MakesDirs(t, t', p) && t' != t
    requires a < p && a != [] && a !in t && Parent(a) in t
    ensures a in t' && t'[a].Dir?
  {
    SameKeysSameTree(t, t');
    var q :| q in t'.Keys - t.Keys;
    PrefixesCompare(a, q, p);
    if q <= Parent(a) && q != Parent(a) { AncestorIsDir(t, q, Parent(a)); }
    assert a <= q;
    if a != q { AncestorIsDir(t', a, q); }
  }

  // --- One swap after the other ---

  /** How things stand in the middle of the swaps: the journal tracks the tree; or, if the operations are as
      reviewed, a file is blocked. */
  ghost predicate Stands(pre: Tree, root: Tree, backup: Tree, j: Journal, stray: set<Path>, ops: seq<ChangeOperation>,
                         n: nat,
                         f: Footing)
    requires n <= |ops|
  {
    && (f.tracked ==>
          && Tracks(pre, root, backup, j, stray, f.done, f.put) && Effective(pre, ops, n, f.done, f.put)
          && Elements(j.backedUp) <= backup.Keys)
    && (Reviewed(pre, ops) && !f.tracked ==>
          Blocked(root, backup, j.backedUp, f.above) && f.above in backup && f.above in PathsUpTo(ops, n))
    && (Separate(ops) ==> f.tracked)
  }

  // And when all swaps so far went well.
  ghost predicate StandsWell(pre: Tree, root: Tree, backup: Tree, j: Journal, ops: seq<ChangeOperation>, n: nat,
                             f: Footing)
    requires n <= |ops|
  {
    && Stands(pre, root, backup, j, {}, ops, n, f)
    && (f.tracked ==> [] in backup && Elements(j.backedUp) == PathsUpTo(ops, n) * pre.Keys)
  }

  lemma StandsAtFirst(pre: Tree, ops: seq<ChangeOperation>)
    requires Closed(pre)
    ensures StandsWell(pre, pre, map[[] := Dir], Journal([], [], {}), ops, 0, Footing(true, {}, map[], []))
  {
    hide Tracks;
    NothingTouched(pre);
    NoPathsYet(ops);
  }

  ghost predicate Clashes(done: set<Path>, p: Path) {
    exists r <- done :: Comparable(p, r)
  }

  lemma SeparateDoesNotClash(pre: Tree, ops: seq<ChangeOperation>, n: nat, done: set<Path>, put: map<Path, Node>)
    requires n < |ops| && Effective(pre, ops, n, done, put) && Clashes(done, ops[n].path)
    ensures !Separate(ops)
  {
    var r :| r in done && Comparable(ops[n].path, r);
    var i :| 0 <= i < n && ops[i].path == r && (ops[i].after.Some? || r in pre);
    assert Comparable(ops[i].path, ops[n].path);
  }

  // What one swap does to the tree and the backup, tracked or not.
  ghost predicate Swaps(op: ChangeOperation, root: Tree, backup: Tree, j: Journal, ok: bool, root': Tree, backup': Tree,
                        j': Journal,
                        stray: set<Path>) {
    && KeepsAround(root, root', op.path) && KeepsAround(backup, backup', op.path)
    && (j'.backedUp == j.backedUp || j'.backedUp == j.backedUp + [op.path])
    && (ok ==> root' == PutOperation(root, op))
    && (op.path !in root ==> backup' == backup && j'.backedUp == j.backedUp)
    && (op.path !in root && op.after.None? ==> ok && root' == root && j' == j && stray == {})
    && (op.path !in root && !ok ==> MakesDirs(root, root', op.path) && (root' == root ==> j' == j && stray == {}))
  }

  // The next path clashes with none: the journal goes on.
  lemma FollowStep(pre: Tree, root: Tree, backup: Tree, j: Journal, ops: seq<ChangeOperation>, n: nat, f: Footing,
                   ok: bool, root': Tree, backup': Tree, j': Journal, stray: set<Path>, put': map<Path, Node>)
    returns (f': Footing)
    requires n < |ops| && StandsWell(pre, root, backup, j, ops, n, f) && f.tracked && !Clashes(f.done, ops[n].path)
    requires Swaps(ops[n], root, backup, j, ok, root', backup', j', stray) && ops[n].path != []
    requires Tracks(pre, root', backup', j', stray, f.done + {ops[n].path}, put')
    requires put'.Keys == f.put.Keys || (put'.Keys == f.put.Keys + {ops[n].path} && ops[n].after.Some?)
    requires Elements(j'.backedUp) <= backup'.Keys && [] in backup'
    requires ok ==> Elements(j'.backedUp) == Elements(j.backedUp) + (if ops[n].path in pre then {ops[n].path} else {})
    ensures f'.tracked && Stands(pre, root', backup', j', stray, ops, n + 1, f')
    ensures ok && stray == {} ==> StandsWell(pre, root', backup', j', ops, n + 1, f')
  {
    hide Tracks, Effective, Separate, Reviewed, Blocked, KeepsAround, MakesDirs, PutOperation, Elements;
    var p := ops[n].path;
    PathsStep(pre, ops, n);
    if p in pre || ops[n].after.Some? {
      f' := f.(done := f.done + {p}, put := put');
      EffectiveStep(pre, ops, n, f.done, f.put, f'.done, put');
    } else {
      f' := f;
      StillAbsent(pre, root, backup, j, f.done, f.put, p);
      EffectiveStep(pre, ops, n, f.done, f.put, f.done, f.put);
    }
  }

  lemma PathsStep(pre: Tree, ops: seq<ChangeOperation>, n: nat)
    requires n < |ops|
    ensures PathsUpTo(ops, n + 1) * pre.Keys == PathsUpTo(ops, n) * pre.Keys
      + (if ops[n].path in pre then {ops[n].path} else {})
    ensures PathsUpTo(ops, n) <= PathsUpTo(ops, n + 1)
  {
    assert PathsUpTo(ops, n + 1) == PathsUpTo(ops, n) + {ops[n].path};
  }

  lemma StillAbsent(pre: Tree, root: Tree, backup: Tree, j: Journal, done: set<Path>, put: map<Path, Node>, p: Path)
    requires Tracks(pre, root, backup, j, {}, done, put) && !Clashes(done, p) && p !in pre
    ensures p !in root
  {
    hide Midway, Recoverable, Shaped;
    forall r <- done ensures !Comparable(p, r) {}
    UntouchedBelow(pre, done, Elements(j.backedUp), j.created + {}, put, p);
    assert p in root ==> p in Below(root, p);
  }

  // The next path clashes with an earlier one: a file is blocked from now on, or nothing has happened.
  lemma ClashStep(pre: Tree, root: Tree, backup: Tree, j: Journal, ops: seq<ChangeOperation>, n: nat, f: Footing,
                  ok: bool, root': Tree, backup': Tree, j': Journal, stray: set<Path>)
    returns (f': Footing)
    requires n < |ops| && StandsWell(pre, root, backup, j, ops, n, f) && f.tracked && Clashes(f.done, ops[n].path)
    requires Swaps(ops[n], root, backup, j, ok, root', backup', j', stray) && Closed(root) && Closed(root')
    ensures Stands(pre, root', backup', j', stray, ops, n + 1, f')
    ensures ok && stray == {} ==> StandsWell(pre, root', backup', j', ops, n + 1, f')
  {
    hide Tracks, Effective, Separate, Reviewed, Blocked, KeepsAround, MakesDirs, PutOperation, Elements, Comparable;
    SeparateDoesNotClash(pre, ops, n, f.done, f.put);
    PathsStep(pre, ops, n);
    f' := f.(tracked := false);
    if Reviewed(pre, ops) {
      var a := NestedIs(pre, root, backup, j, ops, n, f.done, f.put);
      if root' == root && j' == j && stray == {} {
        f' := f;
        EffectiveStep(pre, ops, n, f.done, f.put, f.done, f.put);
      } else {
        f' := f.(tracked := false, above := a);
        SomethingMade(ops[n], root, backup, j, ok, root', backup', j', stray);
        NowBlocked(root, root', backup, j.backedUp, a, ops[n]);
        ClashedIsEarlier(pre, root, backup, j, ops, n, f.done, f.put, a);
      }
    }
  }

  lemma SomethingMade(op: ChangeOperation, root: Tree, backup: Tree, j: Journal, ok: bool, root': Tree, backup': Tree,
                      j': Journal,
                      stray: set<Path>)
    requires Swaps(op, root, backup, j, ok, root', backup', j', stray) && op.path !in root
    requires !(root' == root && j' == j && stray == {})
    ensures op.after.Some? && backup' == backup && j'.backedUp == j.backedUp
    ensures root' == PutOperation(root, op) || (MakesDirs(root, root', op.path) && root' != root)
  {
    hide KeepsAround, MakesDirs, PutOperation;
  }

  lemma ClashedIsEarlier(pre: Tree, root: Tree, backup: Tree, j: Journal, ops: seq<ChangeOperation>, n: nat,
                         done: set<Path>,
                         put: map<Path, Node>, a: Path)
    requires n < |ops| && Tracks(pre, root, backup, j, {}, done, put) && Effective(pre, ops, n, done, put)
    requires a in j.backedUp
    ensures a in PathsUpTo(ops, n)
  {
    EffectiveIsUpTo(pre, ops, n, done, put);
    assert a in Elements(j.backedUp);
  }

  // Once a file is blocked, it stays so.
  lemma BlockedStep(pre: Tree, root: Tree, backup: Tree, j: Journal, ops: seq<ChangeOperation>, n: nat, f: Footing,
                    ok: bool, root': Tree, backup': Tree, j': Journal, stray: set<Path>)
    requires n < |ops| && StandsWell(pre, root, backup, j, ops, n, f) && !f.tracked
    requires Swaps(ops[n], root, backup, j, ok, root', backup', j', stray)
    ensures Stands(pre, root', backup', j', stray, ops, n + 1, f)
    ensures ok && stray == {} ==> StandsWell(pre, root', backup', j', ops, n + 1, f)
  {
    hide Tracks, Effective, Separate, Blocked, KeepsAround, MakesDirs, PutOperation, Elements, PlainTargets,
      NoFileAbove;
    PathsStep(pre, ops, n);
    if Reviewed(pre, ops) {
      LaterIsNotAbove(ops, n, f.above);
      StillBlocked(root, backup, j.backedUp, root', backup', j'.backedUp, f.above, ops[n].path);
    }
  }

  lemma LaterIsNotAbove(ops: seq<ChangeOperation>, n: nat, a: Path)
    requires n < |ops| && Topdown(ops) && a in PathsUpTo(ops, n)
    ensures !(ops[n].path <= a)
  {
    var i :| 0 <= i < n && ops[i].path == a;
    assert !AtOrAbove(ops[n], ops[i]);
  }

  lemma NoClash(done: set<Path>, p: Path)
    requires !Clashes(done, p)
    ensures forall r <- done :: !Comparable(p, r)
  {
  }

  lemma NothingBackedUp()
    ensures Elements([]) == {}
  {
  }

  lemma StandsOn(pre: Tree, root: Tree, backup: Tree, j: Journal, stray: set<Path>, ops: seq<ChangeOperation>, n: nat,
                 f: Footing)
    requires n <= |ops| && Stands(pre, root, backup, j, stray, ops, n, f)
    ensures Stands(pre, root, backup, j, stray, ops, |ops|, f)
  {
    hide Tracks, Blocked, Reviewed, Separate;
  }

  lemma SwapKeeps(root: Tree, cut: Tree, root': Tree, op: ChangeOperation, ok: bool)
    requires cut == Without(root, op.path) && op.after.Some? && op.path != []
    requires ok ==> root' == WithDirs(cut, Parent(op.path))[op.path := File(Text(op.after.value))]
    requires !ok ==> MakesDirs(cut, root', op.path)
    ensures KeepsAround(root, root', op.path) && (ok ==> root' == PutOperation(root, op))
  {
  }

  // --- The rollback ---

  // Every directory is still there.
  ghost predicate KeepsDirs(t: Tree, t': Tree) {
    forall q <- t.Keys :: t[q].Dir? ==> q in t' && t'[q].Dir?
  }

  lemma BlockedUnlinked(root: Tree, root': Tree, backup: Tree, backedUp: seq<Path>, a: Path)
    requires Blocked(root, backup, backedUp, a) && KeepsDirs(root, root')
    ensures Blocked(root', backup, backedUp, a)
  {
  }

  // One restore: of the blocked file, which fails; or of another, which leaves it blocked.
  lemma BlockedOrNot(root: Tree, root': Tree, backup: Tree, backup': Tree, backedUp: seq<Path>, n: nat, a: Path,
                     ok: bool)
    requires n < |backedUp| && Blocked(root, backup, backedUp, a) && a in backedUp[..n + 1]
    requires KeepsAround(root, root', backedUp[n])
    requires backup'.Keys <= backup.Keys && forall q <- backup'.Keys :: backup'[q] == backup[q]
    requires backedUp[n] in root && root[backedUp[n]].Dir? && (backedUp[n] in backup ==> backup[backedUp[n]].File?) ==>
      !ok
    ensures !ok || (a in backedUp[..n] && Blocked(root', backup', backedUp, a))
  {
    if a != backedUp[n] {
      assert backedUp[..n + 1] == backedUp[..n] + [backedUp[n]];
      assert backedUp[n] in backedUp;
    }
  }
}
