/** The rollback's bookkeeping: what the journal, the backup and the stage say about the tree at every step. */
module Journals {
  import opened Wrappers
  import opened Ordering
  import opened Trees
  import opened ChangeSets
  import opened WriterModel

  // What the rollback has to undo, in the order it was done.
  datatype Journal = Journal(installed: seq<Path>, backedUp: seq<Path>, created: set<Path>)

  ghost function Elements(paths: seq<Path>): set<Path> {
    set p <- paths
  }

  /** What the journal and the backup say about the tree; `stray` are directories a failed mkdir left. */
  ghost predicate Tracks(pre: Tree, root: Tree, backup: Tree, j: Journal, stray: set<Path>, done: set<Path>,
                         put: map<Path, Node>) {
    && Apart(pre, done, Elements(j.backedUp), j.created + stray, put)
    && put.Keys == Elements(j.installed)
    && Unique(j.backedUp) && j.created !! stray
    && root == Midway(pre, Elements(j.backedUp), j.created + stray, put)
    && Recoverable(pre, backup, Elements(j.backedUp))
    && Shaped(backup, done, Elements(j.backedUp))
  }

  // The backup holds what was moved there, and the directories above it.
  ghost predicate Shaped(backup: Tree, done: set<Path>, gone: set<Path>) {
    forall q <- backup.Keys :: Covered(gone, q) || (backup[q].Dir? && (q == [] || exists r <- done :: q < r))
  }

  // Whatever is still in the backup is what was moved there.
  ghost predicate Recoverable(pre: Tree, backup: Tree, gone: set<Path>) {
    forall g <- gone :: g in backup ==> Under(backup, g) == Under(pre, g)
  }

  ghost predicate DistinctPaths(ops: seq<ChangeOperation>) {
    forall i, j :: 0 <= i < j < |ops| ==> ops[i].path != ops[j].path
  }

  ghost predicate Staged(stage: Tree, ops: seq<ChangeOperation>, from: nat, to: nat)
    requires to <= |ops|
  {
    forall i :: from <= i < to && ops[i].after.Some? ==>
      ops[i].path in stage && stage[ops[i].path] == File(Text(ops[i].after.value))
  }

  // Nothing but directories above p, and p itself, is new or different.
  ghost predicate OnlyAdds(t: Tree, t': Tree, p: Path) {
    && (forall q <- t.Keys :: q in t' && (q != p ==> t'[q] == t[q]))
    && (forall q <- t'.Keys :: q !in t ==> q <= p && (t'[q].File? ==> q == p))
  }

  lemma AddsDirs(t: Tree, t': Tree, p: Path)
    requires p != []
    requires forall q <- t.Keys :: q in t' && t'[q] == t[q]
    requires forall q <- t'.Keys - t.Keys :: q <= Parent(p) && t'[q].Dir?
    ensures OnlyAdds(t, t', p)
  {
    forall q <- t'.Keys | q !in t ensures q <= p && t'[q].Dir? {
      assert q in t'.Keys - t.Keys;
    }
  }

  lemma AddsFile(t: Tree, t': Tree, p: Path, content: Content)
    requires OnlyAdds(t, t', p)
    ensures OnlyAdds(t, t'[p := File(content)], p)
  {
  }

  ghost predicate OnlyStaged(stage: Tree, ops: seq<ChangeOperation>, n: nat)
    requires n <= |ops|
  {
    && [] in stage
    && forall q <- stage.Keys :: (q == [] && stage[q].Dir?) ||
         exists i :: 0 <= i < n && q <= ops[i].path && (stage[q].File? ==> q == ops[i].path)
  }

  lemma NothingStaged(stage: Tree, ops: seq<ChangeOperation>)
    ensures Staged(stage, ops, 0, 0)
    ensures stage == map[[] := Dir] ==> OnlyStaged(stage, ops, 0)
  {
  }

  lemma StagedStep(was: Tree, stage: Tree, ops: seq<ChangeOperation>, n: nat)
    requires n < |ops| && DistinctPaths(ops) && Staged(was, ops, 0, n)
    requires stage == was || OnlyAdds(was, stage, ops[n].path)
    requires ops[n].after.Some? ==> ops[n].path in stage && stage[ops[n].path] == File(Text(ops[n].after.value))
    ensures Staged(stage, ops, 0, n + 1)
  {
  }

  lemma OnlyStagedStep(was: Tree, stage: Tree, ops: seq<ChangeOperation>, n: nat)
    requires n < |ops| && OnlyStaged(was, ops, n)
    requires stage == was || (OnlyAdds(was, stage, ops[n].path) && ops[n].path != [])
    ensures OnlyStaged(stage, ops, n + 1)
  {
    forall q <- stage.Keys | q != [] || stage[q].File?
      ensures exists i :: 0 <= i < n + 1 && q <= ops[i].path && (stage[q].File? ==> q == ops[i].path)
    {
      if q in was && q != ops[n].path {
        var i :| 0 <= i < n && q <= ops[i].path && (was[q].File? ==> q == ops[i].path);
        assert 0 <= i < n + 1;
      } else if q !in was {
        assert q <= ops[n].path && (stage[q].File? ==> q == ops[n].path);
      }
    }
  }

  /** Every file and directory is back; anything more is an empty directory on the way to an operation's path. */
  ghost predicate Restored(pre: Tree, root: Tree, ops: seq<ChangeOperation>) {
    && (forall q <- pre.Keys :: q in root && root[q] == pre[q])
    && (forall q <- root.Keys :: q !in pre ==> root[q].Dir? && exists i :: 0 <= i < |ops| && q < ops[i].path)
  }

  ghost predicate PlainTargets(t: Tree, ops: seq<ChangeOperation>) {
    forall i :: 0 <= i < |ops| && ops[i].path in t ==> t[ops[i].path].File?
  }

  lemma {:induction false} MutableIs(ops: seq<ChangeOperation>)
    requires Unique(Paths(ops)) && forall op <- ops :: ValidOperation(op)
    ensures forall op <- Mutable(ops) :: op in ops && !op.kind.Unchanged?
    ensures forall op <- ops :: !op.kind.Unchanged? ==> op in Mutable(ops)
    ensures DistinctPaths(Mutable(ops))
    ensures forall i :: 0 <= i < |Mutable(ops)| ==> Mutable(ops)[i].path != []
  {
    if ops != [] {
      var rest := ops[1..];
      assert forall i :: 0 <= i < |rest| ==> Paths(rest)[i] == Paths(ops)[i + 1];
      MutableIs(rest);
      forall op <- Mutable(rest) ensures op.path != ops[0].path {
        var i :| 0 <= i < |rest| && rest[i] == op;
        assert Paths(ops)[0] != Paths(ops)[i + 1];
      }
    }
  }

  lemma PurgedIsRecoverable(pre: Tree, was: Tree, backup: Tree, gone: set<Path>)
    requires Recoverable(pre, was, gone) && Closed(pre)
    requires backup.Keys <= was.Keys && forall q <- backup.Keys :: backup[q] == was[q]
    requires forall g <- gone :: g in pre && pre[g].File?
    ensures Recoverable(pre, backup, gone)
  {
    forall g <- gone | g in backup ensures Under(backup, g) == Under(pre, g) {
      NothingUnderAFile(pre, g);
      assert Below(pre, g) == {g};
      assert Below(was, g) == Under(was, g).Keys == Under(pre, g).Keys == {g};
      assert forall q <- Below(backup, g) :: q in Below(was, g);
      assert Below(backup, g) == {g};
      assert backup[g] == Under(was, g)[g] == Under(pre, g)[g];
    }
  }

  lemma TracksPurged(pre: Tree, root: Tree, was: Tree, backup: Tree, j: Journal, done: set<Path>, put: map<Path, Node>,
                     ops: seq<ChangeOperation>)
    requires Tracks(pre, root, was, j, {}, done, put)
    requires backup.Keys <= was.Keys && forall q <- backup.Keys :: backup[q] == was[q]
    requires done <= PathsUpTo(ops, |ops|)
    requires backup == map[] || PlainTargets(pre, ops)
    ensures Tracks(pre, root, backup, j, {}, done, put)
  {
    if backup != map[] {
      forall g <- Elements(j.backedUp) ensures g in pre && pre[g].File? {
        assert g in PathsUpTo(ops, |ops|);
      }
      PurgedIsRecoverable(pre, was, backup, Elements(j.backedUp));
    }
  }

  lemma RolledBackTo(pre: Tree, root: Tree, done: set<Path>, left: set<Path>, ops: seq<ChangeOperation>)
    requires Apart(pre, done, {}, left, map[]) && root == Midway(pre, {}, left, map[])
    requires done <= PathsUpTo(ops, |ops|)
    ensures Restored(pre, root, ops)
    ensures root == pre <==> left == {}
  {
    NothingLeft(pre, done, left);
    forall q <- root.Keys | q !in pre ensures root[q].Dir? && exists i :: 0 <= i < |ops| && q < ops[i].path {
      var p :| p in done && q < p;
      assert p in PathsUpTo(ops, |ops|);
    }
  }

  lemma LateLoss(pre: Tree, gone: set<Path>)
    ensures Midway(pre, gone, {}, map[]) == pre - Lost(pre, gone)
  {
  }

  lemma DeepestExists(s: set<Path>)
    requires s != {}
    ensures exists d <- s :: forall e <- s :: |e| <= |d|
  {
    var d :| d in s;
    var rest := s - {d};
    assert forall e <- s :: e == d || e in rest;
    if rest == {} {
      assert forall e <- s :: |e| <= |d|;
    } else {
      DeepestExists(rest);
      var m :| m in rest && forall e <- rest :: |e| <= |m|;
      var top := if |m| >= |d| then m else d;
      assert top in s && forall e <- s :: |e| <= |top|;
    }
  }

  lemma ChildlessIsEmpty(t: Tree, d: Path)
    requires Closed(t) && d in t && forall q <- t.Keys :: q == [] || Parent(q) != d
    ensures Below(t, d) == {d}
  {
    forall q <- t.Keys | d <= q ensures q == d {
      if q != d {
        var child := q[..|d| + 1];
        assert Parent(child) == d;
        if child != q { AncestorIsDir(t, child, q); }
      }
    }
  }

  lemma DirsAreNoRoot(pre: Tree, done: set<Path>, gone: set<Path>, dirs: set<Path>, d: Path)
    requires Apart(pre, done, gone, dirs, map[]) && d in dirs
    ensures d != []
  {
  }

  lemma RmdirIsClosed(t: Tree, d: Path)
    requires Closed(t) && d in t && Below(t, d) == {d}
    ensures Closed(t - {d})
  {
    forall q <- (t - {d}).Keys | q != [] ensures Parent(q) in t - {d} {
      assert q !in Below(t, d);
    }
  }

  lemma UnlinkIsClosed(t: Tree, p: Path)
    requires Closed(t) && p in t && t[p].File?
    ensures Closed(t - {p})
  {
    NothingUnderAFile(t, p);
    forall q <- (t - {p}).Keys | q != [] ensures Parent(q) in t - {p} {
      assert Parent(q) in t && t[Parent(q)].Dir?;
    }
  }

  /** The state of a rollback: `lost` is still missing, `dirs` still to be removed. */
  ghost predicate Undoing(pre: Tree, root: Tree, backup: Tree, done: set<Path>, lost: set<Path>, dirs: set<Path>) {
    && Apart(pre, done, lost, dirs, map[])
    && root == Midway(pre, lost, dirs, map[])
    && Recoverable(pre, backup, lost)
  }

  lemma NoneBelow(t: Tree, p: Path)
    requires Below(t, p) == {}
    ensures p !in t
  {
    assert p in Below(t, p) <==> p in t;
  }

  lemma UndoingRestored(pre: Tree, root: Tree, backup: Tree, done: set<Path>, lost: set<Path>, dirs: set<Path>, g: Path)
    requires Undoing(pre, root, backup, done, lost, dirs)
    requires g in lost && g in backup
    ensures Undoing(pre, Without(root, g) + Under(backup, g), Without(backup, g), done, lost - {g}, dirs)
    ensures lost <= backup.Keys ==> lost - {g} <= Without(backup, g).Keys
  {
    RestoreStep(pre, done, lost, dirs, g);
    RestoreApart(pre, done, lost, dirs, g);
    RestoredOthers(pre, backup, done, lost, g);
  }

  lemma RestoredOthers(pre: Tree, backup: Tree, done: set<Path>, lost: set<Path>, g: Path)
    requires Recoverable(pre, backup, lost) && lost <= done && g in lost
    requires forall p <- done, q <- done :: p != q ==> !Comparable(p, q)
    ensures Recoverable(pre, Without(backup, g), lost - {g})
    ensures lost <= backup.Keys ==> lost - {g} <= Without(backup, g).Keys
  {
    var b := Without(backup, g);
    forall h <- lost - {g} ensures Below(b, h) == Below(backup, h) {
      forall q <- backup.Keys | h <= q ensures !(g <= q) {
        if g <= q { PrefixesCompare(g, h, q); assert false; }
      }
    }
    forall h <- lost - {g} | h in b ensures Under(b, h) == Under(pre, h) {
      assert Under(b, h) == Under(backup, h);
    }
  }

  ghost function PathsUpTo(ops: seq<ChangeOperation>, n: nat): set<Path>
    requires n <= |ops|
  {
    set i | 0 <= i < n :: ops[i].path
  }

  lemma NoPathsYet(ops: seq<ChangeOperation>)
    ensures PathsUpTo(ops, 0) == {}
  {
  }

  lemma ApartFromEarlier(ops: seq<ChangeOperation>, n: nat)
    requires n < |ops| && Separate(ops)
    ensures forall r <- PathsUpTo(ops, n) :: !Comparable(ops[n].path, r)
    ensures PathsUpTo(ops, n + 1) == PathsUpTo(ops, n) + {ops[n].path}
    ensures PathsUpTo(ops, n + 1) <= PathsUpTo(ops, |ops|)
  {
  }

  lemma NothingTouched(pre: Tree)
    requires Closed(pre)
    ensures Tracks(pre, pre, map[[] := Dir], Journal([], [], {}), {}, {}, map[])
  {
    hide Midway;
    MidwayOfNothing(pre);
    var j := Journal([], [], {});
    assert Elements(j.backedUp) == {} && Elements(j.installed) == {} && j.created + {} == {};
  }

  lemma MidwayOfNothing(pre: Tree)
    ensures Midway(pre, {}, {}, map[]) == pre
  {
    assert Lost(pre, {}) == {};
  }

  lemma NotYetInstalled(j: Journal, done: set<Path>, put: map<Path, Node>, p: Path)
    requires put.Keys == Elements(j.installed) && put.Keys <= done
    requires forall r <- done :: !Comparable(p, r)
    ensures p !in j.installed
  {
    if p in j.installed {
      assert p in Elements(j.installed);
      assert Comparable(p, p);
    }
  }

  lemma TracksNotYet(pre: Tree, root: Tree, backup: Tree, j: Journal, done: set<Path>, put: map<Path, Node>, p: Path)
    requires Tracks(pre, root, backup, j, {}, done, put)
    requires forall r <- done :: !Comparable(p, r)
    ensures p !in j.installed
  {
    hide Midway, Recoverable, Shaped;
    NotYetInstalled(j, done, put, p);
  }

  lemma SameKeysSameTree(t: Tree, t': Tree)
    requires t'.Keys >= t.Keys && forall q <- t.Keys :: t'[q] == t[q]
    ensures t' == t <==> t'.Keys - t.Keys == {}
  {
    assert t'.Keys == t.Keys + (t'.Keys - t.Keys);
  }

  lemma MadeByWithDirs(t: Tree, d: Path)
    ensures WithDirs(t, d).Keys - t.Keys == Prefixes(d) - t.Keys
  {
  }

  lemma PlaceIsPut(root: Tree, stage: Tree, p: Path)
    requires Closed(stage) && p in stage && stage[p].File? && Closed(root) && p !in root
    ensures Without(root, p) + Under(stage, p) == root[p := stage[p]]
    ensures Without(stage, p) == stage - {p}
  {
    NothingUnderAFile(stage, p);
    NothingUnderAFile(root, p);
    assert Below(stage, p) == {p};
    assert Below(root, p) == {};
  }

  lemma TracksDirs(pre: Tree, root: Tree, root': Tree, backup: Tree, j: Journal, done: set<Path>, put: map<Path, Node>,
                   p: Path,
                   j': Journal, stray: set<Path>)
    requires Tracks(pre, root, backup, j, {}, done, put)
    requires p in done && p != []
    requires root'.Keys >= root.Keys && forall q <- root.Keys :: root'[q] == root[q]
    requires forall q <- root'.Keys - root.Keys :: q <= Parent(p) && q != [] && root'[q].Dir?
    requires j'.installed == j.installed && j'.backedUp == j.backedUp
    requires j'.created + stray == j.created + (root'.Keys - root.Keys)
    requires stray == {} || (stray == root'.Keys - root.Keys && j'.created == j.created)
    ensures Tracks(pre, root', backup, j', stray, done, put)
  {
    hide Apart, Recoverable, Covered, Lost;
    var made := root'.Keys - root.Keys;
    forall d <- made ensures d < p {}
    DirsStep(pre, done, Elements(j.backedUp), j.created + {}, put, p, made);
    assert j.created + {} + made == j'.created + stray;
    assert root' == root + (map d <- made :: Dir);
    assert j.created <= root.Keys;
  }

  lemma TracksPut(pre: Tree, root: Tree, backup: Tree, j: Journal, done: set<Path>, put: map<Path, Node>, p: Path,
                  content: Content)
    requires Tracks(pre, root, backup, j, {}, done, put)
    requires p in done && p !in j.installed && p !in root
    ensures Tracks(pre, root[p := File(content)], backup, j.(installed := j.installed + [p]), {}, done,
      put[p := File(content)])
  {
    var gone := Elements(j.backedUp);
    assert p in gone || p !in pre by {
      if p in pre && p !in gone {
        var g :| g in gone && g <= p;
        assert Comparable(g, p);
        assert false;
      }
    }
    PutStep(pre, done, gone, j.created + {}, put, p, File(content));
    assert Elements(j.installed + [p]) == Elements(j.installed) + {p};
  }

  lemma WithoutAbsent(t: Tree, p: Path)
    requires Closed(t) && p !in t
    ensures Without(t, p) == t
  {
    NothingUnderAFile(t, p);
    assert Below(t, p) == {};
  }

  lemma TracksAbsent(pre: Tree, root: Tree, backup: Tree, j: Journal, done: set<Path>, put: map<Path, Node>, p: Path)
    requires Tracks(pre, root, backup, j, {}, done, put)
    requires p != [] && forall r <- done :: !Comparable(p, r)
    requires p !in root
    ensures Tracks(pre, root, backup, j, {}, done + {p}, put) && p !in pre
  {
    AbsentWasAbsent(pre, done, Elements(j.backedUp), j.created + {}, put, p);
    DoneStep(pre, done, Elements(j.backedUp), j.created + {}, put, p);
  }

  lemma TracksBackupDirs(pre: Tree, root: Tree, was: Tree, backup: Tree, j: Journal, done: set<Path>,
                         put: map<Path, Node>, p: Path)
    requires Tracks(pre, root, was, j, {}, done, put)
    requires p != [] && forall r <- done :: !Comparable(p, r)
    requires was.Keys <= backup.Keys && forall q <- was.Keys :: backup[q] == was[q]
    requires forall q <- backup.Keys - was.Keys :: q <= Parent(p) && backup[q].Dir?
    ensures Tracks(pre, root, backup, j, {}, done + {p}, put)
  {
    StaysRecoverable(pre, was, backup, done, Elements(j.backedUp), p);
    DoneStep(pre, done, Elements(j.backedUp), j.created + {}, put, p);
    StaysShaped(was, backup, done, Elements(j.backedUp), p);
  }

  lemma TracksMoved(pre: Tree, root: Tree, was: Tree, backup: Tree, j: Journal, done: set<Path>, put: map<Path, Node>,
                    p: Path)
    requires Tracks(pre, root, was, j, {}, done, put)
    requires p != [] && forall r <- done :: !Comparable(p, r)
    requires was.Keys <= backup.Keys && forall q <- was.Keys :: backup[q] == was[q]
    requires forall q <- backup.Keys - was.Keys :: q <= Parent(p) && backup[q].Dir?
    requires p in root
    ensures var j', backup' := j.(backedUp := j.backedUp + [p]), Without(backup, p) + Under(root, p);
      && Tracks(pre, Without(root, p), backup', j', {}, done + {p}, put)
      && Elements(j'.backedUp) == Elements(j.backedUp) + {p}
      && p in pre
      && (Elements(j.backedUp) <= was.Keys ==> Elements(j'.backedUp) <= backup'.Keys)
  {
    var j' := j.(backedUp := j.backedUp + [p]);
    var gone, dirs := Elements(j.backedUp), j.created + {};
    StaysRecoverable(pre, was, backup, done, gone, p);
    StaysShaped(was, backup, done, gone, p);
    BackupStep(pre, done, gone, dirs, put, p);
    BackupApart(pre, done, gone, dirs, put, p);
    MovedIsRecoverable(pre, backup, done, gone, p);
    MovedIsShaped(root, backup, done + {p}, gone, p);
    assert Elements(j'.backedUp) == gone + {p};
    assert p !in gone;
    assert p !in j.backedUp;
    assert forall g <- gone :: !(p <= g);
  }

  lemma StaysShaped(was: Tree, backup: Tree, done: set<Path>, gone: set<Path>, p: Path)
    requires Shaped(was, done, gone) && p != []
    requires forall q <- was.Keys :: q in backup && backup[q] == was[q]
    requires forall q <- backup.Keys - was.Keys :: q <= Parent(p) && backup[q].Dir?
    ensures Shaped(backup, done + {p}, gone)
  {
    forall q <- backup.Keys | !Covered(gone, q) && q != [] ensures backup[q].Dir? && exists r <- done + {p} :: q < r {
      if q in was {
        var r :| r in done && q < r;
        assert r in done + {p};
      } else {
        assert q in backup.Keys - was.Keys;
        assert p in done + {p} && q < p;
      }
    }
  }

  lemma MovedIsShaped(root: Tree, backup: Tree, done: set<Path>, gone: set<Path>, p: Path)
    requires Shaped(backup, done, gone) && p != []
    ensures Shaped(Without(backup, p) + Under(root, p), done, gone + {p})
  {
    var b := Without(backup, p) + Under(root, p);
    forall q <- b.Keys ensures Covered(gone + {p}, q) || (b[q].Dir? && (q == [] || exists r <- done :: q < r)) {
      CoveredAdds(gone, p, q);
    }
  }

  // Where the next path goes in the backup, there is room for it.
  lemma BackupPlaceIsClear(pre: Tree, root: Tree, backup: Tree, j: Journal, done: set<Path>, put: map<Path, Node>,
                           p: Path)
    requires Tracks(pre, root, backup, j, {}, done, put)
    requires p != [] && forall r <- done :: !Comparable(p, r)
    requires [] in backup
    ensures Clear(backup, Parent(p)) && p !in backup
  {
    forall q <- backup.Keys | q <= p ensures backup[q].Dir? && q != p {
      if Covered(Elements(j.backedUp), q) {
        var g :| g in Elements(j.backedUp) && g <= q;
        assert Comparable(p, g);
        assert false;
      }
    }
  }

  lemma StagePlaceIsClear(stage: Tree, ops: seq<ChangeOperation>, n: nat)
    requires n < |ops| && Separate(ops) && OnlyStaged(stage, ops, n) && ops[n].path != []
    ensures Clear(stage, Parent(ops[n].path)) && ops[n].path !in stage
  {
    assert forall i :: 0 <= i < n ==> !Comparable(ops[i].path, ops[n].path);
  }

  // No file stands where a directory is needed.
  ghost predicate OpenWay(t: Tree, p: Path) {
    forall q <- t.Keys :: q < p ==> t[q].Dir?
  }

  ghost predicate OpenWays(t: Tree, ops: seq<ChangeOperation>) {
    forall i :: 0 <= i < |ops| && ops[i].after.Some? ==> OpenWay(t, ops[i].path)
  }

  lemma RootPlaceIsClear(pre: Tree, root: Tree, backup: Tree, j: Journal, done: set<Path>, put: map<Path, Node>,
                         p: Path)
    requires Tracks(pre, root, backup, j, {}, done, put)
    requires p in done && p != [] && [] in root && OpenWay(pre, p)
    ensures Clear(root, Parent(p))
  {
    forall q <- root.Keys | q <= Parent(p) ensures root[q].Dir? {
      assert q < p;
      if q in put { assert Comparable(q, p); assert false; }
    }
  }

  lemma WithDirsOfPresent(t: Tree, d: Path)
    requires Closed(t) && d in t
    ensures WithDirs(t, d) == t
  {
    PrefixesAre(d);
    forall q <- Prefixes(d) ensures q in t {
      if q != d { AncestorIsDir(t, q, d); }
    }
  }

  lemma WithDirsStep(t: Tree, d: Path)
    requires d != [] && d !in t
    ensures WithDirs(t, d) == WithDirs(t, Parent(d))[d := Dir]
  {
    PrefixesAre(d);
    PrefixesAre(Parent(d));
    forall q ensures q in Prefixes(d) <==> q in Prefixes(Parent(d)) || q == d {
    }
  }

  lemma OverwriteIsClosed(t: Tree, p: Path, content: Content)
    requires Closed(t) && p != [] && Parent(p) in t && t[Parent(p)].Dir?
    requires p !in t || t[p].File?
    ensures Closed(t[p := File(content)])
  {
    assert Parent(p) != p;
  }

  // What is absent between operations was absent before them, at a path not dealt with yet.
  lemma AbsentWasAbsent(pre: Tree, done: set<Path>, gone: set<Path>, dirs: set<Path>, put: map<Path, Node>, p: Path)
    requires Apart(pre, done, gone, dirs, put)
    requires forall r <- done :: !Comparable(p, r)
    requires p !in Midway(pre, gone, dirs, put)
    ensures p !in pre
  {
    UntouchedBelow(pre, done, gone, dirs, put, p);
    assert p in pre ==> p in Below(pre, p);
  }

  lemma StaysRecoverable(pre: Tree, was: Tree, backup: Tree, done: set<Path>, gone: set<Path>, p: Path)
    requires Recoverable(pre, was, gone) && gone <= done && p != []
    requires forall r <- done :: !Comparable(p, r)
    requires was.Keys <= backup.Keys && forall q <- was.Keys :: backup[q] == was[q]
    requires forall q <- backup.Keys - was.Keys :: q <= Parent(p)
    ensures Recoverable(pre, backup, gone)
  {
    forall g <- gone | g in backup ensures Under(backup, g) == Under(pre, g) {
      forall q <- backup.Keys - was.Keys ensures !(g <= q) {
      }
      assert backup.Keys == was.Keys + (backup.Keys - was.Keys);
      assert Below(backup, g) == Below(was, g);
      assert g in was;
    }
  }

  lemma MovedIsRecoverable(pre: Tree, backup: Tree, done: set<Path>, gone: set<Path>, p: Path)
    requires Recoverable(pre, backup, gone) && gone <= done
    requires forall r <- done :: !Comparable(p, r)
    ensures Recoverable(pre, Without(backup, p) + Under(pre, p), gone + {p})
  {
    var b := Without(backup, p) + Under(pre, p);
    forall g <- gone + {p} | g in b ensures Under(b, g) == Under(pre, g) {
      if g == p {
        assert Below(b, p) == Below(pre, p);
      } else {
        forall q <- b.Keys | g <= q ensures !(p <= q) {
          if p <= q { PrefixesCompare(g, p, q); assert false; }
        }
        assert Below(b, g) == Below(backup, g);
      }
    }
  }
}
