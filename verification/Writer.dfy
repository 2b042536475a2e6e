/** The atomic writer: stage, swap in file by file, roll back on failure. */
module Writer {
  import opened Wrappers
  import opened Ordering
  import opened Trees
  import opened ChangeSets
  import opened WriterModel
  import opened Journals
  import opened Nesting

  datatype CommandEffect = CommandEffect(ok: bool, tree: ClosedTree)

  datatype Outcome =
    | NotADirectory
    | CannotVerify(path: Path)
    | ConcurrentChange(paths: seq<Path>)
    | CommandFailed
    | NoScratch
    | Applied(paths: seq<Path>)
    | RolledBack(errors: seq<Path>)

  // The commands' work: they may do anything to the tree, and the first that fails stops the rest.
  function RunAll(runner: (Command, ClosedTree) -> CommandEffect, commands: seq<Command>,
                  t: ClosedTree): CommandEffect {
    if commands == [] then CommandEffect(true, t)
    else
      var effect := runner(commands[0], t);
      if effect.ok then RunAll(runner, commands[1..], effect.tree) else effect
  }

  // Each of the first k commands succeeded on the tree that the one before it left; the last of them left now.
  ghost predicate Ran(runner: (Command, ClosedTree) -> CommandEffect, commands: seq<Command>, k: nat, t: ClosedTree,
                      now: ClosedTree) {
    k <= |commands| && exists ts: seq<ClosedTree> :: RanThrough(runner, commands, k, t, now, ts)
  }

  ghost predicate RanThrough(runner: (Command, ClosedTree) -> CommandEffect, commands: seq<Command>, k: nat,
                             t: ClosedTree, now: ClosedTree, ts: seq<ClosedTree>)
    requires k <= |commands|
  {
    && |ts| == k + 1 && ts[0] == t && ts[k] == now
    && forall i :: 0 <= i < k ==> runner(commands[i], ts[i]) == CommandEffect(true, ts[i + 1])
  }

  ghost predicate AllRan(runner: (Command, ClosedTree) -> CommandEffect, commands: seq<Command>, t: ClosedTree,
                         now: ClosedTree) {
    Ran(runner, commands, |commands|, t, now)
  }

  // One command failed on the tree that those before it made, and left now; those behind it did not run.
  ghost predicate OneFailed(runner: (Command, ClosedTree) -> CommandEffect, commands: seq<Command>, t: ClosedTree,
                            now: ClosedTree) {
    exists k: nat, before: ClosedTree :: k < |commands| && FailedAt(runner, commands, t, now, k, before)
  }

  ghost predicate FailedAt(runner: (Command, ClosedTree) -> CommandEffect, commands: seq<Command>, t: ClosedTree,
                           now: ClosedTree, k: nat, before: ClosedTree)
    requires k < |commands|
  {
    Ran(runner, commands, k, t, before) && runner(commands[k], before) == CommandEffect(false, now)
  }

  /** Either all commands run, each on what the one before it left, or one of them fails and is the last to run. */
  lemma {:induction false} CommandsRun(runner: (Command, ClosedTree) -> CommandEffect, commands: seq<Command>,
                                       t: ClosedTree, now: ClosedTree)
    ensures RunAll(runner, commands, t) == CommandEffect(true, now) <==> AllRan(runner, commands, t, now)
    ensures RunAll(runner, commands, t) == CommandEffect(false, now) <==> OneFailed(runner, commands, t, now)
  {
    if commands == [] {
      assert RanThrough(runner, commands, 0, t, t, [t]);
    } else {
      var effect := runner(commands[0], t);
      if effect.ok {
        CommandsRun(runner, commands[1..], effect.tree, now);
        FirstRan(runner, commands, t);
      } else {
        FirstFailed(runner, commands, t);
      }
    }
  }

  lemma FirstRan(runner: (Command, ClosedTree) -> CommandEffect, commands: seq<Command>, t: ClosedTree)
    requires commands != [] && runner(commands[0], t).ok
    ensures var rest, left := commands[1..], runner(commands[0], t).tree;
      && (forall now :: AllRan(runner, commands, t, now) <==> AllRan(runner, rest, left, now))
      && forall now :: OneFailed(runner, commands, t, now) <==> OneFailed(runner, rest, left, now)
  {
    hide Ran;
    var rest, left := commands[1..], runner(commands[0], t).tree;
    forall k: nat, now: ClosedTree | k <= |rest|
      ensures Ran(runner, commands, k + 1, t, now) <==> Ran(runner, rest, k, left, now)
    {
      RanFromSecond(runner, commands, t, k, now);
    }
    forall now: ClosedTree ensures OneFailed(runner, commands, t, now) <==> OneFailed(runner, rest, left, now) {
      if OneFailed(runner, commands, t, now) {
        var k: nat, before: ClosedTree :| k < |commands| && FailedAt(runner, commands, t, now, k, before);
        if k == 0 { NoneRan(runner, commands, t, before); }
        assert FailedAt(runner, rest, left, now, k - 1, before);
      }
      if OneFailed(runner, rest, left, now) {
        var k: nat, before: ClosedTree :| k < |rest| && FailedAt(runner, rest, left, now, k, before);
        assert FailedAt(runner, commands, t, now, k + 1, before);
      }
    }
  }

  lemma RanFromSecond(runner: (Command, ClosedTree) -> CommandEffect, commands: seq<Command>, t: ClosedTree, k: nat,
                      now: ClosedTree)
    requires k < |commands| && runner(commands[0], t).ok
    ensures Ran(runner, commands, k + 1, t, now) <==> Ran(runner, commands[1..], k, runner(commands[0], t).tree, now)
  {
    var rest, left := commands[1..], runner(commands[0], t).tree;
    if Ran(runner, commands, k + 1, t, now) {
      var ts: seq<ClosedTree> :| RanThrough(runner, commands, k + 1, t, now, ts);
      assert RanThrough(runner, rest, k, left, now, ts[1..]);
    }
    if Ran(runner, rest, k, left, now) {
      var ts: seq<ClosedTree> :| RanThrough(runner, rest, k, left, now, ts);
      assert RanThrough(runner, commands, k + 1, t, now, [t] + ts);
    }
  }

  lemma NoneRan(runner: (Command, ClosedTree) -> CommandEffect, commands: seq<Command>, t: ClosedTree,
                now: ClosedTree)
    ensures Ran(runner, commands, 0, t, now) <==> now == t
  {
    assert RanThrough(runner, commands, 0, t, t, [t]);
  }

  lemma RanThroughFirst(runner: (Command, ClosedTree) -> CommandEffect, commands: seq<Command>, k: nat, t: ClosedTree,
                        now: ClosedTree, ts: seq<ClosedTree>)
    requires 0 < k <= |commands| && RanThrough(runner, commands, k, t, now, ts)
    ensures runner(commands[0], t).ok
  {
    assert runner(commands[0], ts[0]) == CommandEffect(true, ts[0 + 1]);
  }

  lemma FirstFailed(runner: (Command, ClosedTree) -> CommandEffect, commands: seq<Command>, t: ClosedTree)
    requires commands != [] && !runner(commands[0], t).ok
    ensures forall k: nat, now :: Ran(runner, commands, k, t, now) ==> k == 0 && now == t
    ensures forall now :: OneFailed(runner, commands, t, now) <==> now == runner(commands[0], t).tree
  {
    forall k: nat, now | Ran(runner, commands, k, t, now) ensures k == 0 && now == t {
      var ts: seq<ClosedTree> :| RanThrough(runner, commands, k, t, now, ts);
      if k > 0 { RanThroughFirst(runner, commands, k, t, now, ts); }
    }
    NoneRan(runner, commands, t, t);
    assert FailedAt(runner, commands, t, runner(commands[0], t).tree, 0, t);
  }

  // --- Optimistic concurrency check ---

  function DigestNow(t: Tree, p: Path): Option<Digest> {
    if p !in t then Some(ContentDigest(None))
    else match t[p]
      case Dir => Some(NotAFile)
      case File(Text(text)) => Some(Sha256(text))
      case File(Undecodable(_)) => None
  }

  function FirstUnreadable(t: Tree, ops: seq<ChangeOperation>): Option<Path> {
    if ops == [] then None
    else
      var earlier := FirstUnreadable(t, ops[..|ops| - 1]);
      if earlier.Some? then earlier
      else if DigestNow(t, ops[|ops| - 1].path).None? then Some(ops[|ops| - 1].path)
      else None
  }

  function Conflicts(t: Tree, ops: seq<ChangeOperation>): seq<Path> {
    if ops == [] then []
    else
      Conflicts(t, ops[..|ops| - 1]) +
      (if DigestNow(t, ops[|ops| - 1].path) == Some(ops[|ops| - 1].beforeDigest) then [] else [ops[|ops| - 1].path])
  }

  function Verified(t: Tree, ops: seq<ChangeOperation>): Option<Outcome> {
    match FirstUnreadable(t, ops)
    case Some(p) => Some(CannotVerify(p))
    case None => if Conflicts(t, ops) == [] then None else Some(ConcurrentChange(Conflicts(t, ops)))
  }

  method VerifyBeforeDigests(t: Tree, ops: seq<ChangeOperation>) returns (conflict: Option<Outcome>)
    ensures conflict == Verified(t, ops)
  {
    var conflicts := [];
    for n := 0 to |ops|
      invariant FirstUnreadable(t, ops[..n]).None?
      invariant conflicts == Conflicts(t, ops[..n])
    {
      assert ops[..n + 1][..n] == ops[..n];
      var digest := DigestNow(t, ops[n].path);
      if digest.None? {
        UnreadableIsFinal(t, ops, n + 1);
        return Some(CannotVerify(ops[n].path));
      }
      if digest.value != ops[n].beforeDigest {
        conflicts := conflicts + [ops[n].path];
      }
    }
    assert ops[..|ops|] == ops;
    return if conflicts == [] then None else Some(ConcurrentChange(conflicts));
  }

  lemma {:induction false} UnreadableIsFinal(t: Tree, ops: seq<ChangeOperation>, n: nat)
    requires n <= |ops| && FirstUnreadable(t, ops[..n]).Some?
    ensures FirstUnreadable(t, ops) == FirstUnreadable(t, ops[..n])
    decreases |ops| - n
  {
    if n < |ops| {
      assert ops[..n + 1][..n] == ops[..n];
      UnreadableIsFinal(t, ops, n + 1);
    } else {
      assert ops[..n] == ops;
    }
  }

  // A rename as the operating system allows it.
  predicate CanRename(src: Tree, dst: Tree, p: Path) {
    && p in src && p != []
    && Parent(p) in dst && dst[Parent(p)].Dir?
    && (p in dst ==>
          if dst[p].File? then src[p].File? else src[p].Dir? && Below(dst, p) == {p})
  }

  class AtomicWriter {
    // When an operating-system call fails, and what an interrupted rmtree spares.
    const faults: nat -> bool
    const spared: (nat, Path) -> bool
    const runner: (Command, ClosedTree) -> CommandEffect

    var root: ClosedTree
    var stage: Tree
    var backup: Tree
    var clock: nat

    // What happened, for the contracts to speak of.
    ghost var halfMade: bool    // a mkdir of several levels failed after making some of them
    ghost var lingered: bool    // an rmdir failed during the rollback
    ghost var purging: bool     // the removal of the backup began
    ghost var purged: bool      // the removal of the backup was finished
    ghost var failedAt: nat     // when the rollback began

    constructor (root: ClosedTree, faults: nat -> bool, spared: (nat, Path) -> bool,
                 runner: (Command, ClosedTree) -> CommandEffect)
      ensures this.root == root && this.faults == faults && this.runner == runner
      ensures clock == 0
    {
      this.root, this.stage, this.backup, this.clock := root, map[], map[], 0;
      this.faults, this.spared, this.runner := faults, spared, runner;
    }

    // No call fails any more.
    ghost predicate Quiet(from: nat) {
      forall n: nat :: n >= from ==> !faults(n)
    }

    method Strike() returns (fails: bool)
      modifies this`clock
      ensures clock == old(clock) + 1 && fails == faults(old(clock))
    {
      fails := faults(clock);
      clock := clock + 1;
    }

    // mkdir(parents=True, exist_ok=True)
    method MakeDirs(t: Tree, d: Path) returns (ok: bool, t': Tree)
      requires Closed(t)
      modifies this`clock
      ensures Closed(t') && clock >= old(clock)
      ensures t'.Keys >= t.Keys && forall q <- t.Keys :: t'[q] == t[q]
      ensures forall q <- t'.Keys - t.Keys :: q <= d && q != [] && t'[q].Dir?
      ensures ok ==> t' == WithDirs(t, d) && d in t' && t'[d].Dir?
      ensures d in t && t[d].Dir? ==> ok && t' == t && clock == old(clock)
      ensures Quiet(old(clock)) && Clear(t, d) ==> ok
      decreases |d|
    {
      if d in t {
        if t[d].Dir? { WithDirsOfPresent(t, d); }
        return t[d].Dir?, t;
      }
      if d == [] { return false, t; }
      ok, t' := MakeDirs(t, Parent(d));
      if !ok { return; }
      var fails := Strike();
      if fails { return false, t'; }
      WithDirsStep(t, d);
      t' := t'[d := Dir];
    }

    method Rename(src: Tree, dst: Tree, p: Path) returns (ok: bool, src': Tree, dst': Tree)
      modifies this`clock
      ensures clock >= old(clock)
      ensures ok ==> CanRename(src, dst, p) && src' == Without(src, p) && dst' == Without(dst, p) + Under(src, p)
      ensures !ok ==> src' == src && dst' == dst
      ensures CanRename(src, dst, p) && !faults(old(clock)) ==> ok
    {
      var fails := Strike();
      ok := !fails && CanRename(src, dst, p);
      src' := if ok then Without(src, p) else src;
      dst' := if ok then Without(dst, p) + Under(src, p) else dst;
    }

    // shutil.rmtree: all of it, or whatever an interrupted removal spares, with the directories above that.
    method RemoveTree(t: Tree) returns (ok: bool, t': Tree)
      requires Closed(t)
      modifies this`clock
      ensures clock >= old(clock) && Closed(t')
      ensures ok ==> t' == map[]
      ensures !faults(old(clock)) ==> ok
      ensures t'.Keys <= t.Keys && forall q <- t'.Keys :: t'[q] == t[q]
    {
      var at := clock;
      var fails := Strike();
      if !fails { return true, map[]; }
      t' := map q <- t.Keys | exists r <- t.Keys :: q <= r && spared(at, r) :: t[q];
      forall q <- t'.Keys | q != [] ensures Parent(q) in t' {
        var r :| r in t.Keys && q <= r && spared(at, r);
        assert Parent(q) <= r;
      }
      ok := false;
    }

    method StageText(p: Path, text: string) returns (ok: bool)
      requires Closed(stage) && p != []
      modifies this`stage, this`clock
      ensures clock >= old(clock) && Closed(stage)
      ensures OnlyAdds(old(stage), stage, p)
      ensures ok ==> p in stage && stage[p] == File(Text(text))
      ensures Quiet(old(clock)) && Clear(old(stage), Parent(p)) && p !in old(stage) ==> ok
    {
      hide WithDirs, Clear, OnlyAdds;
      var made;
      ok, made := MakeDirs(stage, Parent(p));
      AddsDirs(stage, made, p);
      if !ok { stage := made; return; }
      AddsFile(stage, made, p, Text(text));
      var fails := Strike();
      if fails || (p in made && made[p].Dir?) { stage := made; return false; }
      OverwriteIsClosed(made, p, Text(text));
      stage := made[p := File(Text(text))];
    }

    method StageContents(ops: seq<ChangeOperation>) returns (ok: bool)
      requires Closed(stage)
      requires forall i :: 0 <= i < |ops| ==> ops[i].path != []
      requires DistinctPaths(ops)
      modifies this`stage, this`clock
      ensures clock >= old(clock) && Closed(stage)
      ensures ok ==> Staged(stage, ops, 0, |ops|)
      ensures Separate(ops) && old(stage) == map[[] := Dir] && Quiet(old(clock)) ==> ok
    {
      hide Staged, OnlyStaged, OnlyAdds, Separate, DistinctPaths, Clear;
      NothingStaged(stage, ops);
      for n := 0 to |ops|
        invariant clock >= old(clock) && Closed(stage)
        invariant Staged(stage, ops, 0, n)
        invariant old(stage) == map[[] := Dir] ==> OnlyStaged(stage, ops, n)
      {
        ghost var was := stage;
        if ops[n].after.Some? {
          if Separate(ops) && OnlyStaged(stage, ops, n) { StagePlaceIsClear(stage, ops, n); }
          ok := StageText(ops[n].path, ops[n].after.value);
          if !ok { return; }
        }
        StagedStep(was, stage, ops, n);
        if OnlyStaged(was, ops, n) { OnlyStagedStep(was, stage, ops, n); }
      }
      return true;
    }

    method EnsureParent(parent: Path, created: set<Path>) returns (ok: bool, created': set<Path>)
      requires [] in root && root[[]].Dir?
      modifies this`root, this`clock, this`halfMade
      ensures clock >= old(clock)
      ensures [] in root && root[[]].Dir?
      ensures ok ==> root == WithDirs(old(root), parent) && parent in root && root[parent].Dir?
      ensures ok ==> created' == created + (Prefixes(parent) - old(root).Keys) && halfMade == old(halfMade)
      ensures root.Keys >= old(root).Keys && forall q <- old(root).Keys :: root[q] == old(root)[q]
      ensures forall q <- root.Keys - old(root).Keys :: q <= parent && q != [] && root[q].Dir?
      ensures Quiet(old(clock)) && Clear(old(root), parent) ==> ok
      ensures !ok ==> created' == created && halfMade == (old(halfMade) || root != old(root))
    {
      var missing: set<Path> := {};
      var candidate := parent;
      while candidate != [] && candidate !in root
        invariant candidate == parent[..|candidate|]
        invariant missing == set i | |candidate| < i <= |parent| :: parent[..i]
        invariant missing !! root.Keys
        decreases |candidate|
      {
        assert parent[..|candidate| - 1] == Parent(candidate);
        missing := missing + {candidate};
        candidate := Parent(candidate);
      }
      forall i | 0 <= i <= |parent| ensures parent[..i] in missing || parent[..i] in root {
        if i < |candidate| {
          assert parent[..i] < candidate;
          AncestorIsDir(root, parent[..i], candidate);
        }
      }
      ghost var was := root;
      var made;
      ok, made := MakeDirs(root, parent);
      root := made;
      if !ok { halfMade := halfMade || root != was; return false, created; }
      created' := created + missing;
    }

    // The first half of an operation: what stands at its path goes to the backup.
    method MoveToBackup(p: Path, j: Journal, ghost tracked: bool, ghost pre: Tree, ghost done: set<Path>,
                        ghost put: map<Path, Node>)
      returns (ok: bool, j': Journal)
      requires p != [] && [] in root && root[[]].Dir? && Closed(backup)
      requires tracked ==> Tracks(pre, root, backup, j, {}, done, put) && forall r <- done :: !Comparable(p, r)
      modifies this`root, this`backup, this`clock
      ensures clock >= old(clock)
      ensures [] in root && root[[]].Dir? && Closed(backup)
      ensures ok ==> p !in root && root == Without(old(root), p)
      ensures KeepsAround(old(root), root, p) && KeepsAround(old(backup), backup, p)
      ensures p !in old(root) ==> ok && root == old(root) && backup == old(backup) && j' == j
      ensures j'.installed == j.installed && j'.created == j.created
      ensures j'.backedUp == j.backedUp || j'.backedUp == j.backedUp + [p]
      ensures tracked ==> Tracks(pre, root, backup, j', {}, done + {p}, put)
      ensures tracked && Elements(j.backedUp) <= old(backup).Keys ==> Elements(j'.backedUp) <= backup.Keys
      ensures tracked && ok ==> Elements(j'.backedUp) == Elements(j.backedUp) + (if p in pre then {p} else {})
      ensures tracked && [] in old(backup) ==> [] in backup
      ensures tracked && [] in old(backup) && Quiet(old(clock)) ==> ok
    {
      hide Tracks, Comparable, WithDirs, KeepsAround;
      KeepsItself(root, backup, p);
      if p !in root {
        WithoutAbsent(root, p);
        if tracked { TracksAbsent(pre, root, backup, j, done, put, p); }
        return true, j;
      }
      j' := j;
      ghost var was := backup;
      if tracked && [] in backup { BackupPlaceIsClear(pre, root, backup, j, done, put, p); }
      ok, backup := MakeDirs(backup, Parent(p));
      if tracked { TracksBackupDirs(pre, root, was, backup, j, done, put, p); }
      KeepsMore(was, backup, p);
      if !ok { return; }
      assert p in was || p !in backup;
      ghost var root0, backup0 := root, backup;
      var src, dst;
      ok, src, dst := Rename(root, backup, p);
      if !ok { return; }
      WithoutIsClosed(root0, p);
      RestoreIsClosed(backup0, root0, p);
      KeepsMoved(was, backup0, root0, p);
      KeepsWithout(root0, p);
      root, backup := src, dst;
      j' := j.(backedUp := j.backedUp + [p]);
      if tracked { TracksMoved(pre, root0, was, backup0, j, done, put, p); }
    }

    // EnsureParent, with what it made entered in the journal.
    method MakeRoom(p: Path, j: Journal, ghost tracked: bool, ghost pre: Tree, ghost done: set<Path>,
                    ghost put: map<Path, Node>)
      returns (ok: bool, j': Journal, ghost stray: set<Path>)
      requires p != [] && [] in root && root[[]].Dir? && p !in root
      requires tracked ==> Tracks(pre, root, backup, j, {}, done, put) && p in done
      modifies this`root, this`clock, this`halfMade
      ensures clock >= old(clock)
      ensures [] in root && root[[]].Dir? && p !in root
      ensures j'.backedUp == j.backedUp && j'.installed == j.installed
      ensures halfMade == (old(halfMade) || stray != {}) && (ok ==> stray == {})
      ensures ok ==> root == WithDirs(old(root), Parent(p)) && Parent(p) in root && root[Parent(p)].Dir?
      ensures MakesDirs(old(root), root, p) && (root == old(root) ==> j' == j && stray == {})
      ensures tracked ==> Tracks(pre, root, backup, j', stray, done, put)
      ensures tracked && Quiet(old(clock)) && OpenWay(pre, p) ==> ok
    {
      var created;
      if tracked && OpenWay(pre, p) { RootPlaceIsClear(pre, root, backup, j, done, put, p); }
      ghost var root0 := root;
      ok, created := EnsureParent(Parent(p), j.created);
      j', stray := j.(created := created), if ok then {} else root.Keys - root0.Keys;
      if ok {
        MadeByWithDirs(root0, Parent(p));
      } else {
        SameKeysSameTree(root0, root);
      }
      if tracked { TracksDirs(pre, root0, root, backup, j, done, put, p, j', stray); }
    }

    method SwapIn(p: Path, text: string) returns (ok: bool)
      requires p != [] && p !in root && Closed(stage) && p in stage && stage[p] == File(Text(text))
      modifies this`root, this`stage, this`clock
      ensures clock >= old(clock) && Closed(stage)
      ensures ok ==> root == old(root)[p := File(Text(text))] && stage == old(stage) - {p}
      ensures !ok ==> root == old(root) && stage == old(stage)
      ensures !faults(old(clock)) && Parent(p) in old(root) && old(root)[Parent(p)].Dir? ==> ok
    {
      var src, dst;
      ok, src, dst := Rename(stage, root, p);
      if !ok { return; }
      PlaceIsPut(root, stage, p);
      PutIsClosed(root, p, Text(text));
      WithoutIsClosed(stage, p);
      stage, root := src, dst;
    }

    // The second half: the staged file goes in, below whatever directories it needs.
    method PlaceNew(p: Path, text: string, j: Journal, ghost tracked: bool, ghost pre: Tree, ghost done: set<Path>,
                    ghost put: map<Path, Node>)
      returns (ok: bool, j': Journal, ghost stray: set<Path>)
      requires p != [] && [] in root && root[[]].Dir? && p !in root
      requires Closed(stage) && p in stage && stage[p] == File(Text(text))
      requires tracked ==> Tracks(pre, root, backup, j, {}, done, put) && p in done && p !in j.installed
      modifies this`root, this`stage, this`clock, this`halfMade
      ensures clock >= old(clock)
      ensures [] in root && root[[]].Dir? && Closed(stage)
      ensures stage == old(stage) || stage == old(stage) - {p}
      ensures j'.backedUp == j.backedUp
      ensures halfMade == (old(halfMade) || stray != {}) && (ok ==> stray == {})
      ensures ok ==> root == WithDirs(old(root), Parent(p))[p := File(Text(text))]
      ensures !ok ==> MakesDirs(old(root), root, p) && (root == old(root) ==> j' == j && stray == {})
      ensures j'.installed == if ok then j.installed + [p] else j.installed
      ensures tracked ==> Tracks(pre, root, backup, j', stray, done, if ok then put[p := File(Text(text))] else put)
      ensures tracked && Quiet(old(clock)) && OpenWay(pre, p) ==> ok
    {
      hide Tracks, WithDirs, MakesDirs;
      ok, j', stray := MakeRoom(p, j, tracked, pre, done, put);
      if !ok { return; }
      ghost var root1 := root;
      ok := SwapIn(p, text);
      if !ok { return; }
      if tracked { TracksPut(pre, root1, backup, j', done, put, p, Text(text)); }
      j' := j'.(installed := j'.installed + [p]);
    }

    method InstallOne(op: ChangeOperation, j: Journal, ghost tracked: bool, ghost pre: Tree, ghost done: set<Path>,
                      ghost put: map<Path, Node>)
      returns (ok: bool, j': Journal, ghost stray: set<Path>, ghost put': map<Path, Node>)
      requires op.path != [] && [] in root && root[[]].Dir? && Closed(stage) && Closed(backup)
      requires op.after.Some? ==> op.path in stage && stage[op.path] == File(Text(op.after.value))
      requires tracked ==> Tracks(pre, root, backup, j, {}, done, put) && forall r <- done :: !Comparable(op.path, r)
      modifies this`root, this`stage, this`backup, this`clock, this`halfMade
      ensures clock >= old(clock)
      ensures [] in root && root[[]].Dir? && Closed(stage) && Closed(backup)
      ensures stage == old(stage) || stage == old(stage) - {op.path}
      ensures halfMade == (old(halfMade) || stray != {}) && (ok ==> stray == {})
      ensures j'.backedUp == j.backedUp || j'.backedUp == j.backedUp + [op.path]
      ensures Swaps(op, old(root), old(backup), j, ok, root, backup, j', stray)
      ensures put'.Keys == put.Keys || (put'.Keys == put.Keys + {op.path} && op.after.Some?)
      ensures tracked ==> Tracks(pre, root, backup, j', stray, done + {op.path}, put')
      ensures tracked && Elements(j.backedUp) <= old(backup).Keys ==> Elements(j'.backedUp) <= backup.Keys
      ensures tracked && ok ==>
        Elements(j'.backedUp) == Elements(j.backedUp) + (if op.path in pre then {op.path} else {})
      ensures tracked && [] in old(backup) ==> [] in backup
      ensures tracked && [] in old(backup) && Quiet(old(clock)) && (op.after.Some? ==> OpenWay(pre, op.path)) ==> ok
    {
      hide Tracks, WithDirs, MakesDirs, KeepsAround, Comparable;
      stray, put' := {}, put;
      if tracked { TracksNotYet(pre, root, backup, j, done, put, op.path); }
      ghost var root0 := root;
      ok, j' := MoveToBackup(op.path, j, tracked, pre, done, put);
      if !ok || op.after.None? { return; }
      ghost var root1 := root;
      ok, j', stray := PlaceNew(op.path, op.after.value, j', tracked, pre, done + {op.path}, put);
      put' := if ok then put[op.path := File(Text(op.after.value))] else put;
      SwapKeeps(root0, root1, root, op, ok);
    }

    // One operation of the loop, and how things stand after it.
    method InstallNext(ops: seq<ChangeOperation>, n: nat, j: Journal, ghost pre: Tree, ghost f: Footing)
      returns (ok: bool, j': Journal, ghost stray: set<Path>, ghost f': Footing)
      requires n < |ops| && ops[n].path != [] && [] in root && root[[]].Dir? && Closed(stage) && Closed(backup)
      requires ops[n].after.Some? ==> ops[n].path in stage && stage[ops[n].path] == File(Text(ops[n].after.value))
      requires StandsWell(pre, root, backup, j, ops, n, f)
      modifies this`root, this`stage, this`backup, this`clock, this`halfMade
      ensures clock >= old(clock)
      ensures [] in root && root[[]].Dir? && Closed(stage) && Closed(backup)
      ensures stage == old(stage) || stage == old(stage) - {ops[n].path}
      ensures halfMade == (old(halfMade) || stray != {}) && (ok ==> stray == {})
      ensures j'.backedUp == j.backedUp || j'.backedUp == j.backedUp + [ops[n].path]
      ensures ok ==> root == PutOperation(old(root), ops[n])
      ensures Stands(pre, root, backup, j', stray, ops, n + 1, f')
      ensures (ok ==> StandsWell(pre, root, backup, j', ops, n + 1, f'))
      ensures Separate(ops) && Quiet(old(clock)) && OpenWays(pre, ops) ==> ok
    {
      hide Tracks, Effective, Reviewed, Blocked, Separate, Comparable, PutOperation, KeepsAround, MakesDirs, Elements,
        PathsUpTo, OpenWay;
      ghost var clash := f.tracked && Clashes(f.done, ops[n].path);
      ghost var root0, backup0 := root, backup;
      if clash { SeparateDoesNotClash(pre, ops, n, f.done, f.put); }
      if f.tracked && !clash { NoClash(f.done, ops[n].path); }
      ghost var put';
      ok, j', stray, put' := InstallOne(ops[n], j, f.tracked && !clash, pre, f.done, f.put);
      if clash {
        f' := ClashStep(pre, root0, backup0, j, ops, n, f, ok, root, backup, j', stray);
      } else if f.tracked {
        f' := FollowStep(pre, root0, backup0, j, ops, n, f, ok, root, backup, j', stray, put');
      } else {
        f' := f;
        BlockedStep(pre, root0, backup0, j, ops, n, f, ok, root, backup, j', stray);
      }
    }

    method InstallAll(ops: seq<ChangeOperation>)
      returns (ok: bool, j: Journal, ghost stray: set<Path>, ghost f: Footing)
      requires [] in root && root[[]].Dir? && Closed(stage) && backup == map[[] := Dir] && !halfMade
      requires forall i :: 0 <= i < |ops| ==> ops[i].path != []
      requires DistinctPaths(ops) && Staged(stage, ops, 0, |ops|)
      modifies this`root, this`stage, this`backup, this`clock, this`halfMade
      ensures clock >= old(clock)
      ensures [] in root && root[[]].Dir? && Closed(stage) && Closed(backup)
      ensures halfMade <==> stray != {}
      ensures forall i :: 0 <= i < |j.backedUp| ==> j.backedUp[i] != []
      ensures ok ==> root == Installed(old(root), ops) && stray == {}
      // The journal tracks the tree, or a file is blocked.
      ensures Stands(old(root), root, backup, j, stray, ops, |ops|, f)
      ensures f.tracked && ok ==> Elements(j.backedUp) == PathsUpTo(ops, |ops|) * old(root).Keys
      ensures Separate(ops) && Quiet(old(clock)) && OpenWays(old(root), ops) ==> ok
    {
      hide Tracks, Separate, Comparable, PutOperation, PathsUpTo, Stands, Effective, Reviewed, OpenWays, Elements;
      ghost var pre := root;
      j, stray, f := Journal([], [], {}), {}, Footing(true, {}, map[], []);
      StandsAtFirst(pre, ops);
      for n := 0 to |ops|
        invariant clock >= old(clock)
        invariant [] in root && root[[]].Dir? && Closed(stage) && Closed(backup) && !halfMade && stray == {}
        invariant Staged(stage, ops, n, |ops|)
        invariant forall i :: 0 <= i < |j.backedUp| ==> j.backedUp[i] != []
        invariant root == Installed(pre, ops[..n])
        invariant StandsWell(pre, root, backup, j, ops, n, f)
      {
        assert ops[..n + 1][..n] == ops[..n];
        ok, j, stray, f := InstallNext(ops, n, j, pre, f);
        if !ok { StandsOn(pre, root, backup, j, stray, ops, n + 1, f); return; }
      }
      assert ops[..|ops|] == ops;
      ok := true;
    }

    method Unlink(p: Path) returns (ok: bool)
      requires [] in root && root[[]].Dir?
      modifies this`root, this`clock
      ensures clock >= old(clock)
      ensures [] in root && root[[]].Dir?
      ensures ok ==> root == old(root) - {p}
      ensures KeepsDirs(old(root), root)
      ensures !faults(old(clock)) && (p !in old(root) || old(root)[p].File?) ==> ok
    {
      var fails := Strike();
      if p !in root && !fails { assert root == root - {p}; return true; }
      if fails || root[p].Dir? { return false; }
      UnlinkIsClosed(root, p);
      root := root - {p};
      ok := true;
    }

    method UnlinkInstalled(installed: seq<Path>, ghost tracked: bool, ghost pre: Tree, ghost done: set<Path>,
                           ghost gone: set<Path>,
                           ghost dirs: set<Path>, ghost put: map<Path, Node>)
      returns (errors: seq<Path>)
      requires [] in root && root[[]].Dir?
      requires tracked ==>
        Apart(pre, done, gone, dirs, put) && root == Midway(pre, gone, dirs, put)
        && put.Keys == Elements(installed)
      modifies this`root, this`clock
      ensures clock >= old(clock)
      ensures [] in root && root[[]].Dir?
      ensures tracked && errors == [] ==> Apart(pre, done, gone, dirs, map[]) && root == Midway(pre, gone, dirs, map[])
      ensures tracked && Quiet(old(clock)) ==> errors == []
      ensures KeepsDirs(old(root), root)
    {
      errors := [];
      ghost var standing := put;
      for n := |installed| downto 0
        invariant clock >= old(clock)
        invariant [] in root && root[[]].Dir?
        invariant tracked && errors == [] ==>
          Apart(pre, done, gone, dirs, standing) && root == Midway(pre, gone, dirs, standing)
        invariant KeepsDirs(old(root), root)
        invariant tracked ==> standing.Keys <= Elements(installed[..n])
        invariant tracked ==> forall p <- Elements(installed) :: p in done && (p in gone || p !in pre)
        invariant tracked && Quiet(old(clock)) ==> errors == []
      {
        var p := installed[n];
        if tracked && errors == [] {
          UnlinkStep(pre, done, gone, dirs, standing, p);
          UnlinkApart(pre, done, gone, dirs, standing, p);
        }
        var ok := Unlink(p);
        if !ok { errors := errors + [p]; }
        assert Elements(installed[..n + 1]) == Elements(installed[..n]) + {p};
        standing := standing - {p};
      }
      assert tracked ==> standing == map[];
    }

    method RestoreOne(g: Path, ghost tracked: bool, ghost pre: Tree, ghost done: set<Path>, ghost lost: set<Path>,
                      ghost dirs: set<Path>)
      returns (ok: bool)
      requires [] in root && root[[]].Dir? && Closed(backup) && g != []
      requires tracked ==> g in lost && Undoing(pre, root, backup, done, lost, dirs)
      modifies this`root, this`backup, this`clock
      ensures clock >= old(clock)
      ensures [] in root && root[[]].Dir? && Closed(backup)
      ensures tracked ==> Undoing(pre, root, backup, done, if ok then lost - {g} else lost, dirs)
      ensures tracked && lost <= old(backup).Keys ==> (if ok then lost - {g} else lost) <= backup.Keys
      ensures tracked && g in old(backup) && !faults(old(clock)) ==> ok
      ensures g !in old(backup) ==> !ok && backup == old(backup)
      ensures KeepsAround(old(root), root, g) && backup.Keys <= old(backup).Keys
      ensures forall q <- backup.Keys :: backup[q] == old(backup)[q]
      ensures g in old(root) && old(root)[g].Dir? && (g in old(backup) ==> old(backup)[g].File?) ==> !ok
    {
      hide Apart, Covered, Lost, Recoverable, Midway;
      if tracked { RestorePlace(pre, done, lost, dirs, g); NoneBelow(root, g); }
      ghost var before := root;
      var made;
      ok, made := MakeDirs(root, Parent(g));
      root := made;
      if !ok { return; }
      ghost var root1, backup1 := root, backup;
      var src, dst;
      ok, src, dst := Rename(backup, root, g);
      if !ok { return; }
      RestoreIsClosed(root1, backup1, g);
      WithoutIsClosed(backup1, g);
      KeepsMoved(before, root1, backup1, g);
      backup, root := src, dst;
      if tracked { UndoingRestored(pre, root1, backup1, done, lost, dirs, g); }
    }

    method RestoreBackedUp(backedUp: seq<Path>, ghost tracked: bool, ghost pre: Tree, ghost done: set<Path>,
                           ghost dirs: set<Path>,
                           ghost above: Path)
      returns (errors: seq<Path>, ghost lost: set<Path>)
      requires [] in root && root[[]].Dir? && Closed(backup)
      requires forall i :: 0 <= i < |backedUp| ==> backedUp[i] != []
      requires tracked ==> Unique(backedUp) && Undoing(pre, root, backup, done, Elements(backedUp), dirs)
      modifies this`root, this`backup, this`clock
      ensures clock >= old(clock)
      ensures [] in root && root[[]].Dir? && Closed(backup)
      ensures tracked ==> Undoing(pre, root, backup, done, lost, dirs)
      ensures tracked && errors == [] ==> lost == {}
      ensures tracked && Elements(backedUp) <= old(backup).Keys && Quiet(old(clock)) ==> errors == []
      ensures tracked && old(backup) == map[] ==> lost == Elements(backedUp)
      // A blocked file is not restored.
      ensures Blocked(old(root), old(backup), backedUp, above) ==> errors != []
    {
      hide KeepsAround;
      ghost var blocked := Blocked(root, backup, backedUp, above);
      assert blocked ==> above in backedUp[..|backedUp|] by { assert backedUp[..|backedUp|] == backedUp; }
      errors, lost := [], Elements(backedUp);
      ghost var start := clock;
      for n := |backedUp| downto 0
        invariant clock >= start
        invariant [] in root && root[[]].Dir? && Closed(backup)
        invariant tracked ==> Undoing(pre, root, backup, done, lost, dirs)
        invariant tracked ==> Elements(backedUp[..n]) <= lost
        invariant tracked && errors == [] ==> lost <= Elements(backedUp[..n])
        invariant Elements(backedUp) <= old(backup).Keys && Quiet(start) && tracked ==>
          errors == [] && lost <= backup.Keys
        invariant old(backup) == map[] ==> lost == Elements(backedUp) && backup == map[]
        invariant blocked ==> errors != [] || (above in backedUp[..n] && Blocked(root, backup, backedUp, above))
      {
        var g := backedUp[n];
        ghost var root0, backup0 := root, backup;
        assert Elements(backedUp[..n + 1]) == Elements(backedUp[..n]) + {g};
        assert tracked ==> g !in Elements(backedUp[..n]);
        var ok := RestoreOne(g, tracked, pre, done, lost, dirs);
        if blocked && errors == [] { BlockedOrNot(root0, root, backup0, backup, backedUp, n, above, ok); }
        if ok { lost := lost - {g}; } else { errors := errors + [g]; }
      }
    }

    // directory.rmdir(), its failure suppressed
    method Rmdir(d: Path) returns (ok: bool)
      requires [] in root && root[[]].Dir?
      modifies this`root, this`clock, this`lingered
      ensures clock >= old(clock)
      ensures [] in root && root[[]].Dir?
      ensures ok ==> d in old(root) && root == old(root) - {d} && lingered == old(lingered)
      ensures !ok ==> root == old(root) && (old(lingered) ==> lingered)
      ensures d != [] && d in old(root) && old(root)[d].Dir? && Below(old(root), d) == {d} ==> ok || lingered
      ensures !faults(old(clock)) ==> lingered == old(lingered)
      ensures lingered && !old(lingered) ==> !ok
    {
      var fails := Strike();
      lingered := lingered || fails;
      if fails || d == [] || d !in root || root[d].File? || Below(root, d) != {d} { return false; }
      RmdirIsClosed(root, d);
      root := root - {d};
      ok := true;
    }

    method RemoveCreated(created: set<Path>, ghost tracked: bool, ghost pre: Tree, ghost done: set<Path>,
                         ghost lost: set<Path>,
                         ghost stray: set<Path>)
      returns (ghost left: set<Path>)
      requires [] in root && root[[]].Dir? && !lingered
      requires tracked ==>
        created !! stray && Apart(pre, done, lost, created + stray, map[])
        && root == Midway(pre, lost, created + stray, map[])
      modifies this`root, this`clock, this`lingered
      ensures clock >= old(clock)
      ensures [] in root && root[[]].Dir?
      ensures tracked ==> Apart(pre, done, lost, left, map[]) && root == Midway(pre, lost, left, map[])
      ensures tracked ==> (left == {} <==> stray == {} && !lingered)
      ensures Quiet(old(clock)) ==> !lingered
    {
      hide Apart, Lost, Midway;
      var remaining := created;
      left := created + stray;
      while remaining != {}
        invariant clock >= old(clock)
        invariant [] in root && root[[]].Dir?
        invariant remaining <= left && (tracked ==> stray <= left - remaining)
        invariant stray == {} && !lingered && tracked ==> left == remaining
        invariant lingered ==> left - remaining != {}
        invariant tracked ==> Apart(pre, done, lost, left, map[]) && root == Midway(pre, lost, left, map[])
        invariant Quiet(old(clock)) ==> !lingered
        decreases remaining
      {
        DeepestExists(remaining);
        var d :| d in remaining && forall e <- remaining :: |e| <= |d|;
        if tracked {
          RmdirStep(pre, done, lost, left, d);
          RmdirApart(pre, done, lost, left, d);
          if stray == {} && !lingered {
            DeepestIsEmpty(pre, done, lost, left, d);
            ChildlessIsEmpty(root, d);
            DirsAreNoRoot(pre, done, lost, left, d);
          }
        }
        ghost var kept := left - remaining;
        var ok := Rmdir(d);
        remaining := remaining - {d};
        if ok { left := left - {d}; }
        assert left - remaining == if ok then kept else kept + {d};
      }
    }

    method Rollback(j: Journal, ghost tracked: bool, ghost pre: Tree, ghost stray: set<Path>, ghost done: set<Path>,
                    ghost put: map<Path, Node>, ghost above: Path)
      returns (errors: seq<Path>, ghost lost: set<Path>, ghost left: set<Path>)
      requires [] in root && root[[]].Dir? && Closed(backup) && !lingered
      requires forall i :: 0 <= i < |j.backedUp| ==> j.backedUp[i] != []
      requires tracked ==> Tracks(pre, root, backup, j, stray, done, put)
      modifies this`root, this`backup, this`clock, this`lingered
      ensures clock >= old(clock)
      ensures [] in root && root[[]].Dir? && Closed(backup)
      ensures tracked && errors == [] ==> Apart(pre, done, {}, left, map[]) && root == Midway(pre, {}, left, map[])
      ensures tracked && errors == [] ==> (left == {} <==> stray == {} && !lingered)
      ensures tracked && Elements(j.backedUp) <= old(backup).Keys && Quiet(old(clock)) ==> errors == []
      ensures tracked && old(backup) == map[] && Quiet(old(clock)) && stray == {} ==>
        root == Midway(pre, Elements(j.backedUp), {}, map[])
      ensures Blocked(old(root), old(backup), j.backedUp, above) ==> errors != []
    {
      hide Apart, Lost, Midway, Recoverable;
      ghost var root0 := root;
      var unlinkErrors :=
        UnlinkInstalled(j.installed, tracked, pre, done, Elements(j.backedUp), j.created + stray, put);
      ghost var exact := tracked && unlinkErrors == [];
      var restoreErrors;
      if Blocked(root0, backup, j.backedUp, above) { BlockedUnlinked(root0, root, backup, j.backedUp, above); }
      restoreErrors, lost := RestoreBackedUp(j.backedUp, exact, pre, done, j.created + stray, above);
      left := RemoveCreated(j.created, exact, pre, done, lost, stray);
      errors := unlinkErrors + restoreErrors;
    }

    method MakeScratch() returns (ok: bool)
      modifies this`stage, this`backup, this`clock
      ensures clock >= old(clock)
      ensures ok ==> [] in root && root[[]].Dir? && stage == map[[] := Dir] && backup == map[[] := Dir]
      ensures [] in root && root[[]].Dir? && Quiet(old(clock)) ==> ok
    {
      if [] !in root || root[[]].File? { return false; }
      var fails := Strike();
      if fails { return false; }
      stage := map[[] := Dir];
      fails := Strike();
      if fails { return false; }
      backup := map[[] := Dir];
      ok := true;
    }

    // Staging, installing and clearing away the backup and the stage.
    method Attempt(ops: seq<ChangeOperation>) returns (ok: bool, j: Journal, ghost stray: set<Path>, ghost f: Footing)
      requires [] in root && root[[]].Dir? && stage == map[[] := Dir] && backup == map[[] := Dir]
      requires !halfMade && !purging && !purged
      requires DistinctPaths(ops) && Topdown(ops) && forall i :: 0 <= i < |ops| ==> ops[i].path != []
      modifies this`root, this`stage, this`backup, this`clock, this`halfMade, this`purging, this`purged
      ensures clock >= old(clock)
      ensures [] in root && root[[]].Dir? && Closed(stage) && Closed(backup)
      ensures forall i :: 0 <= i < |j.backedUp| ==> j.backedUp[i] != []
      ensures ok ==> root == Installed(old(root), ops) && stage == map[] && backup == map[]
      ensures halfMade <==> stray != {}
      ensures purged ==> backup == map[] && stray == {}
      // What the rollback can go by: a journal that tracks the tree; and if there is none, a file that is blocked.
      ensures f.tracked ==> Tracks(old(root), root, backup, j, stray, f.done, f.put) && f.done <= PathsUpTo(ops, |ops|)
      ensures Separate(ops) && (purging && !purged ==> PlainTargets(old(root), ops)) ==> f.tracked
      ensures PlainTargets(old(root), ops) ==> f.tracked || Blocked(root, backup, j.backedUp, f.above)
      ensures f.tracked && !purging ==> Elements(j.backedUp) <= backup.Keys
      ensures f.tracked && purged ==> Elements(j.backedUp) == PathsUpTo(ops, |ops|) * old(root).Keys
      ensures Separate(ops) && Quiet(old(clock)) && OpenWays(old(root), ops) ==> ok
    {
      hide Tracks, Separate, PlainTargets, PathsUpTo, Topdown, NoFileAbove, Blocked, Effective, OpenWays, Elements;
      j, stray, f := Journal([], [], {}), {}, Footing(true, {}, map[], []);
      StandsAtFirst(root, ops);
      NoPathsYet(ops);
      NothingBackedUp();
      ok := StageContents(ops);
      if !ok { return; }
      StagedHasNoFileAbove(stage, ops);
      ghost var pre := root;
      ok, j, stray, f := InstallAll(ops);
      if f.tracked { EffectiveIsUpTo(pre, ops, |ops|, f.done, f.put); }
      if !ok { return; }
      ok, f := PurgeBackup(ops, j, pre, f);
      if !ok { return; }
      ok, stage := RemoveTree(stage);
    }

    method PurgeBackup(ops: seq<ChangeOperation>, ghost j: Journal, ghost pre: Tree, ghost f: Footing)
      returns (ok: bool, ghost f': Footing)
      requires Closed(backup) && !purging && !purged
      requires f.tracked ==> Tracks(pre, root, backup, j, {}, f.done, f.put) && f.done <= PathsUpTo(ops, |ops|)
      modifies this`backup, this`clock, this`purging, this`purged
      ensures clock >= old(clock) && Closed(backup) && purging && purged == ok
      ensures ok ==> backup == map[]
      ensures f' == f.(tracked := f.tracked && (purged || PlainTargets(pre, ops)))
      ensures f'.tracked ==> Tracks(pre, root, backup, j, {}, f.done, f.put)
      ensures Blocked(root, old(backup), j.backedUp, f.above) ==> Blocked(root, backup, j.backedUp, f.above)
      ensures Quiet(old(clock)) ==> ok
    {
      hide Tracks, PlainTargets, PathsUpTo;
      purging := true;
      ghost var was := backup;
      ok, backup := RemoveTree(backup);
      purged := ok;
      f' := f.(tracked := f.tracked && (purged || PlainTargets(pre, ops)));
      if f'.tracked { TracksPurged(pre, root, was, backup, j, f.done, f.put, ops); }
      if Blocked(root, was, j.backedUp, f.above) { BlockedPurged(root, was, backup, j.backedUp, f.above); }
    }

    // rmtree(ignore_errors=True), twice
    method ClearScratch()
      requires Closed(stage) && Closed(backup)
      modifies this`stage, this`backup, this`clock
    {
      var _, stageLeft := RemoveTree(stage);
      var _, backupLeft := RemoveTree(backup);
      stage, backup := stageLeft, backupLeft;
    }

    // The guarded part of an apply: an attempt, undone if it fails.
    method Swap(ops: seq<ChangeOperation>) returns (outcome: Outcome)
      requires [] in root && root[[]].Dir? && stage == map[[] := Dir] && backup == map[[] := Dir]
      requires !halfMade && !lingered && !purging && !purged
      requires DistinctPaths(ops) && Topdown(ops) && forall i :: 0 <= i < |ops| ==> ops[i].path != []
      modifies this
      ensures outcome.Applied? || outcome.RolledBack?
      ensures Separate(ops) && Quiet(old(clock)) && OpenWays(old(root), ops) ==> outcome.Applied?
      ensures outcome.Applied? ==>
        root == Installed(old(root), ops) && outcome.paths == Paths(ops) && stage == map[] && backup == map[]
      ensures var pre := old(root);
        outcome.RolledBack? && outcome.errors == [] && (PlainTargets(pre, ops) || (Separate(ops) && !purging)) ==>
          Restored(pre, root, ops) && (root == pre <==> !halfMade && !lingered)
      ensures outcome.RolledBack? && Separate(ops) && !purging && Quiet(failedAt) ==> outcome.errors == []
      ensures outcome.RolledBack? && purged && Separate(ops) && Quiet(failedAt) ==>
        root == old(root) - Lost(old(root), PathsUpTo(ops, |ops|) * old(root).Keys)
    {
      hide Tracks, Apart, Lost, Midway, Separate, Installed, PlainTargets, Restored, PathsUpTo, Topdown, Blocked;
      ghost var pre := root;
      var ok, j;
      ghost var stray, f;
      ok, j, stray, f := Attempt(ops);
      if ok { return Applied(Paths(ops)); }
      failedAt := clock;
      var errors;
      ghost var lost, left;
      errors, lost, left := Rollback(j, f.tracked, pre, stray, f.done, f.put, f.above);
      if f.tracked && errors == [] { RolledBackTo(pre, root, f.done, left, ops); }
      LateLoss(pre, Elements(j.backedUp));
      ClearScratch();
      outcome := RolledBack(errors);
    }

    // The commands of a ChangeSet, one after the other.
    method RunCommands(commands: seq<Command>) returns (ok: bool)
      modifies this`root
      ensures CommandEffect(ok, root) == RunAll(runner, commands, old(root))
    {
      for n := 0 to |commands|
        invariant RunAll(runner, commands, old(root)) == RunAll(runner, commands[n..], root)
      {
        var effect := runner(commands[n], root);
        root := effect.tree;
        if !effect.ok { return false; }
        assert commands[n..][1..] == commands[n + 1..];
      }
      ok := true;
    }

    // The apply of a ChangeSet that passed its check.
    method ApplyChecked(cs: ChangeSet) returns (outcome: Outcome)
      requires ValidChangeSet(cs) && [] in root && root[[]].Dir?
      requires !halfMade && !lingered && !purging && !purged
      modifies this
      ensures outcome.CommandFailed? || outcome.NoScratch? || outcome.Applied? || outcome.RolledBack?
      ensures var done := RunAll(runner, cs.commands, old(root));
        && (outcome.CommandFailed? || outcome.NoScratch? ==> root == done.tree)
        && (outcome.CommandFailed? <==> !done.ok)
      ensures var pre, ops := RunAll(runner, cs.commands, old(root)).tree, Mutable(cs.operations);
        outcome.Applied? ==> root == Installed(pre, ops) && outcome.paths == Paths(ops)
      ensures var done, ops := RunAll(runner, cs.commands, old(root)), Mutable(cs.operations);
        done.ok && [] in done.tree && done.tree[[]].Dir? && Quiet(old(clock)) && Separate(ops)
          && OpenWays(done.tree, ops)
        ==> outcome.Applied?
      ensures var pre, ops := RunAll(runner, cs.commands, old(root)).tree, Mutable(cs.operations);
        outcome.RolledBack? && outcome.errors == [] && (PlainTargets(pre, ops) || (Separate(ops) && !purging)) ==>
          Restored(pre, root, ops) && (root == pre <==> !halfMade && !lingered)
      ensures outcome.RolledBack? && Separate(Mutable(cs.operations)) && !purging && Quiet(failedAt) ==>
        outcome.errors == []
      ensures var pre, ops := RunAll(runner, cs.commands, old(root)).tree, Mutable(cs.operations);
        outcome.RolledBack? && purged && Separate(ops) && Quiet(failedAt) ==>
          root == pre - Lost(pre, PathsUpTo(ops, |ops|) * pre.Keys)
      ensures outcome.Applied? && Mutable(cs.operations) != [] ==> stage == map[] && backup == map[]
    {
      hide RunAll, Separate, Restored, PlainTargets, Lost, ValidOperation, Topdown, OpenWays, PathsUpTo, Mutable;
      var ran := RunCommands(cs.commands);
      if !ran { return CommandFailed; }
      var mutable := Mutable(cs.operations);
      MutableIs(cs.operations);
      ValidIsTopdown(cs);
      MutableIsTopdown(cs.operations);
      if mutable == [] { return Applied([]); }
      var scratch := MakeScratch();
      if !scratch { return NoScratch; }
      outcome := Swap(mutable);
    }

    /** Verify, run the commands, stage, swap in; or put everything back. */
    method ApplyChangeset(cs: ChangeSet) returns (outcome: Outcome)
      requires ValidChangeSet(cs)
      modifies this
      // A tree that was not as reviewed is left alone.
      ensures !([] in old(root) && old(root)[[]].Dir?) <==> outcome.NotADirectory?
      ensures outcome.CannotVerify? || outcome.ConcurrentChange? <==>
        !outcome.NotADirectory? && Verified(old(root), cs.operations).Some?
      ensures outcome.CannotVerify? || outcome.ConcurrentChange? ==> Some(outcome) == Verified(old(root), cs.operations)
      ensures outcome.NotADirectory? || outcome.CannotVerify? || outcome.ConcurrentChange? ==> root == old(root)
      // The commands run first, each on what the one before it left, and the first that fails is the last; what they
      // did stays.
      ensures outcome.CommandFailed? <==>
        (&& [] in old(root) && old(root)[[]].Dir? && Verified(old(root), cs.operations).None?
         && exists now :: OneFailed(runner, cs.commands, old(root), now))
      ensures var done := RunAll(runner, cs.commands, old(root));
        && (outcome.CommandFailed? || outcome.NoScratch? ==> root == done.tree)
        && (outcome.CommandFailed? ==> !done.ok) && (outcome.Applied? || outcome.RolledBack? ==> done.ok)
      ensures outcome.CommandFailed? ==> OneFailed(runner, cs.commands, old(root), root)
      ensures outcome.NoScratch? ==> AllRan(runner, cs.commands, old(root), root)
      ensures outcome.Applied? || outcome.RolledBack? ==>
        AllRan(runner, cs.commands, old(root), RunAll(runner, cs.commands, old(root)).tree)
      // Success: every operation took effect.
      ensures var pre, ops := RunAll(runner, cs.commands, old(root)).tree, Mutable(cs.operations);
        outcome.Applied? ==> root == Installed(pre, ops) && outcome.paths == Paths(ops)
      // It comes to that whenever no call fails, no path is an ancestor of another and no file is in the way.
      ensures var done, ops := RunAll(runner, cs.commands, old(root)), Mutable(cs.operations);
        && !outcome.NotADirectory? && Verified(old(root), cs.operations).None? && done.ok
        && [] in done.tree && done.tree[[]].Dir? && Quiet(old(clock)) && Separate(ops) && OpenWays(done.tree, ops)
        ==> outcome.Applied?
      // Failure: as the commands left it.
      ensures var pre, ops := RunAll(runner, cs.commands, old(root)).tree, Mutable(cs.operations);
        outcome.RolledBack? && outcome.errors == [] && (PlainTargets(pre, ops) || (Separate(ops) && !purging)) ==>
          && Restored(pre, root, ops)
          && (root == pre <==> !halfMade && !lingered)
      // Without commands, that is: as it was, whenever no error is reported.
      ensures outcome.RolledBack? && outcome.errors == [] && cs.commands == [] ==>
        && Restored(old(root), root, Mutable(cs.operations))
        && (root == old(root) <==> !halfMade && !lingered)
      ensures outcome.RolledBack? && Separate(Mutable(cs.operations)) && !purging && Quiet(failedAt) ==>
        outcome.errors == []
      // Except that a failure after the backup is gone loses every file that was replaced.
      ensures var pre, ops := RunAll(runner, cs.commands, old(root)).tree, Mutable(cs.operations);
        outcome.RolledBack? && purged && Separate(ops) && Quiet(failedAt) ==>
          root == pre - Lost(pre, PathsUpTo(ops, |ops|) * pre.Keys)
      ensures outcome.Applied? && Mutable(cs.operations) != [] ==> stage == map[] && backup == map[]
    {
      hide RunAll, AllRan, OneFailed, Separate, Restored, PlainTargets, Lost, ValidOperation, Topdown, OpenWays,
        Mutable, PathsUpTo, Installed;
      halfMade, lingered, purging, purged := false, false, false, false;
      if [] !in root || root[[]].File? { return NotADirectory; }
      var conflict := VerifyBeforeDigests(root, cs.operations);
      VerifiedIsConflict(root, cs.operations);
      if conflict.Some? { return conflict.value; }
      CheckedIsPlain(root, cs.operations);
      NothingRun(runner, root);
      CommandsEnd(runner, cs.commands, root);
      outcome := ApplyChecked(cs);
    }
  }

  // Delete the file a, create a file below a directory of that name.
  function MakeWay(a: string, b: string, text: string, added: string): seq<ChangeOperation> {
    [ChangeOperation([a], Delete, Owned, Some(text), None, Sha256(text), ContentDigest(None), ""),
     ChangeOperation([a, b], Create, Owned, None, Some(added), ContentDigest(None), Sha256(added), "")]
  }

  /** When a file makes way for a directory of its name, a later failure cannot bring it back: the rollback finds the
      directory in its place, and reports it. */
  lemma MadeWayIsBlocked(a: string, b: string, text: string, added: string)
    ensures var pre: Tree, p, q := map[[] := Dir, [a] := File(Text(text))], [a], [a, b];
      var root, backup: Tree := Installed(pre, MakeWay(a, b, text, added)), map[[] := Dir, [a] := File(Text(text))];
      && Blocked(root, backup, [p], p) && Blocked(root - {q}, backup, [p], p)
      && !CanRename(backup, root, p) && !CanRename(backup, root - {q}, p)
  {
    var pre: Tree, p, q := map[[] := Dir, [a] := File(Text(text))], [a], [a, b];
    var ops := MakeWay(a, b, text, added);
    assert ops[..1] == [ops[0]] && ops[..1][..0] == [] && Installed(pre, []) == pre;
    var cut := Without(pre, p);
    assert Installed(pre, ops[..1]) == cut;
    assert Below(pre, p) == {p} && q !in pre;
    assert Installed(pre, ops) == PutOperation(cut, ops[1]);
    PrefixesAre(p);
    assert Parent(q) == p && p !in cut && p in WithDirs(cut, p);
  }

  // What the commands leave, in the terms of the runner.
  lemma CommandsEnd(runner: (Command, ClosedTree) -> CommandEffect, commands: seq<Command>, t: ClosedTree)
    ensures var done := RunAll(runner, commands, t);
      && (done.ok ==> AllRan(runner, commands, t, done.tree))
      && (!done.ok ==> OneFailed(runner, commands, t, done.tree))
      && (done.ok ==> forall now :: !OneFailed(runner, commands, t, now))
  {
    hide RunAll, AllRan, OneFailed;
    forall now ensures RunAll(runner, commands, t).ok ==> !OneFailed(runner, commands, t, now) {
      CommandsRun(runner, commands, t, now);
    }
    CommandsRun(runner, commands, t, RunAll(runner, commands, t).tree);
  }

  lemma NothingRun(runner: (Command, ClosedTree) -> CommandEffect, t: ClosedTree)
    ensures RunAll(runner, [], t) == CommandEffect(true, t)
  {
  }

  lemma VerifiedIsConflict(t: Tree, ops: seq<ChangeOperation>)
    ensures Verified(t, ops).Some? ==> Verified(t, ops).value.CannotVerify? || Verified(t, ops).value.ConcurrentChange?
  {
  }

  /** On a tree that passes the check, every operation's path is a file or nothing. */
  lemma CheckedIsPlain(t: Tree, ops: seq<ChangeOperation>)
    requires Verified(t, ops).None? && Unique(Paths(ops)) && forall op <- ops :: ValidOperation(op)
    ensures PlainTargets(t, Mutable(ops))
  {
    hide ValidOperation;
    MutableIs(ops);
    forall i | 0 <= i < |Mutable(ops)| && Mutable(ops)[i].path in t ensures t[Mutable(ops)[i].path].File? {
      assert Mutable(ops)[i] in ops;
      CheckedIsFile(t, ops, Mutable(ops)[i]);
    }
  }

  lemma {:induction false} CheckedIsFile(t: Tree, ops: seq<ChangeOperation>, op: ChangeOperation)
    requires Verified(t, ops).None? && op in ops && ValidOperation(op)
    ensures op.path in t ==> t[op.path].File?
  {
    var front, last := ops[..|ops| - 1], ops[|ops| - 1];
    assert ops == front + [last];
    if op != last { CheckedIsFile(t, front, op); }
  }
}
