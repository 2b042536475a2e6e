/** When installs and their reversal go through: nothing but files and absent paths where they write, and directories
    above. */
module InstallSuccess {
  import opened Wrappers
  import opened Ordering
  import opened Trees
  import opened ChangeSets
  import opened WriterModel
  import opened Journals
  import opened Nesting
  import opened Writer
  import opened Overlay
  import opened InstallModel
  import opened Install
  import opened InstallLaws
  import opened InstallTheorems
  import opened Uninstall

  /** Every proposed path is a readable file or absent, below directories only, and none is below another. */
  ghost predicate ClearFor(t: Tree, proposals: seq<ChangeProposal>) {
    && (forall p <- proposals :: SafePath(p.path) && p.ownership.Owned? && Free(t, p.path))
    && forall i, j :: 0 <= i < j < |proposals| ==> !Comparable(proposals[i].path, proposals[j].path)
  }

  ghost predicate Free(t: Tree, p: Path) {
    ReadFile(t, p).Ok? && (p in t ==> t[p].File?) && OpenWay(t, p)
  }

  // --- Building and applying where everything is clear ---

  lemma ClearBuilds(t: Tree, proposals: seq<ChangeProposal>)
    requires ClearFor(t, proposals)
    ensures Built(t, proposals, []).Ok?
    ensures var cs := Built(t, proposals, []).value;
      && Verified(t, cs.operations).None? && OpenWays(t, Mutable(cs.operations)) && Separate(Mutable(cs.operations))
      && ValidChangeSet(cs) && cs.commands == []
  {
    hide Built, Verified, Mutable, SafePath, OpenWay, Posix, ValidOperation, ValidChangeSet, Free;
    forall i, j | 0 <= i < j < |proposals| ensures proposals[i].path != proposals[j].path {
      assert !Comparable(proposals[i].path, proposals[j].path);
    }
    forall p <- proposals ensures SafePath(p.path) && BuildOperation(t, p).Ok? { FreeBuilds(t, p); }
    BuiltIsOk(t, proposals);
    var cs := Built(t, proposals, []).value;
    forall p <- proposals ensures p.path in t ==> t[p.path].File? { FreeBuilds(t, p); }
    FreshlyBuiltPassesIff(t, proposals, []);
    BuiltIsValid(t, proposals, []);
    BuiltInOrder(t, proposals, []);
    MutableAreClear(t, proposals);
  }

  lemma FreeBuilds(t: Tree, p: ChangeProposal)
    requires SafePath(p.path) && p.ownership.Owned? && Free(t, p.path)
    ensures BuildOperation(t, p).Ok? && (p.path in t ==> t[p.path].File?) && OpenWay(t, p.path)
  {
  }

  lemma BuiltIsOk(t: Tree, proposals: seq<ChangeProposal>)
    requires forall i, j :: 0 <= i < j < |proposals| ==> proposals[i].path != proposals[j].path
    requires forall p <- proposals :: BuildOperation(t, p).Ok?
    ensures Built(t, proposals, []).Ok?
  {
    hide Built, BuildOperation;
    BuiltOkIff(t, proposals, []);
  }

  lemma MutableAreClear(t: Tree, proposals: seq<ChangeProposal>)
    requires ClearFor(t, proposals) && Built(t, proposals, []).Ok? && ValidChangeSet(Built(t, proposals, []).value)
    ensures var ops := Mutable(Built(t, proposals, []).value.operations); OpenWays(t, ops) && Separate(ops)
  {
    hide Built, Mutable, SafePath, OpenWay, Posix, ValidOperation, Free, Comparable, BuildOperation;
    var ops := Mutable(Built(t, proposals, []).value.operations);
    MutableIs(Built(t, proposals, []).value.operations);
    forall i | 0 <= i < |ops| ensures OpenWay(t, ops[i].path) {
      var p := ProposedBy(t, proposals, ops[i]);
      FreeBuilds(t, proposals[p]);
    }
    forall i, j | 0 <= i < j < |ops| ensures !Comparable(ops[i].path, ops[j].path) {
      var p := ProposedBy(t, proposals, ops[i]);
      var q := ProposedBy(t, proposals, ops[j]);
      assert ops[i].path != ops[j].path;
      Symmetric(proposals[p].path, proposals[q].path);
    }
  }

  lemma Symmetric(p: Path, q: Path)
    ensures Comparable(p, q) == Comparable(q, p)
  {
  }

  lemma ProposedBy(t: Tree, proposals: seq<ChangeProposal>, op: ChangeOperation) returns (i: nat)
    requires Built(t, proposals, []).Ok? && ValidChangeSet(Built(t, proposals, []).value)
    requires op in Mutable(Built(t, proposals, []).value.operations)
    ensures i < |proposals| && proposals[i].path == op.path
  {
    hide Built, Mutable, ValidOperation, BuildOperation;
    MutableIs(Built(t, proposals, []).value.operations);
    var p := BuiltComesFromProposals(t, proposals, [], op);
    PathOfBuilt(t, p);
    i :| 0 <= i < |proposals| && proposals[i] == p;
  }

  // What is clear stays clear on the copy, by way of a plan for the original.
  lemma ClearOnCopy(t: ClosedTree, proposals: seq<ChangeProposal>)
    requires ClearFor(t, proposals) && Built(t, proposals, []).Ok?
    ensures ClearFor(Copied(t), Again(t, proposals))
  {
    hide Built, SafePath, Free, Comparable, Copied, BuildOperation, KindOf;
    ClearBuilds(t, proposals);
    var ops, again := Built(t, proposals, []).value.operations, Again(t, proposals);
    assert forall i :: 0 <= i < |again| ==> again[i].path == ops[i].path && again[i].ownership == ops[i].ownership;
    forall i | 0 <= i < |again|
      ensures SafePath(again[i].path) && again[i].ownership.Owned? && Free(Copied(t), again[i].path)
    {
      var k := SourceOf(t, proposals, i);
      FreeOnCopy(t, again[i].path);
    }
    forall i, j | 0 <= i < j < |again| ensures !Comparable(again[i].path, again[j].path) {
      var p := SourceOf(t, proposals, i);
      var q := SourceOf(t, proposals, j);
      DistinctPathsOf(t, proposals, i, j);
      Symmetric(proposals[p].path, proposals[q].path);
    }
  }

  lemma SourceOf(t: Tree, proposals: seq<ChangeProposal>, i: nat) returns (k: nat)
    requires Built(t, proposals, []).Ok? && i < |Built(t, proposals, []).value.operations|
    ensures k < |proposals| && proposals[k].path == Built(t, proposals, []).value.operations[i].path
    ensures proposals[k].ownership == Built(t, proposals, []).value.operations[i].ownership
  {
    hide Built, KindOf;
    var p := BuiltComesFromProposals(t, proposals, [], Built(t, proposals, []).value.operations[i]);
    k :| 0 <= k < |proposals| && proposals[k] == p;
  }

  lemma DistinctPathsOf(t: Tree, proposals: seq<ChangeProposal>, i: nat, j: nat)
    requires Built(t, proposals, []).Ok? && ValidChangeSet(Built(t, proposals, []).value)
    requires i < j < |Built(t, proposals, []).value.operations|
    ensures Built(t, proposals, []).value.operations[i].path != Built(t, proposals, []).value.operations[j].path
  {
    hide Built, ValidOperation;
    var ops := Built(t, proposals, []).value.operations;
    assert Paths(ops)[i] == ops[i].path && Paths(ops)[j] == ops[j].path;
  }

  lemma FreeOnCopy(t: ClosedTree, p: Path)
    requires Free(t, p)
    ensures Free(Copied(t), p)
  {
  }

  lemma ClearAppliesToCopy(t: ClosedTree, proposals: seq<ChangeProposal>)
    requires ClearFor(t, proposals)
    ensures AppliesToCopy(t, proposals)
    ensures var ops := Mutable(Built(Copied(t), Again(t, proposals), []).value.operations);
      OpenWays(Copied(t), ops) && Separate(ops) && forall i :: 0 <= i < |ops| ==> ops[i].path != []
  {
    hide Built, Verified, Mutable, SafePath, OpenWay, Free, Copied, ValidOperation, Again, Separate, OpenWays;
    ClearBuilds(t, proposals);
    ClearOnCopy(t, proposals);
    ClearBuilds(Copied(t), Again(t, proposals));
    MutableIs(Built(Copied(t), Again(t, proposals), []).value.operations);
  }

  // --- Applied trees are trees ---

  /** Where there is room, the applied tree is closed again. */
  lemma {:induction false} InstalledIsClosed(t: Tree, ops: seq<ChangeOperation>)
    requires Closed(t) && [] in t && t[[]].Dir? && Separate(ops) && OpenWays(t, ops)
    requires forall i :: 0 <= i < |ops| ==> ops[i].path != []
    ensures var now := Installed(t, ops); Closed(now) && [] in now && now[[]].Dir?
    ensures forall q <- Installed(t, ops).Keys :: Installed(t, ops)[q].File? ==>
      (q in t && t[q].File?) || exists i :: 0 <= i < |ops| && ops[i].path == q
  {
    hide PutOperation, OpenWay, Comparable;
    if ops != [] {
      var front, op := ops[..|ops| - 1], ops[|ops| - 1];
      assert forall i :: 0 <= i < |front| ==> front[i] == ops[i];
      InstalledIsClosed(t, front);
      var before := Installed(t, front);
      if op.after.Some? { StillOpen(t, ops, before); }
      PutIsClosedAgain(before, op);
      forall q <- PutOperation(before, op).Keys | PutOperation(before, op)[q].File?
        ensures (q in t && t[q].File?) || exists i :: 0 <= i < |ops| && ops[i].path == q
      {
        if q == op.path { assert ops[|ops| - 1].path == q; }
        else { var i: int :| (q in t && t[q].File?) || (0 <= i < |front| && front[i].path == q); }
      }
    }
  }

  lemma StillOpen(t: Tree, ops: seq<ChangeOperation>, before: Tree)
    requires ops != [] && Separate(ops) && OpenWays(t, ops) && ops[|ops| - 1].after.Some?
    requires forall q <- before.Keys :: before[q].File? ==>
      (q in t && t[q].File?) || exists i :: 0 <= i < |ops| - 1 && ops[i].path == q
    ensures OpenWay(before, ops[|ops| - 1].path)
  {
    var p := ops[|ops| - 1].path;
    assert OpenWay(t, p);
    forall i | 0 <= i < |ops| - 1 ensures !(ops[i].path <= p) { assert !Comparable(ops[i].path, ops[|ops| - 1].path); }
    forall q <- before.Keys | q < p ensures before[q].Dir? {}
  }

  lemma PutIsClosedAgain(t: Tree, op: ChangeOperation)
    requires Closed(t) && [] in t && t[[]].Dir? && op.path != [] && (op.after.Some? ==> OpenWay(t, op.path))
    ensures var now := PutOperation(t, op); Closed(now) && [] in now && now[[]].Dir?
    ensures forall q <- PutOperation(t, op).Keys :: PutOperation(t, op)[q].File? ==>
      q == op.path
      || (q in t && t[q].File?)
  {
    WithoutIsClosed(t, op.path);
    if op.after.Some? {
      var up := Parent(op.path);
      PrefixesAre(up);
      var cut := Without(t, op.path);
      WithDirsIsClosed(cut, up);
      assert op.path !in WithDirs(cut, up);
      PutIsClosed(WithDirs(cut, up), op.path, Text(op.after.value));
    }
  }

  lemma WithDirsIsClosed(t: Tree, d: Path)
    requires Closed(t) && forall q <- t.Keys :: q <= d ==> t[q].Dir?
    ensures Closed(WithDirs(t, d)) && d in WithDirs(t, d) && WithDirs(t, d)[d].Dir?
  {
    PrefixesAre(d);
    forall q <- WithDirs(t, d).Keys | q != [] ensures Parent(q) in WithDirs(t, d) && WithDirs(t, d)[Parent(q)].Dir? {
      if q !in t { assert Parent(q) <= d; }
    }
  }

  // --- Installs ---

  lemma WriteAt(t: Tree, p: Path, text: string)
    requires Closed(t) && p != [] && DirAt(t, Parent(p)) && !DirAt(t, p)
    ensures WriteText(t, p, text).Ok? && Closed(WriteText(t, p, text).value)
  {
    if p in t { OverwriteIsClosed(t, p, Text(text)); } else { PutIsClosed(t, p, Text(text)); }
  }

  /** The commands succeed and leave room for the plan: only directories above what it writes, and none in the lock's
      place. */
  ghost predicate LeavesRoom(t: ClosedTree, r: Request, runner: (Command, ClosedTree) -> CommandEffect,
                             proposals: seq<ChangeProposal>) {
    var done := RunAll(runner, r.package.commands, Copied(t));
    && done.ok && DirAt(done.tree, []) && !DirAt(done.tree, LOCK_PATH)
    && forall p <- proposals :: OpenWay(done.tree, p.path)
  }

  /** Without commands there is room whenever the way is clear in the project itself. */
  lemma NoCommandsLeaveRoom(codec: Codec, t: ClosedTree, r: Request, runner: (Command, ClosedTree) -> CommandEffect)
    requires PlanFor(codec, t, r).Ok? && r.package.commands == [] && DirAt(t, [])
    requires (PlanIs(codec, t, r); ClearFor(t, PlanProposals(codec, t, r)))
    ensures (PlanIs(codec, t, r); LeavesRoom(t, r, runner, PlanProposals(codec, t, r)))
  {
    hide SafePath, PlanProposals, PlanFor, LOCK_PATH, AUDIT_PATH, LockText, AppendAudit, TransactionPath, Recorded;
    PlanIs(codec, t, r);
    FixedAreProposed(codec, t, r);
    var ps := PlanProposals(codec, t, r);
    forall p <- ps ensures Free(Copied(t), p.path) { FreeOnCopy(t, p.path); }
    assert Own(LOCK_PATH, LockText(codec, t, r), r.candidate) in ps;
  }

  // What is known of the draft where the way is clear.
  lemma DraftIsClosed(codec: Codec, t: ClosedTree, r: Request, runner: (Command, ClosedTree) -> CommandEffect)
    requires PlanFor(codec, t, r).Ok? && DirAt(t, [])
    requires (PlanIs(codec, t, r); var ps := PlanProposals(codec, t, r);
      ClearFor(t, ps) && LeavesRoom(t, r, runner, ps))
    ensures CopyBuilt(PlanFor(codec, t, r).value, t).Ok?
    ensures var cs := CopyBuilt(PlanFor(codec, t, r).value, t).value;
      cs.commands == r.package.commands && Unobstructed(runner, Copied(t), cs)
    ensures (PlanIs(codec, t, r); var ps := PlanProposals(codec, t, r);
      && AppliesToCopy(t, ps)
      && Draft(codec, t, r, runner)
         == Installed(AfterCommands(t, r, runner), Mutable(Built(Copied(t), Again(t, ps), []).value.operations)))
    ensures Closed(Draft(codec, t, r, runner))
  {
    hide Built, Verified, Mutable, Installed, SafePath, ClearFor, PlanProposals, PlanFor, Separate, OpenWays,
      Copied, Retarget, CopyBuilt, RunAll, OpenWay;
    PlanIs(codec, t, r);
    var ps := PlanProposals(codec, t, r);
    ClearAppliesToCopy(t, ps);
    CopyIsBuilt(codec, t, r);
    CopyBuiltIs(codec, t, r);
    RootOnCopy(t);
    var ops := Mutable(Built(Copied(t), Again(t, ps), []).value.operations);
    RoomForOps(t, r, runner, ps);
    InstalledIsClosed(AfterCommands(t, r, runner), ops);
  }

  lemma CopyIsBuilt(codec: Codec, t: ClosedTree, r: Request)
    requires PlanFor(codec, t, r).Ok?
    requires (PlanIs(codec, t, r); var ps := PlanProposals(codec, t, r);
      Built(t, ps, []).Ok? && Built(Copied(t), Again(t, ps), []).Ok?)
    ensures CopyBuilt(PlanFor(codec, t, r).value, t).Ok?
    ensures CopyBuilt(PlanFor(codec, t, r).value, t).value.commands == r.package.commands
  {
    hide PlanFor, PlanProposals, Sort, BuildEach, FirstDuplicate, Copied;
    PlanIs(codec, t, r);
  }

  lemma RoomForOps(t: ClosedTree, r: Request, runner: (Command, ClosedTree) -> CommandEffect,
                   proposals: seq<ChangeProposal>)
    requires AppliesToCopy(t, proposals) && LeavesRoom(t, r, runner, proposals)
    ensures OpenWays(AfterCommands(t, r, runner), Mutable(Built(Copied(t), Again(t, proposals), []).value.operations))
  {
    hide Built, Verified, Mutable, SafePath, Copied, RunAll, OpenWay, Again, Posix, ValidOperation, BuildOperation;
    RetargetPaths(t, proposals);
    BuiltIsValid(Copied(t), Again(t, proposals), []);
    var cs := Built(Copied(t), Again(t, proposals), []).value;
    MutableIs(cs.operations);
    forall i | 0 <= i < |Mutable(cs.operations)|
      ensures OpenWay(AfterCommands(t, r, runner), Mutable(cs.operations)[i].path)
    {
      var p' := BuiltComesFromProposals(Copied(t), Again(t, proposals), [], Mutable(cs.operations)[i]);
      PathOfBuilt(Copied(t), p');
      RetargetAddsNone(t, proposals, p');
    }
  }

  lemma RootOnCopy(t: ClosedTree)
    requires DirAt(t, [])
    ensures DirAt(Copied(t), [])
  {
  }

  // What is staged is the completed draft.
  lemma StagedIsCompleted(codec: Codec, t: ClosedTree, r: Request, scan: Tree -> Option<Inventory>,
                          runner: (Command, ClosedTree) -> CommandEffect)
    requires PlanFor(codec, t, r).Ok? && r.candidate.provenance.Some?
    requires PlanFor(codec, t, r).value.candidate == r.candidate
    requires var cs := CopyBuilt(PlanFor(codec, t, r).value, t);
      cs.Ok? && cs.value.commands == r.package.commands && Unobstructed(runner, Copied(t), cs.value)
    requires r.preflight.Some? && scan(Draft(codec, t, r, runner)).Some?
    ensures StagedFor(codec, t, r, scan, runner) ==
      Completed(codec, r.candidate, Draft(codec, t, r, runner), scan(Draft(codec, t, r, runner)).value,
        r.preflight.value,
                r.finishedAt)
  {
    hide PlanFor, CopyBuilt, Verified, Mutable, Installed, Copied, Completed, Separate, OpenWays, RunAll;
  }

  // The draft has the planned audit log, in a directory with room for the lock.
  lemma LogsInDraft(codec: Codec, t: ClosedTree, r: Request, runner: (Command, ClosedTree) -> CommandEffect)
    requires PlanFor(codec, t, r).Ok? && DirAt(t, []) && (Faithful(codec) || r.package.commands == [])
    requires (PlanIs(codec, t, r); var ps := PlanProposals(codec, t, r);
      ClearFor(t, ps) && LeavesRoom(t, r, runner, ps))
    ensures (DraftIsClosed(codec, t, r, runner); var draft := Draft(codec, t, r, runner);
      DirAt(draft, Parent(LOCK_PATH)) && !DirAt(draft, LOCK_PATH)
      && FileAt(draft, AUDIT_PATH).Some? && FileAt(draft, AUDIT_PATH).value.Text?)
  {
    hide Built, SafePath, ClearFor, PlanProposals, PlanFor, CopyBuilt, Copied, Draft, AppliesToCopy, LOCK_PATH,
      AUDIT_PATH, TransactionPath, Unobstructed, LockText, AppendAudit, RecordedTransaction, Recorded, AfterCommands,
      LeavesRoom, Faithful, Installed, Mutable, Again;
    PlanIs(codec, t, r);
    DraftIsClosed(codec, t, r, runner);
    FixedAreProposed(codec, t, r);
    TransactionIsApart(r.candidate);
    var draft, ps := Draft(codec, t, r, runner), PlanProposals(codec, t, r);
    var planned := AppendAudit(codec, t, r.candidate, "planned", r.plannedAt).value;
    if r.package.commands == [] {
      NoCommandsRun(codec, t, r, runner);
      CopyProposedAt(t, ps, Own(AUDIT_PATH, planned, r.candidate));
    } else {
      AuditIsNew(codec, t, r.candidate, "planned", r.plannedAt);
      CopyAt(t, ps, Own(AUDIT_PATH, planned, r.candidate), AfterCommands(t, r, runner));
    }
    FixedPathsAreSiblings();
    AncestorIsDir(draft, Parent(LOCK_PATH), AUDIT_PATH);
    LockIsNoDir(t, r, runner, ps, Own(LOCK_PATH, LockText(codec, t, r), r.candidate));
  }

  lemma NoCommandsRun(codec: Codec, t: ClosedTree, r: Request, runner: (Command, ClosedTree) -> CommandEffect)
    requires r.package.commands == []
    ensures AfterCommands(t, r, runner) == Copied(t)
  {
  }

  lemma LockIsNoDir(t: ClosedTree, r: Request, runner: (Command, ClosedTree) -> CommandEffect,
                    proposals: seq<ChangeProposal>,
                    lock: ChangeProposal)
    requires AppliesToCopy(t, proposals) && ClearFor(t, proposals) && LeavesRoom(t, r, runner, proposals)
    requires lock in proposals && lock.path == LOCK_PATH
    ensures !DirAt(Installed(AfterCommands(t, r, runner),
      Mutable(Built(Copied(t), Again(t, proposals), []).value.operations)),
                   LOCK_PATH)
  {
    hide Built, Verified, Mutable, Installed, SafePath, Copied, RunAll, OpenWay, Again, Posix, ValidOperation,
      BuildOperation, LOCK_PATH, Free;
    RetargetPaths(t, proposals);
    BuiltIsValid(Copied(t), Again(t, proposals), []);
    var ops := Mutable(Built(Copied(t), Again(t, proposals), []).value.operations);
    MutableIs(Built(Copied(t), Again(t, proposals), []).value.operations);
    InstalledDirs(AfterCommands(t, r, runner), ops, LOCK_PATH);
    forall i | 0 <= i < |ops| ensures !(LOCK_PATH < ops[i].path) {
      var p' := BuiltComesFromProposals(Copied(t), Again(t, proposals), [], ops[i]);
      PathOfBuilt(Copied(t), p');
      RetargetAddsNone(t, proposals, p');
      if p'.path != LOCK_PATH { PlacesAreApart(t, proposals, LOCK_PATH, p'.path); }
    }
  }

  /** An install that is planned, with a clear way for all it writes, commands that leave it room, and a capability
      that then resolves, is staged: nothing stands in the way of applying it to the copy, and it only waits for its
      commit. */
  lemma InstallSucceeds(codec: Codec, t: ClosedTree, r: Request, scan: Tree -> Option<Inventory>,
                        runner: (Command, ClosedTree) -> CommandEffect)
    requires PlanFor(codec, t, r).Ok? && r.preflight.Some? && DirAt(t, [])
    requires (Faithful(codec) || r.package.commands == [])
    requires (PlanIs(codec, t, r); var ps := PlanProposals(codec, t, r);
      ClearFor(t, ps) && LeavesRoom(t, r, runner, ps))
    requires (DraftIsClosed(codec, t, r, runner);
      scan(Draft(codec, t, r, runner)).Some? && ProviderId(r.candidate) in scan(Draft(codec, t, r, runner)).value.ids)
    ensures (DraftIsClosed(codec, t, r, runner);
      Unobstructed(runner, Copied(t), CopyBuilt(PlanFor(codec, t, r).value, t).value))
    ensures StagedFor(codec, t, r, scan, runner).Ok?
  {
    hide Built, SafePath, ClearFor, PlanProposals, PlanFor, CopyBuilt, StagedFor, Copied, Draft, AppliesToCopy, FileAt,
      DirAt, WriteText, LOCK_PATH, AUDIT_PATH, ReadText, RenderLock, TransactionPath, Unobstructed, AppendAudit,
      LeavesRoom, Recorded, AfterCommands, Faithful;
    PlanIs(codec, t, r);
    DraftIsClosed(codec, t, r, runner);
    StagedIsCompleted(codec, t, r, scan, runner);
    LogsInDraft(codec, t, r, runner);
    TransactionIsApart(r.candidate);
    FixedPathsAreSiblings();
    var draft := Draft(codec, t, r, runner);
    var entry := ProviderEntry(r.candidate, r.candidate.provenance.value, Some(r.preflight.value));
    var lockText := RenderLock(codec, draft, entry, scan(draft).value.digest);
    WriteAt(draft, LOCK_PATH, lockText);
    var locked := WriteText(draft, LOCK_PATH, lockText).value;
    WrittenFiles(draft, LOCK_PATH, lockText, AUDIT_PATH);
    AuditReads(codec, locked, r.candidate, "installed", r.finishedAt);
    WriteAt(locked, AUDIT_PATH, AppendAudit(codec, locked, r.candidate, "installed", r.finishedAt).value);
  }

  lemma AuditReads(codec: Codec, t: Tree, c: Candidate, status: string, at: string)
    requires Closed(t) && FileAt(t, AUDIT_PATH).Some? && FileAt(t, AUDIT_PATH).value.Text?
    ensures AppendAudit(codec, t, c, status, at).Ok? && DirAt(t, Parent(AUDIT_PATH)) && !DirAt(t, AUDIT_PATH)
  {
    hide LOCK_PATH, AUDIT_PATH;
    FixedPathsAreSiblings();
  }

  lemma FixedPathsAreSiblings()
    ensures LOCK_PATH != [] && AUDIT_PATH != [] && Parent(LOCK_PATH) == Parent(AUDIT_PATH) < AUDIT_PATH
  {
  }

  // --- Their commits ---

  lemma ChangedIs(t: Tree, staged: Tree, q: Path)
    ensures q in Changed(t, staged) <==> ".git" !in q && FileAt(t, q) != FileAt(staged, q)
    ensures ".git" !in q ==> (Decodable(staged, q) <==> FileAt(staged, q).Some? ==> FileAt(staged, q).value.Text?)
  {
  }

  /** What the commands changed can be committed: plain text files in free places, apart from each other and from the
      plan's. */
  ghost predicate CommandsAreTame(t: ClosedTree, r: Request, runner: (Command, ClosedTree) -> CommandEffect) {
    var after := AfterCommands(t, r, runner);
    && (forall q <- Changed(t, after) :: SafePath(q) && Decodable(after, q) && Free(t, q))
    && NoNesting(Changed(t, after) + PlacesOf(r))
  }

  function PlacesOf(r: Request): set<Path> {
    set q <- RecordedPaths(r.candidate, r.package) | ".git" !in q
  }

  // Away from the plan, the draft is as the commands left it; or there is nothing, and never was.
  lemma OutsidePlan(t: ClosedTree, proposals: seq<ChangeProposal>, q: Path, s: Tree)
    requires AppliesToCopy(t, proposals) && ".git" !in q && forall p <- proposals :: p.path != q
    ensures var draft := Installed(s, Mutable(Built(Copied(t), Again(t, proposals), []).value.operations));
      FileAt(draft, q) == FileAt(s, q) || (FileAt(draft, q) == None && FileAt(t, q) == None)
  {
    hide Built, Verified, Mutable, Installed, SafePath, Copied, Again, Posix, ValidOperation, BuildOperation;
    RetargetPaths(t, proposals);
    var cs := Built(Copied(t), Again(t, proposals), []).value;
    var ops := Mutable(cs.operations);
    BuiltIsValid(Copied(t), Again(t, proposals), []);
    FreshlyBuiltPassesIff(Copied(t), Again(t, proposals), []);
    ValidIsTopdown(cs);
    MutableIsTopdown(cs.operations);
    MutableIs(cs.operations);
    InstalledAt(s, ops, q);
    CopiedFiles(t, q);
    forall i | 0 <= i < |ops| ensures ops[i].path != q && (ops[i].path <= q ==> FileAt(t, q) == None) {
      var p' := BuiltComesFromProposals(Copied(t), Again(t, proposals), [], ops[i]);
      PathOfBuilt(Copied(t), p');
      RetargetAddsNone(t, proposals, p');
      assert p'.path in Copied(t) ==> Copied(t)[p'.path].File?;
      if p'.path <= q && FileAt(t, q).Some? { AncestorIsDir(Copied(t), p'.path, q); }
    }
  }

  // The staged tree at any path but those of the lock and the audit log.
  lemma StagedAt(codec: Codec, t: ClosedTree, r: Request, scan: Tree -> Option<Inventory>,
                 runner: (Command, ClosedTree) -> CommandEffect, q: Path)
    requires StagedFor(codec, t, r, scan, runner).Ok?
    ensures PlanFor(codec, t, r).Ok? && CopyBuilt(PlanFor(codec, t, r).value, t).Ok?
    ensures var staged := StagedFor(codec, t, r, scan, runner).value;
      if q == LOCK_PATH || q == AUDIT_PATH then FileAt(staged, q).Some? && FileAt(staged, q).value.Text?
      else FileAt(staged, q) == FileAt(Draft(codec, t, r, runner), q)
  {
    hide StagedFor, PlanFor, CopyBuilt, Draft, RenderLock, AppendAudit, WriteText, FileAt, LOCK_PATH, AUDIT_PATH;
    var draft, locked, inventory := StagedIs(codec, t, r, scan, runner);
    TransactionIsApart(r.candidate);
    var entry := ProviderEntry(r.candidate, r.candidate.provenance.value, Some(r.preflight.value));
    WrittenFiles(draft, LOCK_PATH, RenderLock(codec, draft, entry, inventory.digest), q);
    WrittenFiles(locked, AUDIT_PATH, AppendAudit(codec, locked, r.candidate, "installed", r.finishedAt).value, q);
  }

  // A path that the commit changes is the plan's or the commands', and can be written either way.
  lemma CommitPlace(codec: Codec, t: ClosedTree, r: Request, scan: Tree -> Option<Inventory>,
                    runner: (Command, ClosedTree) -> CommandEffect, q: Path)
    requires StagedFor(codec, t, r, scan, runner).Ok? && PlanFor(codec, t, r).Ok?
    requires (PlanIs(codec, t, r); ClearFor(t, PlanProposals(codec, t, r))) && CommandsAreTame(t, r, runner)
    requires q in Changed(t, StagedFor(codec, t, r, scan, runner).value)
    ensures q in Changed(t, AfterCommands(t, r, runner)) + PlacesOf(r)
    ensures SafePath(q) && Free(t, q) && Decodable(StagedFor(codec, t, r, scan, runner).value, q)
  {
    hide StagedFor, PlanFor, CopyBuilt, Draft, PlanProposals, RecordedPaths, LOCK_PATH, AUDIT_PATH, Recorded, Built,
      Installed, SafePath, Free, Changed, Decodable, FileAt, AsContent, AfterCommands, NoNesting, Comparable, Mutable,
      Copied, Again, AppliesToCopy;
    var staged, after := StagedFor(codec, t, r, scan, runner).value, AfterCommands(t, r, runner);
    PlanIs(codec, t, r);
    DraftApplies(codec, t, r, scan, runner);
    StagedAt(codec, t, r, scan, runner, q);
    ProposedPaths(codec, t, r, q);
    ChangedIs(t, staged, q);
    ChangedIs(t, after, q);
    var ps := PlanProposals(codec, t, r);
    if q in RecordedPaths(r.candidate, r.package) {
      var p :| p in ps && p.path == q;
      AllAreWritten(codec, t, r, p);
      CopyAt(t, ps, p, after);
      FreeReads(t, q);
      assert p.desired.Some? ==> AsContent(p.desired) == Some(Text(p.desired.value)) by { IsText(p.desired); }
    } else {
      FixedAreRecorded(r);
      OutsidePlan(t, ps, q, after);
    }
  }

  lemma IsText(text: Option<string>)
    ensures text.Some? ==> AsContent(text) == Some(Text(text.value))
  {
  }

  lemma FreeReads(t: Tree, p: Path)
    requires Free(t, p)
    ensures (FileAt(t, p).Some? ==> FileAt(t, p).value.Text?) && Decodable(t, p) && (p in t ==> t[p].File?)
    ensures OpenWay(t, p)
  {
  }

  /** What is staged can be committed, if what the commands changed can: without commands, always. */
  lemma CommitIsWritable(codec: Codec, t: ClosedTree, r: Request, scan: Tree -> Option<Inventory>,
                         runner: (Command, ClosedTree) -> CommandEffect)
    requires StagedFor(codec, t, r, scan, runner).Ok? && PlanFor(codec, t, r).Ok? && DirAt(t, [])
    requires (PlanIs(codec, t, r); ClearFor(t, PlanProposals(codec, t, r)))
    requires r.package.commands == [] || CommandsAreTame(t, r, runner)
    ensures Committable(t, StagedFor(codec, t, r, scan, runner).value)
  {
    hide StagedFor, PlanFor, PlanProposals, RecordedPaths, SafePath, Free, Changed, Decodable, AfterCommands,
      Comparable, OpenWay, ClearFor;
    if r.package.commands == [] { NoCommandsAreTame(codec, t, r, runner); }
    var staged, all :=
      StagedFor(codec, t, r, scan, runner).value, Changed(t, AfterCommands(t, r, runner)) + PlacesOf(r);
    forall q <- Changed(t, staged)
      ensures q in all && SafePath(q) && Decodable(t, q) && Decodable(staged, q) && (q in t ==> t[q].File?)
      ensures OpenWay(t, q)
    {
      CommitPlace(codec, t, r, scan, runner, q);
      FreeReads(t, q);
    }
  }

  lemma NoCommandsAreTame(codec: Codec, t: ClosedTree, r: Request, runner: (Command, ClosedTree) -> CommandEffect)
    requires PlanFor(codec, t, r).Ok? && r.package.commands == []
    requires (PlanIs(codec, t, r); ClearFor(t, PlanProposals(codec, t, r)))
    ensures CommandsAreTame(t, r, runner)
  {
    hide PlanFor, PlanProposals, RecordedPaths, SafePath, Free, Comparable, AfterCommands, Copied, Decodable, FileAt;
    PlanIs(codec, t, r);
    NoCommandsRun(codec, t, r, runner);
    var ps := PlanProposals(codec, t, r);
    forall q ensures q !in Changed(t, Copied(t)) {
      ChangedIs(t, Copied(t), q);
      if ".git" !in q { CopiedFiles(t, q); }
    }
    assert Changed(t, Copied(t)) == {};
    forall p <- PlacesOf(r), q <- PlacesOf(r) | p != q ensures !Comparable(p, q) {
      ProposedPaths(codec, t, r, p);
      ProposedPaths(codec, t, r, q);
      PlacesAreApart(t, ps, p, q);
    }
  }

  lemma PlacesAreApart(t: Tree, proposals: seq<ChangeProposal>, p: Path, q: Path)
    requires ClearFor(t, proposals) && p != q
    requires (exists a <- proposals :: a.path == p) && exists b <- proposals :: b.path == q
    ensures !Comparable(p, q)
  {
    hide SafePath, Free, Comparable;
    var a :| a in proposals && a.path == p;
    var b :| b in proposals && b.path == q;
    var i :| 0 <= i < |proposals| && proposals[i] == a;
    var j :| 0 <= j < |proposals| && proposals[j] == b;
    Symmetric(p, q);
  }

  // --- Reversals ---

  /** Files of one tree are never below one another. */
  lemma FilesDoNotNest(t: Tree, p: Path, q: Path)
    requires Closed(t) && p in t && q in t && t[p].File? && t[q].File? && p != q
    ensures !Comparable(p, q)
  {
    if p < q { AncestorIsDir(t, p, q); }
    if q < p { AncestorIsDir(t, q, p); }
  }

  lemma FilesAreFree(t: Tree, p: Path)
    requires Closed(t) && p in t && t[p].File? && t[p].content.Text?
    ensures Free(t, p)
  {
    forall q <- t.Keys | q < p ensures t[q].Dir? { AncestorIsDir(t, q, p); }
  }

  /** Every path a transaction records is a text file. */
  ghost predicate RecordedStand(r: Request, now: Tree) {
    forall q <- RecordedPaths(r.candidate, r.package) :: ".git" !in q ==>
      q in now && now[q].File? && now[q].content.Text?
  }

  /** So it is once an install without commands went through. */
  lemma RecordedAreFiles(codec: Codec, t: ClosedTree, r: Request, scan: Tree -> Option<Inventory>,
                         runner: (Command, ClosedTree) -> CommandEffect, now: Tree)
    requires r.package.commands == [] && Installs(codec, t, r, scan, runner, now)
    ensures RecordedStand(r, now)
  {
    hide Installs, RecordedPaths;
    forall q <- RecordedPaths(r.candidate, r.package) | ".git" !in q
      ensures q in now && now[q].File? && now[q].content.Text?
    {
      RecordedIsFile(codec, t, r, scan, runner, now, q);
    }
  }

  lemma RecordedIsFile(codec: Codec, t: ClosedTree, r: Request, scan: Tree -> Option<Inventory>,
                       runner: (Command, ClosedTree) -> CommandEffect, now: Tree, q: Path)
    requires r.package.commands == [] && Installs(codec, t, r, scan, runner, now)
    requires q in RecordedPaths(r.candidate, r.package) && ".git" !in q
    ensures q in now && now[q].File? && now[q].content.Text?
  {
    hide StagedFor, PlanFor, CopyBuilt, Draft, RenderLock, AppendAudit, WriteText, TransactionPath, PlanProposals,
      RecordedPaths, LOCK_PATH, AUDIT_PATH, Recorded, CommittedTo, AppliesToCopy, AppliedToCopy, Built, Installed;
    var draft, locked, inventory := StagedIs(codec, t, r, scan, runner);
    PlanIs(codec, t, r);
    DraftApplies(codec, t, r, scan, runner);
    ProposedPaths(codec, t, r, q);
    var ps := PlanProposals(codec, t, r);
    var p :| p in ps && p.path == q;
    CopyProposedAt(t, ps, p);
    AllAreWritten(codec, t, r, p);
    var entry := ProviderEntry(r.candidate, r.candidate.provenance.value, Some(r.preflight.value));
    WrittenFiles(draft, LOCK_PATH, RenderLock(codec, draft, entry, inventory.digest), q);
    WrittenFiles(locked, AUDIT_PATH, AppendAudit(codec, locked, r.candidate, "installed", r.finishedAt).value, q);
    CommittedFile(t, StagedFor(codec, t, r, scan, runner).value, now, q);
  }

  lemma CommittedFile(t: Tree, staged: Tree, now: Tree, q: Path)
    requires CommittedTo(t, staged, now) && ".git" !in q
    ensures FileAt(now, q) == FileAt(staged, q)
  {
    hide FileAt, DirAt, MadeFor;
  }

  /** The reversal of an install has a clear way as long as what it recorded stands; and it goes ahead if and only if
      its capability did not resolve before the install. */
  lemma ReversalSucceedsIff(codec: Codec, t: ClosedTree, r: Request, scan: Tree -> Option<Inventory>,
                            runner: (Command, ClosedTree) -> CommandEffect, now: Tree, t1: ClosedTree)
    requires Installs(codec, t, r, scan, runner, now) && SameFiles(t1, now)
    requires r.package.commands == [] || RecordedStand(r, now)
    requires forall q <- RecordedPaths(r.candidate, r.package) :: ".git" !in q
    ensures PlanFor(codec, t, r).Ok?
    ensures (PlanIs(codec, t, r); var tx := RecordedTransaction(t, r); Reversible(t1, tx) && Trial(t1, tx).Ok?)
    ensures (PlanIs(codec, t, r); var tx := RecordedTransaction(t, r);
      LooksAtFiles(scan) && ReadsBack(t, r) && Contained(t, r, now) ==>
      (Clears(t1, tx, scan) <==> scan(t).Some? && !Resolves(scan, t, ProviderId(r.candidate))))
  {
    hide PlanFor, Recorded, RecordedPaths, Built, Verified, Mutable, Installed, SafePath, Separate, OpenWays,
      Copied, Installs, PlanProposals, OpenWay, Contained, ReadsBack, LooksAtFiles, Clears, SameFiles;
    StagedOk(codec, t, r, scan, runner, now);
    PlannedOk(codec, t, r, scan, runner);
    PlanIs(codec, t, r);
    var tx := RecordedTransaction(t, r);
    RecordedAre(t, r.candidate, r.package);
    SavedAreDistinct(t, r.candidate, r.package);
    RecordedAreSafe(codec, t, r);
    if r.package.commands == [] { RecordedAreFiles(codec, t, r, scan, runner, now); }
    forall s <- tx.before ensures s.path in t1 && t1[s.path].File? && t1[s.path].content.Text? && SafePath(s.path) {
      SameFile(t1, now, s.path);
    }
    ReversalIsClear(t1, tx);
    var ps := Reversal(tx);
    ClearBuilds(t1, ps);
    ClearAppliesToCopy(t1, ps);
    RootIsThere(r, t1, now);
    if LooksAtFiles(scan) && ReadsBack(t, r) && Contained(t, r, now) {
      ClearsIff(codec, t, r, scan, runner, now, t1, tx);
    }
  }

  lemma PlannedOk(codec: Codec, t: ClosedTree, r: Request, scan: Tree -> Option<Inventory>,
                  runner: (Command, ClosedTree) -> CommandEffect)
    requires StagedFor(codec, t, r, scan, runner).Ok?
    ensures PlanFor(codec, t, r).Ok?
  {
    hide PlanFor, StagedInstall;
  }

  lemma SameFile(t: Tree, t': Tree, q: Path)
    requires SameFiles(t, t') && ".git" !in q
    ensures FileAt(t, q) == FileAt(t', q)
  {
  }

  lemma RootIsThere(r: Request, t1: ClosedTree, now: Tree)
    requires SameFiles(t1, now) && RecordedStand(r, now)
    ensures [] in t1 && t1[[]].Dir?
  {
    hide RecordedPaths, AUDIT_PATH, LOCK_PATH, SameFiles;
    FixedAreRecorded(r);
    TransactionIsApart(r.candidate);
    FixedPathsAreSiblings();
    SameFile(t1, now, AUDIT_PATH);
    AncestorIsDir(t1, [], AUDIT_PATH);
  }

  lemma ReversalIsClear(t: ClosedTree, tx: Transaction)
    requires forall s <- tx.before :: s.path in t && t[s.path].File? && t[s.path].content.Text? && SafePath(s.path)
    requires forall i, j :: 0 <= i < j < |tx.before| ==> tx.before[i].path != tx.before[j].path
    ensures ClearFor(t, Reversal(tx))
  {
    hide SafePath, Comparable, Free;
    var ps := Reversal(tx);
    forall i | 0 <= i < |ps| ensures SafePath(ps[i].path) && ps[i].ownership.Owned? && Free(t, ps[i].path) {
      assert tx.before[i] in tx.before;
      FilesAreFree(t, ps[i].path);
    }
    forall i, j | 0 <= i < j < |ps| ensures !Comparable(ps[i].path, ps[j].path) {
      assert tx.before[i] in tx.before && tx.before[j] in tx.before;
      FilesDoNotNest(t, ps[i].path, ps[j].path);
    }
  }

  lemma RecordedAreSafe(codec: Codec, t: ClosedTree, r: Request)
    requires PlanFor(codec, t, r).Ok?
    ensures forall q <- RecordedPaths(r.candidate, r.package) :: SafePath(q)
  {
    hide PlanFor, SafePath, RecordedPaths, PlanProposals;
    PlanIs(codec, t, r);
    forall q <- RecordedPaths(r.candidate, r.package) ensures SafePath(q) { ProposedPaths(codec, t, r, q); }
  }

  lemma {:induction false} SavedInOrder(t: Tree, paths: seq<Path>)
    requires SaveAll(t, paths).Ok?
    ensures |SaveAll(t, paths).value| == |paths|
    ensures forall i :: 0 <= i < |paths| ==> SaveAll(t, paths).value[i].path == paths[i]
  {
    hide ReadText;
    if paths != [] { SavedInOrder(t, paths[..|paths| - 1]); }
  }

  lemma {:induction false} DistinctIsUnique(paths: seq<Path>)
    ensures Unique(Distinct(paths))
  {
    if paths != [] { DistinctIsUnique(paths[..|paths| - 1]); }
  }

  lemma SavedAreDistinct(t: Tree, c: Candidate, p: Package)
    requires Recorded(t, c, p).Ok?
    ensures forall i, j :: 0 <= i < j < |Recorded(t, c, p).value| ==>
      Recorded(t, c, p).value[i].path != Recorded(t, c, p).value[j].path
  {
    hide RecordedPaths, Sort;
    var paths := Distinct(RecordedPaths(c, p));
    DistinctIsUnique(RecordedPaths(c, p));
    SortPermutes(paths, ByKey(PathKey));
    SortUnique(paths, Sort(paths, ByKey(PathKey)));
    SavedInOrder(t, Sort(paths, ByKey(PathKey)));
  }
}
