/** Installing: planned without a write, tried on a copy, committed as a tree diff. */
module Install {
  import opened Wrappers
  import opened Ordering
  import opened Trees
  import opened ChangeSets
  import opened WriterModel
  import opened Journals
  import opened Nesting
  import opened Writer
  import opened Overlay
  import opened InstallModel

  // --- Planning ---

  method SaveBefore(t: Tree, paths: seq<Path>) returns (r: Result<seq<Saved>, InstallError>)
    ensures r == SaveAll(t, paths)
  {
    var before: seq<Saved> := [];
    for n := 0 to |paths|
      invariant SaveAll(t, paths[..n]) == Ok(before)
    {
      assert paths[..n + 1][..n] == paths[..n];
      var text := ReadText(t, paths[n]);
      if text.Err? {
        SaveErrorIsFinal(t, paths, n + 1);
        return Err(text.error);
      }
      before := before + [Saved(paths[n], text.value)];
    }
    assert paths[..|paths|] == paths;
    return Ok(before);
  }

  lemma {:induction false} SaveErrorIsFinal(t: Tree, paths: seq<Path>, n: nat)
    requires n <= |paths| && SaveAll(t, paths[..n]).Err?
    ensures SaveAll(t, paths) == SaveAll(t, paths[..n])
    decreases |paths| - n
  {
    if n < |paths| {
      assert paths[..n + 1][..n] == paths[..n];
      SaveErrorIsFinal(t, paths, n + 1);
    } else {
      assert paths[..n] == paths;
    }
  }

  method BuildInstallPlan(codec: Codec, root: Tree, c: Candidate, p: Package, replaceExisting: bool, now: string)
    returns (plan: Result<InstallPlan, InstallError>)
    ensures plan == Planned(codec, root, c, p, replaceExisting, now)
  {
    if Installable(c, p).Some? { return Err(Installable(c, p).value); }
    var provenance := c.provenance.value;
    var lockText := RenderLock(codec, root, ProviderEntry(c, provenance, None), codec.hex(provenance.digest));
    var audit := AppendAudit(codec, root, c, "planned", now);
    if audit.Err? { return Err(audit.error); }
    if exists f <- p.files :: !SafePath(f.path) { return Err(UnsafePath); }
    var transactionPath := TransactionPath(ProviderId(c));
    if transactionPath in root && !replaceExisting && !PassedPreflight(codec, root, c) { return Err(AlreadyInstalled); }
    var saved := SaveBefore(root, Sort(Distinct(RecordedPaths(c, p)), ByKey(PathKey)));
    if saved.Err? { return Err(saved.error); }
    if !SafePath(transactionPath) { return Err(UnsafePath); }
    var transaction := codec.dumpTransaction(Transaction(c.name, ProviderId(c), c.ref, saved.value));
    var proposals := PackageProposals(p, c) +
      [Own(LOCK_PATH, lockText, c), Own(AUDIT_PATH, audit.value, c), Own(transactionPath, transaction, c)];
    var cs := BuildChangeset(root, proposals, p.commands);
    if cs.Err? { return Err(Build(cs.error)); }
    plan := Ok(InstallPlan(c, p, cs.value, provenance.level));
  }

  // --- The tree commit ---

  function TextOf(c: Content): Option<string> {
    if c.Text? then Some(c.text) else None
  }

  // What the commit proposes for a path that differs.
  function CommitProposal(staged: Tree, q: Path, source: string): ChangeProposal {
    ChangeProposal(q, if q in ByteTree(staged) then TextOf(ByteTree(staged)[q]) else None, Owned, source)
  }

  predicate Decodable(t: Tree, q: Path) {
    q in ByteTree(t) ==> ByteTree(t)[q].Text?
  }

  /** One proposal for each path that differs, and no other. */
  ghost predicate CommitsTo(t: Tree, staged: Tree, proposals: seq<ChangeProposal>, source: string) {
    && (forall p <- proposals :: p.path in Changed(t, staged) && p == CommitProposal(staged, p.path, source))
    && (forall q <- Changed(t, staged) :: CommitProposal(staged, q, source) in proposals)
    && (forall i, j :: 0 <= i < j < |proposals| ==> proposals[i].path != proposals[j].path)
  }

  // Every file found below a directory, .git aside, with its bytes.
  method ReadByteTree(t: Tree) returns (files: map<Path, Content>)
    ensures files == ByteTree(t)
  {
    files := map[];
    var rest := t.Keys;
    while rest != {}
      invariant rest <= t.Keys
      invariant files == map q <- t.Keys - rest | t[q].File? && ".git" !in q :: t[q].content
      decreases rest
    {
      var q :| q in rest;
      rest := rest - {q};
      if t[q].File? && ".git" !in q { files := files[q := t[q].content]; }
    }
  }

  method BuildTreeCommit(t: Tree, staged: Tree, source: string)
    returns (r: Result<ChangeSet, InstallError>, ghost proposals: seq<ChangeProposal>)
    ensures r.Ok? <==> forall q <- Changed(t, staged) :: SafePath(q) && Decodable(t, q) && Decodable(staged, q)
    ensures r.Ok? ==> CommitsTo(t, staged, proposals, source) && Built(t, proposals, []) == Ok(r.value)
    ensures r.Err? ==> !r.error.CommitFailed?
  {
    var original := ReadByteTree(t);
    var desired := ReadByteTree(staged);
    var changed: set<Path> := set q <- original.Keys + desired.Keys |
      !(q in original && q in desired && original[q] == desired[q]);
    assert changed == Changed(t, staged);
    var wanted: seq<ChangeProposal> := [];
    proposals := [];
    var rest := changed;
    while rest != {}
      invariant rest <= changed && proposals == wanted
      invariant forall p <- wanted :: p.path in changed - rest && p == CommitProposal(staged, p.path, source)
      invariant forall q <- changed - rest :: CommitProposal(staged, q, source) in wanted
      invariant forall i, j :: 0 <= i < j < |wanted| ==> wanted[i].path != wanted[j].path
      invariant forall q <- changed - rest :: SafePath(q) && Decodable(staged, q)
      decreases rest
    {
      var q :| q in rest;
      if q in desired && desired[q].Undecodable? { return Err(NotText(q)), wanted; }
      if !SafePath(q) { return Err(UnsafePath), wanted; }
      assert forall p <- wanted :: p.path != q;
      wanted := wanted + [CommitProposal(staged, q, source)];
      proposals := wanted;
      rest := rest - {q};
    }
    CommitBuilds(t, staged, proposals, source);
    var cs := BuildChangeset(t, wanted, []);
    r := if cs.Ok? then Ok(cs.value) else Err(Build(cs.error));
  }

  lemma CommitBuilds(t: Tree, staged: Tree, proposals: seq<ChangeProposal>, source: string)
    requires CommitsTo(t, staged, proposals, source)
    ensures Built(t, proposals, []).Ok? <==> forall q <- Changed(t, staged) :: Decodable(t, q)
  {
    BuiltOkIff(t, proposals, []);
    forall q <- Changed(t, staged)
      ensures BuildOperation(t, CommitProposal(staged, q, source)).Ok? <==> Decodable(t, q)
    {
      assert ".git" !in q;
    }
  }

  // A directory above a file that the commit writes.
  ghost predicate MadeFor(was: Tree, staged: Tree, q: Path) {
    exists p <- Changed(was, staged) :: p in ByteTree(staged) && q < p
  }

  /** Where the root ends up, to the last node: the staged files, its own below anything called .git,
      and its own directories with those above what was written. */
  ghost predicate CommittedTo(was: Tree, staged: Tree, now: Tree) {
    && (forall q :: FileAt(now, q) == if ".git" in q then FileAt(was, q) else FileAt(staged, q))
    && (forall q :: DirAt(now, q) <==> DirAt(was, q) || MadeFor(was, staged, q))
  }

  /** That says which tree it is. */
  lemma CommittedIsOne(was: Tree, staged: Tree, now: Tree, now': Tree)
    requires CommittedTo(was, staged, now) && CommittedTo(was, staged, now')
    ensures now == now'
  {
    hide MadeFor;
    forall q ensures (q in now <==> q in now') && (q in now ==> now[q] == now'[q]) {
      assert FileAt(now, q) == FileAt(now', q) && DirAt(now, q) == DirAt(now', q);
    }
  }

  lemma CommitReaches(t: Tree, staged: Tree, proposals: seq<ChangeProposal>, source: string)
    requires Closed(t) && CommitsTo(t, staged, proposals, source)
    requires forall q <- Changed(t, staged) :: SafePath(q) && Decodable(staged, q)
    requires Built(t, proposals, []).Ok? && Verified(t, Built(t, proposals, []).value.operations).None?
    requires Closed(Installed(t, Mutable(Built(t, proposals, []).value.operations)))
    ensures CommittedTo(t, staged, Installed(t, Mutable(Built(t, proposals, []).value.operations)))
  {
    hide Installed, Mutable, Verified, SafePath, Built, FileAt, DirAt, MadeFor, Changed, CommitsTo, Decodable;
    var now := Installed(t, Mutable(Built(t, proposals, []).value.operations));
    forall q ensures FileAt(now, q) == if ".git" in q then FileAt(t, q) else FileAt(staged, q) {
      CommitReachesAt(t, staged, proposals, source, q);
    }
    forall q ensures DirAt(now, q) <==> DirAt(t, q) || MadeFor(t, staged, q) {
      CommitDirsAt(t, staged, proposals, source, q);
    }
  }

  lemma CommitDirsAt(t: Tree, staged: Tree, proposals: seq<ChangeProposal>, source: string, q: Path)
    requires Closed(t) && CommitsTo(t, staged, proposals, source)
    requires forall q <- Changed(t, staged) :: SafePath(q) && Decodable(staged, q)
    requires Built(t, proposals, []).Ok? && Verified(t, Built(t, proposals, []).value.operations).None?
    requires Closed(Installed(t, Mutable(Built(t, proposals, []).value.operations)))
    ensures DirAt(Installed(t, Mutable(Built(t, proposals, []).value.operations)), q) <==>
      DirAt(t, q) || MadeFor(t, staged, q)
  {
    hide Installed, Mutable, Verified, SafePath, Built, DirAt, Changed, ByteTree;
    DirsAfter(t, proposals, [], q);
    forall p <- Changed(t, staged) | p in ByteTree(staged) && q < p
      ensures exists p' <- proposals :: p'.desired.Some? && q < p'.path
    {
      var p' := CommitProposal(staged, p, source);
      assert p' in proposals && p'.desired.Some?;
    }
  }

  lemma CommitReachesAt(t: Tree, staged: Tree, proposals: seq<ChangeProposal>, source: string, q: Path)
    requires Closed(t) && CommitsTo(t, staged, proposals, source)
    requires forall q <- Changed(t, staged) :: SafePath(q) && Decodable(staged, q)
    requires Built(t, proposals, []).Ok? && Verified(t, Built(t, proposals, []).value.operations).None?
    ensures FileAt(Installed(t, Mutable(Built(t, proposals, []).value.operations)), q)
        == if ".git" in q then FileAt(t, q) else FileAt(staged, q)
  {
    hide Installed, Mutable, Verified, SafePath, Posix, Built, BuildOperation;
    forall p <- proposals ensures SafePath(p.path) && p.path in Changed(t, staged) {}
    if q in Changed(t, staged) {
      ProposedAt(t, proposals, [], CommitProposal(staged, q, source));
    } else {
      assert ".git" !in q ==> FileAt(t, q) == FileAt(staged, q);
      UnproposedAt(t, proposals, [], q);
    }
  }

  // --- Executing ---

  /** The temporary directory: its own faults, and what the package's commands do to the copy. */
  datatype Scratch = Scratch(copyFails: bool, faults: nat -> bool, spared: (nat, Path) -> bool,
                             runner: (Command, ClosedTree) -> CommandEffect)

  function CopyBuilt(plan: InstallPlan, t: ClosedTree): Result<ChangeSet, BuildError> {
    Built(Copied(t), Retarget(plan.changeset.operations), plan.changeset.commands)
  }

  /** What an install stages: the plan applied to a copy, checked, and its lock and audit log completed. */
  function StagedInstall(codec: Codec, plan: InstallPlan, t: ClosedTree, runner: (Command, ClosedTree) -> CommandEffect,
                         scan: Tree -> Option<Inventory>, preflight: Option<string>,
                         now: string): Result<Tree, InstallError>
  {
    match CopyBuilt(plan, t)
    case Err(e) => Err(Build(e))
    case Ok(cs) =>
      var done := RunAll(runner, cs.commands, Copied(t));
      var s := Installed(done.tree, Mutable(cs.operations));
      if Verified(Copied(t), cs.operations).Some? || !done.ok then Err(StagedApplyFailed)
      else if preflight.None? then Err(PreflightFailed)
      else if scan(s).None? then Err(ScanFailed)
      else Completed(codec, plan.candidate, s, scan(s).value, preflight.value, now)
  }

  method CompleteStaged(codec: Codec, c: Candidate, s: Tree, inventory: Inventory, preflight: string, now: string)
    returns (r: Result<Tree, InstallError>)
    ensures r == Completed(codec, c, s, inventory, preflight, now)
    ensures r.Err? ==> !r.error.CommitFailed?
  {
    if ProviderId(c) !in inventory.ids { return Err(NotResolved); }
    if c.provenance.None? { return Err(NotPinned); }
    var locked :=
      WriteText(s, LOCK_PATH,
        RenderLock(codec, s, ProviderEntry(c, c.provenance.value, Some(preflight)), inventory.digest));
    if locked.Err? { return locked; }
    var audit := AppendAudit(codec, locked.value, c, "installed", now);
    if audit.Err? { return Err(audit.error); }
    r := WriteText(locked.value, AUDIT_PATH, audit.value);
  }

  lemma RetargetIsSafe(cs: ChangeSet)
    requires ValidChangeSet(cs)
    ensures forall p <- Retarget(cs.operations) :: SafePath(p.path)
  {
    forall p <- Retarget(cs.operations) ensures SafePath(p.path) {
      var i :| 0 <= i < |cs.operations| && Retarget(cs.operations)[i] == p;
      assert ValidOperation(cs.operations[i]);
    }
  }

  method ApplyToCopy(copy: ClosedTree, cs: ChangeSet, scratch: Scratch) returns (r: Option<Tree>)
    requires ValidChangeSet(cs)
    ensures r.Some? ==> Verified(copy, cs.operations).None? && RunAll(scratch.runner, cs.commands, copy).ok
    ensures r.Some? ==> r.value == Installed(RunAll(scratch.runner, cs.commands, copy).tree, Mutable(cs.operations))
    ensures (forall n: nat :: !scratch.faults(n)) && Unobstructed(scratch.runner, copy, cs) ==> r.Some?
  {
    hide ValidChangeSet, Verified, Separate, OpenWays, Lost, Restored, PlainTargets;
    var staged := new AtomicWriter(copy, scratch.faults, scratch.spared, scratch.runner);
    var outcome := staged.ApplyChangeset(cs);
    r := if outcome.Applied? then Some(staged.root) else None;
  }

  // Copying, applying to the copy, and checking what came of it.
  method Stage(codec: Codec, plan: InstallPlan, t: ClosedTree, scratch: Scratch, scan: Tree -> Option<Inventory>,
               preflight: Option<string>, now: string) returns (r: Result<Tree, InstallError>)
    requires ValidChangeSet(plan.changeset)
    ensures r.Ok? ==> r == StagedInstall(codec, plan, t, scratch.runner, scan, preflight, now)
    ensures r.Err? ==> !r.error.CommitFailed?
    ensures !scratch.copyFails && (forall n: nat :: !scratch.faults(n)) && CopyBuilt(plan, t).Ok?
      && Unobstructed(scratch.runner, Copied(t), CopyBuilt(plan, t).value)
      ==> r == StagedInstall(codec, plan, t, scratch.runner, scan, preflight, now)
  {
    hide ValidChangeSet, Built, SafePath, Completed, Retarget, Installed, RunAll, Verified, Separate, OpenWays;
    if scratch.copyFails || [] !in t { return Err(CopyFailed); }
    var copy := Copied(t);
    var cs := BuildChangeset(copy, Retarget(plan.changeset.operations), plan.changeset.commands);
    if cs.Err? { return Err(Build(cs.error)); }
    RetargetIsSafe(plan.changeset);
    BuiltIsValid(copy, Retarget(plan.changeset.operations), plan.changeset.commands);
    BuiltInOrder(copy, Retarget(plan.changeset.operations), plan.changeset.commands);
    var applied := ApplyToCopy(copy, cs.value, scratch);
    if applied.None? { return Err(StagedApplyFailed); }
    var s := applied.value;
    if preflight.None? { return Err(PreflightFailed); }
    var inventory := scan(s);
    if inventory.None? { return Err(ScanFailed); }
    r := CompleteStaged(codec, plan.candidate, s, inventory.value, preflight.value, now);
  }

  /** Nothing stands in the way of applying cs to t: it is as reviewed, the commands succeed, and no path is below
      another. */
  ghost predicate Unobstructed(runner: (Command, ClosedTree) -> CommandEffect, t: ClosedTree, cs: ChangeSet) {
    var done, ops := RunAll(runner, cs.commands, t), Mutable(cs.operations);
    && [] in t && t[[]].Dir? && Verified(t, cs.operations).None?
    && done.ok && [] in done.tree && done.tree[[]].Dir? && Separate(ops) && OpenWays(done.tree, ops)
  }

  /** The commit can be written: every path that differs is a plain text file, below directories only, none below
      another. */
  ghost predicate Committable(t: Tree, staged: Tree) {
    && [] in t && t[[]].Dir?
    && (forall q <- Changed(t, staged) :: SafePath(q) && Decodable(t, q) && Decodable(staged, q))
    && (forall q <- Changed(t, staged) :: q in t ==> t[q].File?)
    && (forall q <- Changed(t, staged) :: OpenWay(t, q))
    && NoNesting(Changed(t, staged))
  }

  ghost predicate NoNesting(paths: set<Path>) {
    forall p <- paths, q <- paths :: p != q ==> !Comparable(p, q)
  }

  // What is known of a built commit before it is applied.
  lemma CommitIs(t: Tree, staged: Tree, proposals: seq<ChangeProposal>, source: string)
    requires CommitsTo(t, staged, proposals, source) && Built(t, proposals, []).Ok?
    requires forall q <- Changed(t, staged) :: SafePath(q) && Decodable(staged, q)
    ensures var cs := Built(t, proposals, []).value;
      && ValidChangeSet(cs) && cs.commands == []
      && (NoNesting(Changed(t, staged)) ==> Separate(Mutable(cs.operations)))
      && ((forall q <- Changed(t, staged) :: q in t ==> t[q].File?) ==> Verified(t, cs.operations).None?)
      && ((forall q <- Changed(t, staged) :: OpenWay(t, q)) ==> OpenWays(t, Mutable(cs.operations)))
  {
    hide Verified, Mutable, Changed, SafePath, Built, BuildOperation, OpenWay, Posix, ValidOperation, Decodable,
      CommitProposal;
    var cs := Built(t, proposals, []).value;
    var ops := Mutable(cs.operations);
    forall p <- proposals ensures SafePath(p.path) {}
    BuiltIsValid(t, proposals, []);
    BuiltInOrder(t, proposals, []);
    MutableIs(cs.operations);
    FreshlyBuiltPassesIff(t, proposals, []);
    forall i | 0 <= i < |ops|
      ensures ops[i].path in Changed(t, staged) && exists p <- proposals :: p.path == ops[i].path
    {
      var p := BuiltComesFromProposals(t, proposals, [], ops[i]);
      PathOfBuilt(t, p);
    }
  }

  /** Staged on a copy, checked there, then committed: the root is left alone or gets exactly what was staged. */
  method ExecuteInstall(codec: Codec, plan: InstallPlan, project: AtomicWriter, approved: bool, scratch: Scratch,
                        scan: Tree -> Option<Inventory>, preflight: Option<string>, now: string)
    returns (r: Result<seq<Path>, InstallError>)
    requires ValidChangeSet(plan.changeset)
    modifies project
    ensures !approved ==> r == Err(ApprovalRequired)
    // An install that has passed already is not done again.
    ensures approved && PassedPreflight(codec, old(project.root), plan.candidate) ==>
      project.root == old(project.root) && r == if scan(old(project.root)).Some? then Ok([]) else Err(ScanFailed)
    // Success: the root is the staged tree, .git aside.
    ensures r.Ok? && !PassedPreflight(codec, old(project.root), plan.candidate) ==>
      var staged := StagedInstall(codec, plan, old(project.root), scratch.runner, scan, preflight, now);
      staged.Ok? && CommittedTo(old(project.root), staged.value, project.root)
    // Failure: the root is untouched, unless the last step failed and its rollback did not complete.
    ensures r.Err? && !r.error.CommitFailed? ==> project.root == old(project.root)
    ensures r.Err? && r.error.CommitFailed? && r.error.rollbackErrors == [] ==>
      project.halfMade || project.lingered || project.root == old(project.root)
    // And it succeeds when no call fails and nothing is in the way.
    ensures var t := old(project.root);
      approved && !PassedPreflight(codec, t, plan.candidate)
      && !scratch.copyFails && (forall n: nat :: !scratch.faults(n) && !project.faults(n))
      && CopyBuilt(plan, t).Ok? && Unobstructed(scratch.runner, Copied(t), CopyBuilt(plan, t).value)
      && StagedInstall(codec, plan, t, scratch.runner, scan, preflight, now).Ok?
      && Committable(t, StagedInstall(codec, plan, t, scratch.runner, scan, preflight, now).value)
      ==> r.Ok?
  {
    if !approved { return Err(ApprovalRequired); }
    if PassedPreflight(codec, project.root, plan.candidate) {
      return if scan(project.root).Some? then Ok([]) else Err(ScanFailed);
    }
    var staged := Stage(codec, plan, project.root, scratch, scan, preflight, now);
    if staged.Err? { return Err(staged.error); }
    r := Commit(project, staged.value, plan.candidate.ref);
  }

  method Commit(project: AtomicWriter, staged: Tree, source: string) returns (r: Result<seq<Path>, InstallError>)
    modifies project
    ensures r.Ok? ==> CommittedTo(old(project.root), staged, project.root)
    ensures r.Err? && !r.error.CommitFailed? ==> project.root == old(project.root)
    ensures r.Err? && r.error.CommitFailed? && r.error.rollbackErrors == [] ==>
      project.halfMade || project.lingered || project.root == old(project.root)
    ensures (forall n: nat :: !project.faults(n)) && Committable(old(project.root), staged) ==> r.Ok?
  {
    hide CommitsTo, CommittedTo, Changed, Verified, Separate, PlainTargets, OpenWays, OpenWay, NoNesting,
      ValidChangeSet, Built, Lost, Restored;
    var commit;
    ghost var proposals;
    commit, proposals := BuildTreeCommit(project.root, staged, source);
    if commit.Err? { return Err(commit.error); }
    ghost var was := project.root;
    CommitIs(was, staged, proposals, source);
    var outcome := project.ApplyChangeset(commit.value);
    match outcome
    case Applied(paths) =>
      CommitReaches(was, staged, proposals, source);
      r := Ok(paths);
    case RolledBack(errors) => r := Err(CommitFailed(errors));
    case _ => r := Err(CommitFailed([]));
  }
}
