/** Installs in sequence, their reversal in reverse order, and the reversals that are refused. */
module InstallTheorems {
  import opened Wrappers
  import opened Ordering
  import opened Trees
  import opened ChangeSets
  import opened WriterModel
  import opened Journals
  import opened Nesting
  import opened Writer
  import opened Overlay
  import opened InstallModel
  import opened Install
  import opened InstallLaws
  import opened Uninstall

  // --- What an install leaves in each file ---

  lemma WrittenFiles(t: Tree, p: Path, text: string, q: Path)
    requires WriteText(t, p, text).Ok?
    ensures FileAt(WriteText(t, p, text).value, q) == if q == p then Some(Text(text)) else FileAt(t, q)
  {
  }

  lemma TransactionIsApart(c: Candidate)
    ensures TransactionPath(ProviderId(c)) != LOCK_PATH && TransactionPath(ProviderId(c)) != AUDIT_PATH
    ensures LOCK_PATH != AUDIT_PATH
    ensures ".git" !in LOCK_PATH && ".git" !in AUDIT_PATH
  {
    assert |TransactionPath(ProviderId(c))| >= 3;
    assert |"capabilities.lock"| != |"audit.log"|;
    assert |".git"| != |".ai-project"| && |".git"| != |"capabilities.lock"| && |".git"| != |"audit.log"|;
  }

  // The staged tree of an install that went through: the draft, its lock and its audit log.
  lemma StagedIs(codec: Codec, t: ClosedTree, r: Request, scan: Tree -> Option<Inventory>,
                 runner: (Command, ClosedTree) -> CommandEffect)
    returns (draft: Tree, locked: Tree, inventory: Inventory)
    requires StagedFor(codec, t, r, scan, runner).Ok?
    ensures PlanFor(codec, t, r).Ok? && CopyBuilt(PlanFor(codec, t, r).value, t).Ok?
    ensures draft == Draft(codec, t, r, runner)
    ensures r.candidate.provenance.Some? && r.preflight.Some?
    ensures scan(draft) == Some(inventory) && ProviderId(r.candidate) in inventory.ids
    ensures var entry := ProviderEntry(r.candidate, r.candidate.provenance.value, Some(r.preflight.value));
      WriteText(draft, LOCK_PATH, RenderLock(codec, draft, entry, inventory.digest)) == Ok(locked)
    ensures var audit := AppendAudit(codec, locked, r.candidate, "installed", r.finishedAt);
      audit.Ok? && WriteText(locked, AUDIT_PATH, audit.value) == StagedFor(codec, t, r, scan, runner)
  {
    hide StagedFor, PlanFor, CopyBuilt, Draft, RenderLock, AppendAudit, WriteText, Built;
    DraftIs(codec, t, r, scan, runner);
    draft := Draft(codec, t, r, runner);
    inventory := scan(draft).value;
    var entry := ProviderEntry(r.candidate, r.candidate.provenance.value, Some(r.preflight.value));
    locked := WriteText(draft, LOCK_PATH, RenderLock(codec, draft, entry, inventory.digest)).value;
  }

  /** An install without commands writes the paths it records, and no other file. */
  lemma InstallTouchesOnly(codec: Codec, t: ClosedTree, r: Request, scan: Tree -> Option<Inventory>,
                           runner: (Command, ClosedTree) -> CommandEffect, now: Tree, q: Path)
    requires r.package.commands == [] && Installs(codec, t, r, scan, runner, now) && ".git" !in q
    requires q !in RecordedPaths(r.candidate, r.package)
    ensures FileAt(now, q) == FileAt(t, q)
  {
    hide StagedFor, PlanFor, CopyBuilt, Draft, RenderLock, AppendAudit, WriteText, FileAt, TransactionPath, DirAt,
      MadeFor;
    var draft, locked, inventory := StagedIs(codec, t, r, scan, runner);
    DraftFiles(codec, t, r, scan, runner, q);
    assert q != LOCK_PATH && q != AUDIT_PATH by { FixedAreRecorded(r); }
    var entry := ProviderEntry(r.candidate, r.candidate.provenance.value, Some(r.preflight.value));
    WrittenFiles(draft, LOCK_PATH, RenderLock(codec, draft, entry, inventory.digest), q);
    WrittenFiles(locked, AUDIT_PATH, AppendAudit(codec, locked, r.candidate, "installed", r.finishedAt).value, q);
  }

  lemma FixedAreRecorded(r: Request)
    ensures var paths := RecordedPaths(r.candidate, r.package);
      LOCK_PATH in paths && AUDIT_PATH in paths && TransactionPath(ProviderId(r.candidate)) in paths
  {
    var paths, n := RecordedPaths(r.candidate, r.package), |r.package.files|;
    assert paths[n] == LOCK_PATH && paths[n + 1] == AUDIT_PATH
      && paths[n + 2] == TransactionPath(ProviderId(r.candidate));
  }

  lemma FixedAreProposed(codec: Codec, t: ClosedTree, r: Request)
    requires PlanFor(codec, t, r).Ok?
    ensures (PlanIs(codec, t, r);
      var ps, c := PlanProposals(codec, t, r), r.candidate;
      && Own(LOCK_PATH, LockText(codec, t, r), c) in ps
      && Own(AUDIT_PATH, AppendAudit(codec, t, c, "planned", r.plannedAt).value, c) in ps
      && Own(TransactionPath(ProviderId(c)), codec.dumpTransaction(RecordedTransaction(t, r)), c) in ps)
  {
    hide PlanFor, LockText, AppendAudit, TransactionPath, RecordedTransaction, Recorded;
    PlanIs(codec, t, r);
    var ps, n := PlanProposals(codec, t, r), |r.package.files|;
    assert ps[n].path == LOCK_PATH && ps[n + 1].path == AUDIT_PATH && ps[n] in ps && ps[n + 1] in ps && ps[n + 2] in ps;
  }

  // The last two writes leave every other file of the draft alone, and the commit carries them all over.
  lemma DraftIsCommitted(codec: Codec, t: ClosedTree, r: Request, scan: Tree -> Option<Inventory>,
                         runner: (Command, ClosedTree) -> CommandEffect, now: Tree, q: Path)
    requires Installs(codec, t, r, scan, runner, now) && ".git" !in q && q != LOCK_PATH && q != AUDIT_PATH
    ensures PlanFor(codec, t, r).Ok? && CopyBuilt(PlanFor(codec, t, r).value, t).Ok?
    ensures FileAt(now, q) == FileAt(Draft(codec, t, r, runner), q)
  {
    hide StagedFor, PlanFor, CopyBuilt, Draft, RenderLock, AppendAudit, WriteText, FileAt, LOCK_PATH, AUDIT_PATH, DirAt,
      MadeFor;
    var draft, locked, inventory := StagedIs(codec, t, r, scan, runner);
    var entry := ProviderEntry(r.candidate, r.candidate.provenance.value, Some(r.preflight.value));
    WrittenFiles(draft, LOCK_PATH, RenderLock(codec, draft, entry, inventory.digest), q);
    WrittenFiles(locked, AUDIT_PATH, AppendAudit(codec, locked, r.candidate, "installed", r.finishedAt).value, q);
  }

  /** A transaction quotes the file it replaces, so it never is that very file. */
  lemma TransactionIsNew(codec: Codec, t: ClosedTree, r: Request)
    requires Faithful(codec) && PlanFor(codec, t, r).Ok?
    ensures (PlanIs(codec, t, r);
      FileAt(t, TransactionPath(ProviderId(r.candidate))) !=
        Some(Text(codec.dumpTransaction(RecordedTransaction(t, r)))))
  {
    hide PlanFor, TransactionPath, RecordedPaths, Recorded, ReadText, FileAt, Universal;
    PlanIs(codec, t, r);
    var q, tx := TransactionPath(ProviderId(r.candidate)), RecordedTransaction(t, r);
    UniversalKeepsIff(codec.dumpTransaction(tx));
    if FileAt(t, q) == Some(Text(codec.dumpTransaction(tx))) {
      QuotedIsShorter(codec, t, r, codec.dumpTransaction(tx));
    }
  }

  lemma QuotedIsShorter(codec: Codec, t: ClosedTree, r: Request, text: string)
    requires Faithful(codec) && Recorded(t, r.candidate, r.package).Ok?
    requires FileAt(t, TransactionPath(ProviderId(r.candidate))) == Some(Text(text)) && Universal(text) == text
    ensures |text| < |codec.dumpTransaction(RecordedTransaction(t, r))|
  {
    hide TransactionPath, RecordedPaths, Recorded, ReadText, FileAt, Universal;
    var q, tx := TransactionPath(ProviderId(r.candidate)), RecordedTransaction(t, r);
    FixedAreRecorded(r);
    RecordedAre(t, r.candidate, r.package);
    ReadTextIs(t, q);
    assert Saved(q, Some(text)) in tx.before;
  }

  /** An install leaves its transaction where an uninstall looks for it, whatever its commands do. */
  lemma InstallRecords(codec: Codec, t: ClosedTree, r: Request, scan: Tree -> Option<Inventory>,
                       runner: (Command, ClosedTree) -> CommandEffect, now: Tree)
    requires Installs(codec, t, r, scan, runner, now) && ".git" !in TransactionPath(ProviderId(r.candidate))
    requires Faithful(codec) || r.package.commands == []
    ensures PlanFor(codec, t, r).Ok?
    ensures (PlanIs(codec, t, r);
      FileAt(now, TransactionPath(ProviderId(r.candidate))) ==
        Some(Text(codec.dumpTransaction(RecordedTransaction(t, r)))))
  {
    hide StagedFor, PlanFor, CopyBuilt, Draft, FileAt, TransactionPath, PlanProposals, RecordedTransaction, Recorded,
      AppendAudit, LockText, Installs, Faithful;
    var q := TransactionPath(ProviderId(r.candidate));
    TransactionIsApart(r.candidate);
    DraftIsCommitted(codec, t, r, scan, runner, now, q);
    StagedOk(codec, t, r, scan, runner, now);
    PlanIs(codec, t, r);
    FixedAreProposed(codec, t, r);
    if r.package.commands == [] {
      DraftFiles(codec, t, r, scan, runner, q);
    } else {
      TransactionIsNew(codec, t, r);
      DraftAt(codec, t, r, scan, runner, Own(q, codec.dumpTransaction(RecordedTransaction(t, r)), r.candidate));
    }
  }

  lemma StagedOk(codec: Codec, t: ClosedTree, r: Request, scan: Tree -> Option<Inventory>,
                 runner: (Command, ClosedTree) -> CommandEffect, now: Tree)
    requires Installs(codec, t, r, scan, runner, now)
    ensures StagedFor(codec, t, r, scan, runner).Ok?
  {
  }

  // --- The lock and the audit log after an install ---

  lemma LockedIs(codec: Codec, t: Tree, l: Lock)
    requires Faithful(codec) && FileAt(t, LOCK_PATH) == Some(Text(codec.dumpLock(l)))
    ensures LockedProviders(codec, t) == l.providers
  {
    hide LOCK_PATH;
    UniversalKeepsIff(codec.dumpLock(l));
    ReadTextIs(t, LOCK_PATH);
  }

  // The two entries an install makes for its provider: the planned one, and the one with its preflight.
  function PlannedEntry(r: Request): (entry: Provider)
    requires r.candidate.provenance.Some?
    ensures entry.id == StringId(ProviderId(r.candidate)) && entry.preflight.None?
  {
    ProviderEntry(r.candidate, r.candidate.provenance.value, None)
  }

  function PassedEntry(r: Request): (entry: Provider)
    requires r.candidate.provenance.Some? && r.preflight.Some?
    ensures entry.id == StringId(ProviderId(r.candidate)) && entry.preflight.Some?
  {
    ProviderEntry(r.candidate, r.candidate.provenance.value, r.preflight)
  }

  /** The lock is completed last: whatever the commands did, the install's own entry is put into what the draft has. */
  lemma FinalLock(codec: Codec, t: ClosedTree, r: Request, scan: Tree -> Option<Inventory>,
                  runner: (Command, ClosedTree) -> CommandEffect, now: Tree)
    requires Faithful(codec) && Installs(codec, t, r, scan, runner, now)
    ensures PlanFor(codec, t, r).Ok? && CopyBuilt(PlanFor(codec, t, r).value, t).Ok?
    ensures r.candidate.provenance.Some? && r.preflight.Some?
    ensures LockedProviders(codec, now) ==
      NextProviders(LockedProviders(codec, Draft(codec, t, r, runner)), PassedEntry(r))
  {
    hide StagedFor, PlanFor, CopyBuilt, Draft, AppendAudit, WriteText, FileAt, TransactionPath, LockedProviders,
      NextProviders, ProviderEntry, Faithful, LOCK_PATH, AUDIT_PATH, DirAt, MadeFor;
    var draft, locked, inventory := StagedIs(codec, t, r, scan, runner);
    TransactionIsApart(r.candidate);
    var last := PassedEntry(r);
    WrittenFiles(draft, LOCK_PATH, RenderLock(codec, draft, last, inventory.digest), LOCK_PATH);
    WrittenFiles(locked, AUDIT_PATH, AppendAudit(codec, locked, r.candidate, "installed", r.finishedAt).value,
      LOCK_PATH);
    LockedIs(codec, now, Lock(inventory.digest, NextProviders(LockedProviders(codec, draft), last)));
  }

  /** Repeating an install that went through does nothing, whatever its commands did: the lock says it has passed. */
  lemma RepeatedInstallIsNoOp(codec: Codec, t: ClosedTree, r: Request, scan: Tree -> Option<Inventory>,
                              runner: (Command, ClosedTree) -> CommandEffect, now: Tree)
    requires Faithful(codec) && Installs(codec, t, r, scan, runner, now)
    ensures PassedPreflight(codec, now, r.candidate)
  {
    hide Installs, LockedProviders, NextProviders, Faithful, PlanFor, CopyBuilt, Draft;
    FinalLock(codec, t, r, scan, runner, now);
    OnlyEntryWithId(LockedProviders(codec, Draft(codec, t, r, runner)), PassedEntry(r));
  }

  lemma OnlyEntryWithId(ps: seq<Provider>, entry: Provider)
    ensures FirstWith(NextProviders(ps, entry), entry.id) == Some(entry)
    ensures forall p :: p in NextProviders(ps, entry) <==> p == entry || (p in ps && p.id != entry.id)
  {
    var all := Others(ps, entry.id) + [entry];
    OthersAre(ps, entry.id);
    SortPermutes(all, ByKey(ProviderKey));
    FirstWithIs(NextProviders(ps, entry), entry.id);
    assert entry in all;
  }

  /** The planned lock is not what the root has already. */
  ghost predicate LockIsNew(codec: Codec, t: Tree, r: Request)
    requires r.candidate.provenance.Some?
  {
    FileAt(t, LOCK_PATH) != Some(Text(LockText(codec, t, r)))
  }

  /** The providers that an install adds its own to: as planned from the root, if that is new to it; else as the
      commands left them. */
  function LockBefore(codec: Codec, t: ClosedTree, r: Request,
                      runner: (Command, ClosedTree) -> CommandEffect): seq<Provider>
    requires r.candidate.provenance.Some?
  {
    if FileAt(t, LOCK_PATH) != Some(Text(LockText(codec, t, r)))
      then NextProviders(LockedProviders(codec, t), PlannedEntry(r))
    else LockedProviders(codec, AfterCommands(t, r, runner))
  }

  /** The lock after an install, whatever its commands did. */
  lemma InstallLocks(codec: Codec, t: ClosedTree, r: Request, scan: Tree -> Option<Inventory>,
                     runner: (Command, ClosedTree) -> CommandEffect, now: Tree)
    requires Faithful(codec) && Installs(codec, t, r, scan, runner, now)
    ensures r.candidate.provenance.Some? && r.preflight.Some?
    ensures LockedProviders(codec, now) == NextProviders(LockBefore(codec, t, r, runner), PassedEntry(r))
    ensures LockIsNew(codec, t, r) || r.package.commands == [] ==>
      LockBefore(codec, t, r, runner) == NextProviders(LockedProviders(codec, t), PlannedEntry(r))
  {
    hide Installs, StagedFor, PlanFor, CopyBuilt, Draft, AppendAudit, FileAt, TransactionPath, PlanProposals,
      Recorded, LockedProviders, NextProviders, ProviderEntry, Faithful, LOCK_PATH, AUDIT_PATH, AfterCommands;
    FinalLock(codec, t, r, scan, runner, now);
    StagedOk(codec, t, r, scan, runner, now);
    FixedAreProposed(codec, t, r);
    PlanIs(codec, t, r);
    TransactionIsApart(r.candidate);
    var draft, next := Draft(codec, t, r, runner), NextProviders(LockedProviders(codec, t), PlannedEntry(r));
    DraftAt(codec, t, r, scan, runner, Own(LOCK_PATH, LockText(codec, t, r), r.candidate));
    if LockIsNew(codec, t, r) {
      LockedIs(codec, draft, Lock(codec.hex(r.candidate.provenance.value.digest), next));
    } else {
      LockedIs(codec, t, Lock(codec.hex(r.candidate.provenance.value.digest), next));
      SameLock(codec, draft, AfterCommands(t, r, runner));
      if r.package.commands == [] { NoCommands(codec, t, r, runner); }
    }
  }

  lemma SameLock(codec: Codec, t: Tree, t': Tree)
    requires FileAt(t, LOCK_PATH) == FileAt(t', LOCK_PATH)
    ensures LockedProviders(codec, t) == LockedProviders(codec, t')
  {
    hide LOCK_PATH;
  }

  lemma NoCommands(codec: Codec, t: ClosedTree, r: Request, runner: (Command, ClosedTree) -> CommandEffect)
    requires r.package.commands == []
    ensures LockedProviders(codec, AfterCommands(t, r, runner)) == LockedProviders(codec, t)
  {
    hide LOCK_PATH;
    TransactionIsApart(r.candidate);
    CopiedFiles(t, LOCK_PATH);
    SameLock(codec, AfterCommands(t, r, runner), t);
  }

  /** The other case is real: planned over the very same lock, an install keeps what a command makes of it.
      A command that empties the lock drops every other provider. */
  lemma EmptiedLockStays(codec: Codec, t: ClosedTree, r: Request, scan: Tree -> Option<Inventory>,
                         runner: (Command, ClosedTree) -> CommandEffect, now: Tree, empty: Command, other: Provider)
    requires Faithful(codec) && Installs(codec, t, r, scan, runner, now) && r.package.commands == [empty]
    requires runner(empty, Copied(t)).tree == Copied(t)[LOCK_PATH := File(Text(codec.dumpLock(Lock("", []))))]
    requires r.candidate.provenance.Some? && !LockIsNew(codec, t, r)
    requires other in LockedProviders(codec, t) && other.id != StringId(ProviderId(r.candidate))
    ensures r.preflight.Some? && LockedProviders(codec, now) == [PassedEntry(r)]
    ensures other !in LockedProviders(codec, now)
    ensures other in NextProviders(NextProviders(LockedProviders(codec, t), PlannedEntry(r)), PassedEntry(r))
  {
    hide Installs, LockedProviders, Faithful, LockText, ProviderEntry, LOCK_PATH;
    InstallLocks(codec, t, r, scan, runner, now);
    assert RunAll(runner, r.package.commands[1..], runner(empty, Copied(t)).tree).tree == runner(empty, Copied(t)).tree;
    assert AfterCommands(t, r, runner) == runner(empty, Copied(t)).tree;
    LockedIs(codec, AfterCommands(t, r, runner), Lock("", []));
    OnlyEntryWithId(LockedProviders(codec, t), PlannedEntry(r));
    OnlyEntryWithId(NextProviders(LockedProviders(codec, t), PlannedEntry(r)), PassedEntry(r));
    OnlyInEmpty(PassedEntry(r));
  }

  lemma OnlyInEmpty(entry: Provider)
    ensures NextProviders([], entry) == [entry]
  {
    assert Others([], entry.id) + [entry] == [entry];
    assert Sort([entry][1..], ByKey(ProviderKey)) == [];
  }

  /** A lock that only completed installs have written: every entry has passed its preflight. */
  ghost predicate AllPassed(ps: seq<Provider>) {
    forall p <- ps :: p.preflight.Some?
  }

  /** The commands have no say in the lock: there are none, or the planned lock is new. */
  ghost predicate LockIsOwn(codec: Codec, t: Tree, r: Request) {
    r.package.commands == [] || (r.candidate.provenance.Some? && LockIsNew(codec, t, r))
  }

  /** On such a lock the plan of any install is new, and such a lock it leaves: no command has a say in it. */
  lemma CompletedLocksStay(codec: Codec, t: ClosedTree, r: Request, scan: Tree -> Option<Inventory>,
                           runner: (Command, ClosedTree) -> CommandEffect, now: Tree)
    requires Faithful(codec) && Installs(codec, t, r, scan, runner, now) && AllPassed(LockedProviders(codec, t))
    ensures LockIsOwn(codec, t, r) && AllPassed(LockedProviders(codec, now))
  {
    hide Installs, LockedProviders, NextProviders, ProviderEntry, Faithful, LOCK_PATH, FileAt;
    InstallLocks(codec, t, r, scan, runner, now);
    var ps, first, last := LockedProviders(codec, t), PlannedEntry(r), PassedEntry(r);
    OnlyEntryWithId(ps, first);
    if !LockIsNew(codec, t, r) {
      LockedIs(codec, t, Lock(codec.hex(r.candidate.provenance.value.digest), NextProviders(ps, first)));
    }
    OnlyEntryWithId(NextProviders(ps, first), last);
  }

  /** Over any number of installs, the lock stays sorted and unique, and holds the last entry of every provider. */
  lemma {:induction false} LockOfLastEntries(codec: Codec, trees: seq<ClosedTree>, rs: seq<Request>,
                                             scan: Tree -> Option<Inventory>,
                                             runner: (Command, ClosedTree) -> CommandEffect, id: Id)
    requires Faithful(codec) && |trees| == |rs| + 1 && UniqueIds(LockedProviders(codec, trees[0]))
    requires forall i :: 0 <= i < |rs| ==> Installs(codec, trees[i], rs[i], scan, runner, trees[i + 1])
    requires forall i :: 0 <= i < |rs| ==> LockIsOwn(codec, trees[i], rs[i])
    ensures UniqueIds(LockedProviders(codec, trees[|rs|]))
    ensures rs != [] ==> Sorted(LockedProviders(codec, trees[|rs|]), ByKey(ProviderKey))
    ensures FirstWith(LockedProviders(codec, trees[|rs|]), id) ==
      match LastRequest(rs, id)
      case None => FirstWith(LockedProviders(codec, trees[0]), id)
      case Some(r) =>
        if r.candidate.provenance.Some? then Some(ProviderEntry(r.candidate, r.candidate.provenance.value, r.preflight))
        else None
  {
    hide Installs, LockedProviders, NextProviders, Faithful, UniqueIds, Sorted, ByKey, LockIsNew, LockBefore;
    if rs != [] {
      var n := |rs| - 1;
      LockOfLastEntries(codec, trees[..n + 1], rs[..n], scan, runner, id);
      InstallLocks(codec, trees[n], rs[n], scan, runner, trees[n + 1]);
      var first, last := PlannedEntry(rs[n]), PassedEntry(rs[n]);
      var ps := LockedProviders(codec, trees[n]);
      RenderKeeps(ps, first);
      RenderKeeps(NextProviders(ps, first), last);
      RenderFinds(ps, first, id);
      RenderFinds(NextProviders(ps, first), last, id);
    }
  }

  /** From a lock of completed installs on, that holds whatever commands the packages bring. */
  lemma {:induction false} LocksOfCompletedInstalls(codec: Codec, trees: seq<ClosedTree>, rs: seq<Request>,
                                                    scan: Tree -> Option<Inventory>,
                                                    runner: (Command, ClosedTree) -> CommandEffect)
    requires Faithful(codec) && |trees| == |rs| + 1 && AllPassed(LockedProviders(codec, trees[0]))
    requires forall i :: 0 <= i < |rs| ==> Installs(codec, trees[i], rs[i], scan, runner, trees[i + 1])
    ensures AllPassed(LockedProviders(codec, trees[|rs|]))
    ensures forall i :: 0 <= i < |rs| ==> LockIsOwn(codec, trees[i], rs[i])
  {
    hide Installs, LockedProviders, Faithful, LockIsOwn, AllPassed;
    if rs != [] {
      var n := |rs| - 1;
      LocksOfCompletedInstalls(codec, trees[..n + 1], rs[..n], scan, runner);
      CompletedLocksStay(codec, trees[n], rs[n], scan, runner, trees[n + 1]);
      assert forall i :: 0 <= i < n ==> rs[..n][i] == rs[i] && trees[..n + 1][i] == trees[i];
    }
  }

  function LastRequest(rs: seq<Request>, id: Id): Option<Request> {
    if rs == [] then None
    else if StringId(ProviderId(rs[|rs| - 1].candidate)) == id then Some(rs[|rs| - 1])
    else LastRequest(rs[..|rs| - 1], id)
  }

  /** The planned audit log is always new: it is longer by a line. */
  lemma AuditIsNew(codec: Codec, t: Tree, c: Candidate, status: string, at: string)
    requires Faithful(codec) && AppendAudit(codec, t, c, status, at).Ok?
    ensures FileAt(t, AUDIT_PATH) != Some(Text(AppendAudit(codec, t, c, status, at).value))
  {
    hide LOCK_PATH, AUDIT_PATH;
    var text := AppendAudit(codec, t, c, status, at).value;
    AuditIsClean(codec, t, c, status, at);
    if FileAt(t, AUDIT_PATH) == Some(Text(text)) { AuditGrows(codec, t, c, status, at, text); }
  }

  lemma AuditGrows(codec: Codec, t: Tree, c: Candidate, status: string, at: string, text: string)
    requires FileAt(t, AUDIT_PATH) == Some(Text(text)) && Universal(text) == text
    ensures AppendAudit(codec, t, c, status, at).Ok? && |text| < |AppendAudit(codec, t, c, status, at).value|
  {
    hide LOCK_PATH, AUDIT_PATH;
    ReadTextIs(t, AUDIT_PATH);
  }

  /** The audit log only grows, whatever the commands do: by a line when the install is planned, and by one when it
      is done. */
  lemma AuditIsAppended(codec: Codec, t: ClosedTree, r: Request, scan: Tree -> Option<Inventory>,
                        runner: (Command, ClosedTree) -> CommandEffect, now: Tree)
    requires Faithful(codec) && Installs(codec, t, r, scan, runner, now)
    ensures ReadText(t, AUDIT_PATH).Ok?
    ensures var before := ReadText(t, AUDIT_PATH).value;
      FileAt(now, AUDIT_PATH) == Some(Text((if before.Some? then before.value else "")
                                           + AuditLine(codec, r.candidate, "planned", r.plannedAt)
                                           + AuditLine(codec, r.candidate, "installed", r.finishedAt)))
  {
    hide StagedFor, PlanFor, CopyBuilt, Draft, WriteText, FileAt, TransactionPath, PlanProposals, Recorded,
      LockedProviders, NextProviders, ProviderEntry, Faithful, LOCK_PATH, AUDIT_PATH, ReadText, AuditLine, DirAt,
      MadeFor;
    var draft, locked, inventory := StagedIs(codec, t, r, scan, runner);
    TransactionIsApart(r.candidate);
    PlanIs(codec, t, r);
    var last := ProviderEntry(r.candidate, r.candidate.provenance.value, Some(r.preflight.value));
    FixedAreProposed(codec, t, r);
    var planned := AppendAudit(codec, t, r.candidate, "planned", r.plannedAt).value;
    AuditIsNew(codec, t, r.candidate, "planned", r.plannedAt);
    DraftAt(codec, t, r, scan, runner, Own(AUDIT_PATH, planned, r.candidate));
    WrittenFiles(draft, LOCK_PATH, RenderLock(codec, draft, last, inventory.digest), AUDIT_PATH);
    ReadTextIs(locked, AUDIT_PATH);
    AuditIsClean(codec, t, r.candidate, "planned", r.plannedAt);
    WrittenFiles(locked, AUDIT_PATH, AppendAudit(codec, locked, r.candidate, "installed", r.finishedAt).value,
      AUDIT_PATH);
  }

  lemma AuditIsClean(codec: Codec, t: Tree, c: Candidate, status: string, at: string)
    requires Faithful(codec) && AppendAudit(codec, t, c, status, at).Ok?
    ensures Universal(AppendAudit(codec, t, c, status, at).value) == AppendAudit(codec, t, c, status, at).value
  {
    hide LOCK_PATH, AUDIT_PATH;
    var text := AppendAudit(codec, t, c, status, at).value;
    ReadTextIs(t, AUDIT_PATH);
    CleanText(t, AUDIT_PATH);
    assert '\r' !in AuditLine(codec, c, status, at);
    UniversalKeepsIff(text);
  }

  lemma CleanText(t: Tree, p: Path)
    ensures ReadText(t, p).Ok? && ReadText(t, p).value.Some? ==> '\r' !in ReadText(t, p).value.value
  {
    if FileAt(t, p).Some? && FileAt(t, p).value.Text? { UniversalKeepsIff(FileAt(t, p).value.text); }
  }

  // --- Reversal ---

  /** The same files everywhere but under .git; directories may differ. */
  ghost predicate SameFiles(t: Tree, t': Tree) {
    forall q :: ".git" !in q ==> FileAt(t, q) == FileAt(t', q)
  }

  lemma {:induction false} SavedAre(t: Tree, paths: seq<Path>)
    requires SaveAll(t, paths).Ok?
    ensures forall s <- SaveAll(t, paths).value :: s.path in paths && ReadText(t, s.path) == Ok(s.text)
    ensures forall q <- paths :: ReadText(t, q).Ok? && Saved(q, ReadText(t, q).value) in SaveAll(t, paths).value
  {
    hide ReadText;
    if paths != [] {
      var front := paths[..|paths| - 1];
      SavedAre(t, front);
      assert paths == front + [paths[|paths| - 1]];
    }
  }

  lemma {:induction false} DistinctKeeps(paths: seq<Path>)
    ensures forall q :: q in Distinct(paths) <==> q in paths
  {
    if paths != [] {
      var front := paths[..|paths| - 1];
      DistinctKeeps(front);
      assert paths == front + [paths[|paths| - 1]];
    }
  }

  /** A transaction records the text of every path its install writes. */
  lemma RecordedAre(t: Tree, c: Candidate, p: Package)
    requires Recorded(t, c, p).Ok?
    ensures forall s <- Recorded(t, c, p).value :: s.path in RecordedPaths(c, p) && ReadText(t, s.path) == Ok(s.text)
    ensures forall q <- RecordedPaths(c, p) ::
      ReadText(t, q).Ok?
      && Saved(q, ReadText(t, q).value) in Recorded(t, c, p).value
  {
    hide RecordedPaths, ReadText;
    var paths := Distinct(RecordedPaths(c, p));
    DistinctKeeps(RecordedPaths(c, p));
    SortPermutes(paths, ByKey(PathKey));
    SavedAre(t, Sort(paths, ByKey(PathKey)));
  }

  lemma ReversalOf(tx: Transaction, s: Saved) returns (p: ChangeProposal)
    requires s in tx.before
    ensures p in Reversal(tx) && p.path == s.path && p.desired == s.text && p.ownership.Owned?
  {
    var i :| 0 <= i < |tx.before| && tx.before[i] == s;
    p := Reversal(tx)[i];
  }

  lemma ReversalAddsNone(tx: Transaction, p: ChangeProposal)
    requires p in Reversal(tx)
    ensures p.ownership.Owned? && exists s <- tx.before :: s.path == p.path
  {
    var i :| 0 <= i < |Reversal(tx)| && Reversal(tx)[i] == p;
    assert tx.before[i] in tx.before;
  }

  lemma ReversalIsSafe(tx: Transaction)
    requires forall s <- tx.before :: SafePath(s.path)
    ensures forall p <- Reversal(tx) :: SafePath(p.path) && p.ownership.Owned?
  {
    hide SafePath, Reversal;
    forall p <- Reversal(tx) ensures SafePath(p.path) && p.ownership.Owned? { ReversalAddsNone(tx, p); }
  }

  // A reversed tree, file by file.
  lemma ReversedAt(t: Tree, tx: Transaction, q: Path)
    requires Closed(t) && forall s <- tx.before :: SafePath(s.path)
    requires Built(t, Reversal(tx), []).Ok? && Verified(t, Built(t, Reversal(tx), []).value.operations).None?
    ensures var now := Installed(t, Mutable(Built(t, Reversal(tx), []).value.operations));
      && (forall s <- tx.before :: s.path == q ==> FileAt(now, q) == AsContent(s.text))
      && ((forall s <- tx.before :: s.path != q) ==> FileAt(now, q) == FileAt(t, q))
  {
    hide Built, Installed, Mutable, Verified, SafePath, FileAt, AsContent, Reversal;
    ReversalIsSafe(tx);
    forall s <- tx.before | s.path == q
      ensures FileAt(Installed(t, Mutable(Built(t, Reversal(tx), []).value.operations)), q) == AsContent(s.text)
    {
      var p := ReversalOf(tx, s);
      ProposedAt(t, Reversal(tx), [], p);
    }
    if forall s <- tx.before :: s.path != q {
      forall p <- Reversal(tx) ensures p.path != q { ReversalAddsNone(tx, p); }
      UnproposedAt(t, Reversal(tx), [], q);
    }
  }

  // And so is its trial on a copy.
  lemma TrialAt(t: ClosedTree, tx: Transaction, q: Path)
    requires (forall s <- tx.before :: SafePath(s.path)) && Trial(t, tx).Ok? && ".git" !in q
    ensures forall s <- tx.before :: s.path == q ==> FileAt(Trial(t, tx).value, q) == AsContent(s.text)
    ensures (forall s <- tx.before :: s.path != q) ==> FileAt(Trial(t, tx).value, q) == FileAt(t, q)
  {
    hide Built, Installed, Mutable, Verified, SafePath, FileAt, AsContent, Reversal, Copied, Retarget;
    ReversalIsSafe(tx);
    assert AppliesToCopy(t, Reversal(tx)) && Trial(t, tx).value == AppliedToCopy(t, Reversal(tx));
    hide Trial, AppliesToCopy, AppliedToCopy;
    forall s <- tx.before | s.path == q ensures FileAt(Trial(t, tx).value, q) == AsContent(s.text) {
      var p := ReversalOf(tx, s);
      CopyProposedAt(t, Reversal(tx), p);
    }
    if forall s <- tx.before :: s.path != q {
      forall p <- Reversal(tx) ensures p.path != q { ReversalAddsNone(tx, p); }
      CopyUnproposedAt(t, Reversal(tx), q);
    }
  }

  // --- The transaction an uninstall finds ---

  lemma {:induction false} SlashSplits(posix: string)
    requires '/' in posix
    ensures |Split(posix)| >= 2
  {
    if posix[0] != '/' { SlashSplits(posix[1..]); }
  }

  lemma TransactionIsFound(c: Candidate)
    requires '/' !in c.name
    ensures IsTransactionFile(TransactionPath(ProviderId(c))) && ".git" !in TransactionPath(ProviderId(c))
  {
    var id := ProviderId(c);
    assert '/' !in Prefix(c.kind) && '/' !in id;
    var name := id + JSON_SUFFIX;
    NoSlash(name);
    var p := TransactionPath(id);
    assert p == TRANSACTION_ROOT + [name] && Parent(p) == TRANSACTION_ROOT && p[|p| - 1] == name;
    assert name[|name| - |JSON_SUFFIX|..] == JSON_SUFFIX;
    assert name[|name| - 1] == 'n' && ".git"[|".git"| - 1] == 't';
    assert |".ai-project"| != |".git"| && |"install-transactions"| != |".git"|;
  }

  /** An install's transaction is where an uninstall looks, if and only if the name has no slash. */
  lemma TransactionIsFoundIff(c: Candidate)
    ensures IsTransactionFile(TransactionPath(ProviderId(c))) <==> '/' !in c.name
  {
    if '/' in c.name {
      SlashSplits(ProviderId(c) + ".json");
      assert |Parent(TransactionPath(ProviderId(c)))| >= 3;
    } else {
      TransactionIsFound(c);
    }
  }

  /** An uninstall right after an install finds the very transaction that install recorded. */
  lemma FindsItsTransaction(codec: Codec, t: ClosedTree, r: Request, scan: Tree -> Option<Inventory>,
                            runner: (Command, ClosedTree) -> CommandEffect, now: Tree, t1: Tree, p: Path)
    requires Faithful(codec) && Installs(codec, t, r, scan, runner, now) && SameFiles(t1, now)
    requires '/' !in r.candidate.name
    requires Matching(codec, t1, r.candidate.name) == {p}
    ensures PlanFor(codec, t, r).Ok?
    ensures (PlanIs(codec, t, r); LoadedAt(codec, t1, p) == Some(RecordedTransaction(t, r)))
  {
    hide Installs, PlanFor, TransactionPath, Recorded, ReadText, IsTransactionFile;
    var q := TransactionPath(ProviderId(r.candidate));
    TransactionIsFound(r.candidate);
    InstallRecords(codec, t, r, scan, runner, now);
    PlanIs(codec, t, r);
    var tx := RecordedTransaction(t, r);
    UniversalKeepsIff(codec.dumpTransaction(tx));
    ReadTextIs(t1, q);
    assert LoadedAt(codec, t1, q) == Some(tx) by { hide *; LoadsDumped(codec, t1, q, tx); }
    assert q in Matching(codec, t1, r.candidate.name);
  }

  lemma LoadsDumped(codec: Codec, t: Tree, q: Path, tx: Transaction)
    requires Faithful(codec) && FileAt(t, q) == Some(Text(codec.dumpTransaction(tx)))
    ensures LoadedAt(codec, t, q) == Some(tx) && q in t
  {
    UniversalKeepsIff(codec.dumpTransaction(tx));
  }

  // --- Undoing an install ---

  /** Every recorded file reads back as it is: none of them holds a carriage return. */
  ghost predicate ReadsBack(t: Tree, r: Request) {
    forall q <- RecordedPaths(r.candidate, r.package) :: ".git" !in q ==> PlainNewlines(t, q)
  }

  predicate PlainNewlines(t: Tree, q: Path) {
    FileAt(t, q).Some? && FileAt(t, q).value.Text? ==> '\r' !in FileAt(t, q).value.text
  }

  // What reading a file and writing it back makes of it.
  lemma ReadBack(t: Tree, q: Path)
    requires ReadText(t, q).Ok?
    ensures AsContent(ReadText(t, q).value) == FileAt(t, q) <==> PlainNewlines(t, q)
  {
    if FileAt(t, q).Some? { UniversalKeepsIff(FileAt(t, q).value.text); }
  }

  /** The files the transaction does not record are as they were: so it is without commands, or if they keep to it. */
  ghost predicate OthersKept(t: Tree, r: Request, now: Tree) {
    forall q :: ".git" !in q && q !in RecordedPaths(r.candidate, r.package) ==> FileAt(now, q) == FileAt(t, q)
  }

  ghost predicate Contained(t: Tree, r: Request, now: Tree) {
    r.package.commands == [] || OthersKept(t, r, now)
  }

  lemma ContainedKeepsOthers(codec: Codec, t: ClosedTree, r: Request, scan: Tree -> Option<Inventory>,
                             runner: (Command, ClosedTree) -> CommandEffect, now: Tree)
    requires Installs(codec, t, r, scan, runner, now) && Contained(t, r, now)
    ensures OthersKept(t, r, now)
  {
    hide Installs, RecordedPaths, FileAt;
    if r.package.commands == [] {
      forall q | ".git" !in q && q !in RecordedPaths(r.candidate, r.package) ensures FileAt(now, q) == FileAt(t, q) {
        InstallTouchesOnly(codec, t, r, scan, runner, now, q);
      }
    }
  }

  // The transaction of an install, replayed: recorded files as they read before it, everything else as it was.
  lemma ReplayedAt(codec: Codec, t: ClosedTree, r: Request, t1: Tree, q: Path, undone: Tree)
    requires PlanFor(codec, t, r).Ok?
    requires (PlanIs(codec, t, r);
      forall s <- RecordedTransaction(t, r).before :: s.path == q ==> FileAt(undone, q) == AsContent(s.text))
    requires (PlanIs(codec, t, r);
      (forall s <- RecordedTransaction(t, r).before :: s.path != q) ==> FileAt(undone, q) == FileAt(t1, q))
    ensures q in RecordedPaths(r.candidate, r.package) ==>
      ReadText(t, q).Ok? && FileAt(undone, q) == AsContent(ReadText(t, q).value)
    ensures q !in RecordedPaths(r.candidate, r.package) ==> FileAt(undone, q) == FileAt(t1, q)
  {
    hide PlanFor, Recorded, RecordedPaths, ReadText, FileAt, AsContent;
    PlanIs(codec, t, r);
    RecordedAre(t, r.candidate, r.package);
    if q in RecordedPaths(r.candidate, r.package) {
      assert Saved(q, ReadText(t, q).value) in RecordedTransaction(t, r).before;
    }
  }

  lemma UndoneIff(t: ClosedTree, r: Request, now: Tree, undone: Tree)
    requires forall q :: ".git" !in q && q in RecordedPaths(r.candidate, r.package) ==>
      ReadText(t, q).Ok? && FileAt(undone, q) == AsContent(ReadText(t, q).value)
    requires forall q :: ".git" !in q && q !in RecordedPaths(r.candidate, r.package) ==>
      FileAt(undone, q) == FileAt(now, q)
    ensures SameFiles(undone, t) <==> ReadsBack(t, r) && OthersKept(t, r, now)
  {
    hide RecordedPaths, ReadText, FileAt, AsContent, PlainNewlines;
    forall q | ".git" !in q && q in RecordedPaths(r.candidate, r.package)
      ensures FileAt(undone, q) == FileAt(t, q) <==> PlainNewlines(t, q)
    {
      ReadBack(t, q);
    }
  }

  // An uninstall that finds the transaction of this install replays it.
  lemma ReplaysIts(codec: Codec, t: ClosedTree, r: Request, scan: Tree -> Option<Inventory>,
                   runner: (Command, ClosedTree) -> CommandEffect, now: Tree, t1: ClosedTree, undone: Tree)
    requires Faithful(codec) && Installs(codec, t, r, scan, runner, now) && SameFiles(t1, now)
    requires '/' !in r.candidate.name
    requires Uninstalls(codec, t1, r.candidate.name, scan, undone)
    ensures PlanFor(codec, t, r).Ok?
    ensures (PlanIs(codec, t, r); var tx := RecordedTransaction(t, r);
      && (forall s <- tx.before :: SafePath(s.path))
      && Built(t1, Reversal(tx), []).Ok? && Verified(t1, Built(t1, Reversal(tx), []).value.operations).None?
      && undone == Installed(t1, Mutable(Built(t1, Reversal(tx), []).value.operations)))
  {
    hide Installs, PlanFor, Recorded, FileAt, Built, Installed, Mutable, Verified, SafePath, Reversal, Clears,
      Matching, LoadedAt, Faithful, SameFiles;
    var p, tx :| && Matching(codec, t1, r.candidate.name) == {p} && LoadedAt(codec, t1, p) == Some(tx)
                 && (forall s <- tx.before :: SafePath(s.path))
                 && Clears(t1, tx, scan)
                 && Built(t1, Reversal(tx), []).Ok? && Verified(t1, Built(t1, Reversal(tx), []).value.operations).None?
                 && undone == Installed(t1, Mutable(Built(t1, Reversal(tx), []).value.operations));
    FindsItsTransaction(codec, t, r, scan, runner, now, t1, p);
  }

  /** An uninstall right after an install restores every file, if and only if every file recorded reads back as it was
      and the commands kept to the recorded files. */
  lemma UninstallRestoresIff(codec: Codec, t: ClosedTree, r: Request, scan: Tree -> Option<Inventory>,
                             runner: (Command, ClosedTree) -> CommandEffect, now: Tree, t1: ClosedTree, undone: Tree)
    requires Faithful(codec) && Installs(codec, t, r, scan, runner, now) && SameFiles(t1, now)
    requires '/' !in r.candidate.name
    requires Uninstalls(codec, t1, r.candidate.name, scan, undone)
    ensures SameFiles(undone, t) <==> ReadsBack(t, r) && OthersKept(t, r, now)
    ensures r.package.commands == [] ==> OthersKept(t, r, now)
  {
    hide Installs, Uninstalls, PlanFor, RecordedPaths, Recorded, ReadText, FileAt, AsContent, Built, Installed, Mutable,
      Verified, SafePath, Reversal, ReadsBack, Faithful, OthersKept;
    ReplaysIts(codec, t, r, scan, runner, now, t1, undone);
    PlanIs(codec, t, r);
    forall q | ".git" !in q
      ensures q in RecordedPaths(r.candidate, r.package) ==>
        ReadText(t, q).Ok? && FileAt(undone, q) == AsContent(ReadText(t, q).value)
      ensures q !in RecordedPaths(r.candidate, r.package) ==> FileAt(undone, q) == FileAt(now, q)
    {
      ReversedAt(t1, RecordedTransaction(t, r), q);
      ReplayedAt(codec, t, r, t1, q, undone);
    }
    UndoneIff(t, r, now, undone);
    if r.package.commands == [] { ContainedKeepsOthers(codec, t, r, scan, runner, now); }
  }

  // --- Reversals that do not do what one might expect ---

  /** Undone out of order, an install takes the lock back to before it: whatever was installed since is dropped from
      it. */
  lemma OutOfOrderDropsEntries(codec: Codec, t: ClosedTree, r: Request, scan: Tree -> Option<Inventory>,
                               runner: (Command, ClosedTree) -> CommandEffect, trees: seq<ClosedTree>,
                               later: seq<Request>,
                               undone: Tree)
    requires Faithful(codec) && |trees| == |later| + 1 && Installs(codec, t, r, scan, runner, trees[0])
    requires forall i :: 0 <= i < |later| ==> Installs(codec, trees[i], later[i], scan, runner, trees[i + 1])
    requires forall i :: 0 <= i < |later| ==> Spares(trees[i], later[i], trees[i + 1], r.candidate)
    requires '/' !in r.candidate.name && Uninstalls(codec, trees[|later|], r.candidate.name, scan, undone)
    ensures LockedProviders(codec, undone) == LockedProviders(codec, t)
  {
    hide Installs, PlanFor, RecordedPaths, Recorded, ReadText, FileAt, AsContent, Built, Installed, Mutable,
      Verified, SafePath, Reversal, Clears, Matching, LoadedAt, Faithful, LOCK_PATH, LockedProviders,
      TransactionPath, Spares;
    var last := trees[|later|];
    var p, tx :| && Matching(codec, last, r.candidate.name) == {p} && LoadedAt(codec, last, p) == Some(tx)
                 && (forall s <- tx.before :: SafePath(s.path))
                 && Clears(last, tx, scan)
                 && Built(last, Reversal(tx), []).Ok?
                   && Verified(last, Built(last, Reversal(tx), []).value.operations).None?
                 && undone == Installed(last, Mutable(Built(last, Reversal(tx), []).value.operations));
    TransactionIsFound(r.candidate);
    var q := TransactionPath(ProviderId(r.candidate));
    StillThere(codec, trees, later, scan, runner, r.candidate);
    InstallRecords(codec, t, r, scan, runner, trees[0]);
    PlanIs(codec, t, r);
    FoundAt(codec, last, q, RecordedTransaction(t, r), r.candidate.name, p);
    ReversedAt(last, tx, LOCK_PATH);
    RecordedAre(t, r.candidate, r.package);
    FixedAreRecorded(r);
    assert Saved(LOCK_PATH, ReadText(t, LOCK_PATH).value) in tx.before;
    SameReading(codec, t, undone);
  }

  /** A later install that leaves the transaction of c alone: neither its package nor its commands touch that file. */
  ghost predicate Spares(t: Tree, later: Request, now: Tree, c: Candidate) {
    && Contained(t, later, now)
    && TransactionPath(ProviderId(c)) !in RecordedPaths(later.candidate, later.package)
  }

  lemma {:induction false} StillThere(codec: Codec, trees: seq<ClosedTree>, later: seq<Request>,
                                      scan: Tree -> Option<Inventory>, runner: (Command, ClosedTree) -> CommandEffect,
                                      c: Candidate)
    requires |trees| == |later| + 1 && ".git" !in TransactionPath(ProviderId(c))
    requires forall i :: 0 <= i < |later| ==> Installs(codec, trees[i], later[i], scan, runner, trees[i + 1])
    requires forall i :: 0 <= i < |later| ==> Spares(trees[i], later[i], trees[i + 1], c)
    ensures FileAt(trees[|later|], TransactionPath(ProviderId(c))) == FileAt(trees[0], TransactionPath(ProviderId(c)))
  {
    hide RecordedPaths, TransactionPath, FileAt, Installs, Contained;
    if later != [] {
      var n := |later| - 1;
      StillThere(codec, trees[..n + 1], later[..n], scan, runner, c);
      assert Spares(trees[n], later[n], trees[n + 1], c);
      ContainedKeepsOthers(codec, trees[n], later[n], scan, runner, trees[n + 1]);
    }
  }

  lemma FoundAt(codec: Codec, t: Tree, q: Path, tx: Transaction, name: string, p: Path)
    requires Faithful(codec) && FileAt(t, q) == Some(Text(codec.dumpTransaction(tx))) && IsTransactionFile(q)
    requires tx.capability == name && Matching(codec, t, name) == {p}
    ensures p == q && LoadedAt(codec, t, p) == Some(tx)
  {
    hide IsTransactionFile, FileAt, ReadText;
    LoadsDumped(codec, t, q, tx);
    assert q in Matching(codec, t, name);
  }

  lemma SameReading(codec: Codec, t: Tree, t': Tree)
    requires ReadText(t, LOCK_PATH).Ok? && FileAt(t', LOCK_PATH) == AsContent(ReadText(t, LOCK_PATH).value)
    ensures LockedProviders(codec, t') == LockedProviders(codec, t)
  {
    hide LOCK_PATH;
    CleanText(t, LOCK_PATH);
    ReadTextIs(t', LOCK_PATH);
    if ReadText(t, LOCK_PATH).value.Some? { UniversalKeepsIff(ReadText(t, LOCK_PATH).value.value); }
  }

  /** A scan that looks at files only. */
  ghost predicate LooksAtFiles(scan: Tree -> Option<Inventory>) {
    forall a, b :: SameFiles(a, b) ==> scan(a) == scan(b)
  }

  /** When an uninstall goes ahead, told from before its trial: its capability must not have resolved before the
      install. */
  lemma ClearsIff(codec: Codec, t: ClosedTree, r: Request, scan: Tree -> Option<Inventory>,
                  runner: (Command, ClosedTree) -> CommandEffect, now: Tree, t1: ClosedTree, tx: Transaction)
    requires PlanFor(codec, t, r).Ok? && (PlanIs(codec, t, r); tx == RecordedTransaction(t, r))
    requires Installs(codec, t, r, scan, runner, now) && SameFiles(t1, now)
    requires LooksAtFiles(scan) && ReadsBack(t, r) && Contained(t, r, now)
    requires forall s <- tx.before :: SafePath(s.path)
    ensures Clears(t1, tx, scan) <==>
      Trial(t1, tx).Ok? && scan(t).Some? && !Resolves(scan, t, ProviderId(r.candidate))
  {
    hide Installs, PlanFor, RecordedPaths, Recorded, ReadText, FileAt, AsContent, Trial, SafePath,
      ReadsBack, OthersKept;
    ContainedKeepsOthers(codec, t, r, scan, runner, now);
    if Trial(t1, tx).Ok? {
      var trial := Trial(t1, tx).value;
      forall q | ".git" !in q
        ensures q in RecordedPaths(r.candidate, r.package) ==>
          ReadText(t, q).Ok? && FileAt(trial, q) == AsContent(ReadText(t, q).value)
        ensures q !in RecordedPaths(r.candidate, r.package) ==> FileAt(trial, q) == FileAt(now, q)
      {
        TrialAt(t1, tx, q);
        ReplayedAt(codec, t, r, t1, q, trial);
      }
      UndoneIff(t, r, now, trial);
      assert SameFiles(trial, t) && scan(trial) == scan(t);
    }
  }

  /** After an update, an uninstall is refused: its trial goes back to the older version, where the capability still
      resolves. */
  lemma UpdatedIsNotCleared(codec: Codec, t: ClosedTree, r: Request, scan: Tree -> Option<Inventory>,
                            runner: (Command, ClosedTree) -> CommandEffect,
                            now: Tree, t1: ClosedTree, p: Path, tx: Transaction)
    requires Faithful(codec) && Installs(codec, t, r, scan, runner, now) && SameFiles(t1, now)
    requires '/' !in r.candidate.name
    requires LooksAtFiles(scan) && Resolves(scan, t, ProviderId(r.candidate)) && ReadsBack(t, r) && Contained(t, r, now)
    requires Matching(codec, t1, r.candidate.name) == {p} && LoadedAt(codec, t1, p) == Some(tx)
    requires forall s <- tx.before :: SafePath(s.path)
    ensures !Clears(t1, tx, scan)
  {
    hide Installs, PlanFor, Trial, SafePath, Matching, LoadedAt, ReadsBack, Faithful, SameFiles, Clears, OthersKept;
    FindsItsTransaction(codec, t, r, scan, runner, now, t1, p);
    PlanIs(codec, t, r);
    ClearsIff(codec, t, r, scan, runner, now, t1, tx);
  }

  /** With a name that no transaction has yet, and nothing else written among the transactions, an install leaves
      exactly one to be found. */
  lemma InstallIsFound(codec: Codec, t: ClosedTree, r: Request, scan: Tree -> Option<Inventory>,
                       runner: (Command, ClosedTree) -> CommandEffect, now: Tree)
    requires Faithful(codec) && Installs(codec, t, r, scan, runner, now) && '/' !in r.candidate.name
    requires Matching(codec, t, r.candidate.name) == {}
    requires Contained(t, r, now) && forall f <- r.package.files :: !IsTransactionFile(f.path)
    ensures Matching(codec, now, r.candidate.name) == {TransactionPath(ProviderId(r.candidate))}
  {
    hide Installs, PlanFor, Recorded, Matches, IsTransactionFile, Faithful, TransactionPath, FileAt, OthersKept;
    var q := TransactionPath(ProviderId(r.candidate));
    TransactionIsFound(r.candidate);
    ContainedKeepsOthers(codec, t, r, scan, runner, now);
    InstallRecords(codec, t, r, scan, runner, now);
    PlanIs(codec, t, r);
    LoadsDumped(codec, now, q, RecordedTransaction(t, r));
    MatchesLoaded(codec, now, r.candidate.name, q);
    forall p | p in now && IsTransactionFile(p) && Matches(codec, now, r.candidate.name, p) ensures p == q {
      if p != q { OtherTransactionsStay(codec, t, r, now, r.candidate.name, p); }
    }
  }

  /** And the transactions of other capabilities are found, or not, as before. */
  lemma OthersAreFound(codec: Codec, t: ClosedTree, r: Request, scan: Tree -> Option<Inventory>,
                       runner: (Command, ClosedTree) -> CommandEffect, now: Tree, name: string)
    requires Faithful(codec) && Installs(codec, t, r, scan, runner, now) && '/' !in r.candidate.name
    requires name != r.candidate.name
    requires Contained(t, r, now) && forall f <- r.package.files :: !IsTransactionFile(f.path)
    ensures Matching(codec, now, name) <= Matching(codec, t, name)
  {
    hide Installs, PlanFor, Recorded, Matches, IsTransactionFile, Faithful, TransactionPath, FileAt, OthersKept;
    var q := TransactionPath(ProviderId(r.candidate));
    TransactionIsFound(r.candidate);
    ContainedKeepsOthers(codec, t, r, scan, runner, now);
    InstallRecords(codec, t, r, scan, runner, now);
    PlanIs(codec, t, r);
    LoadsDumped(codec, now, q, RecordedTransaction(t, r));
    MatchesLoaded(codec, now, name, q);
    forall p | p in now && IsTransactionFile(p) && Matches(codec, now, name, p) ensures p in Matching(codec, t, name) {
      OtherTransactionsStay(codec, t, r, now, name, p);
    }
  }

  lemma MatchesLoaded(codec: Codec, t: Tree, name: string, p: Path)
    ensures Matches(codec, t, name, p) <==>
      LoadedAt(codec, t, p).Some?
      && LoadedAt(codec, t, p).value.capability == name
  {
  }

  lemma OtherTransactionsStay(codec: Codec, t: ClosedTree, r: Request, now: Tree, name: string, p: Path)
    requires IsTransactionFile(p) && p != TransactionPath(ProviderId(r.candidate))
    requires OthersKept(t, r, now) && forall f <- r.package.files :: !IsTransactionFile(f.path)
    ensures Matches(codec, now, name, p) ==> p in Matching(codec, t, name)
  {
    hide TransactionPath, FileAt, ReadText;
    assert p[|p| - 1] != ".git" by { assert p[|p| - 1][|p[|p| - 1]| - 1] == JSON_SUFFIX[4]; }
    assert ".git" !in p by { NoGitInside(p); }
    assert p !in RecordedPaths(r.candidate, r.package) by {
      assert |p| == 3 && |LOCK_PATH| == 2 && |AUDIT_PATH| == 2;
      PackagePathsAre(r.package);
    }
    SameFileSameText(t, now, p);
  }

  lemma PackagePathsAre(p: Package)
    ensures forall q <- PackagePaths(p) :: exists f <- p.files :: f.path == q
  {
    forall q <- PackagePaths(p) ensures exists f <- p.files :: f.path == q {
      var i :| 0 <= i < |p.files| && PackagePaths(p)[i] == q;
      assert p.files[i] in p.files;
    }
  }

  lemma NoGitInside(p: Path)
    requires IsTransactionFile(p) && p[|p| - 1] != ".git"
    ensures ".git" !in p
  {
    assert p == TRANSACTION_ROOT + [p[|p| - 1]];
    assert |".ai-project"| != |".git"| && |"install-transactions"| != |".git"|;
  }

  lemma SameFileSameText(t: Tree, t': Tree, p: Path)
    requires FileAt(t, p) == FileAt(t', p)
    ensures ReadText(t, p) == ReadText(t', p) && (ReadText(t, p).Ok? && ReadText(t, p).value.Some? ==> p in t)
  {
  }
}
