/** What installs, commits and uninstalls write, spelled out: the lock, the audit log, the transaction, the copy. */
module InstallTexts {
  import opened Wrappers
  import opened Ordering
  import opened Trees
  import opened ChangeSets
  import opened WriterModel
  import opened Writer
  import opened Overlay
  import opened InstallModel
  import opened Install
  import opened InstallLaws
  import opened InstallTheorems
  import opened InstallSuccess
  import opened PackageFiles
  import opened Uninstall
  import AgentsMd
  import AgentsMdTheorems

  // --- Reading ---

  /** Reading a file as text gives its lines with line feeds between them. */
  lemma {:induction false} UniversalIsLines(s: string)
    ensures Universal(s) == AgentsMdTheorems.Joined(AgentsMdTheorems.Lines(s), "\n")
  {
    if s == "" {
    } else if |s| > 1 && s[0] == '\r' && s[1] == '\n' {
      UniversalIsLines(s[2..]);
      AgentsMdTheorems.JoinedStep(AgentsMdTheorems.Lines(s[2..]));
    } else {
      UniversalIsLines(s[1..]);
      if s[0] == '\r' || s[0] == '\n' { AgentsMdTheorems.JoinedStep(AgentsMdTheorems.Lines(s[1..])); }
      else { AgentsMdTheorems.JoinedLonger(s[0], AgentsMdTheorems.Lines(s[1..])); }
    }
  }

  /** The providers of a lock are those its text loads to; without such a text there are none. */
  lemma LockedProvidersAre(codec: Codec, t: Tree)
    ensures forall s :: FileAt(t, [".ai-project", "capabilities.lock"]) == Some(Text(s)) ==>
      match codec.loadLock(Universal(s))
      case Some(ps) => LockedProviders(codec, t) == ps
      case None => LockedProviders(codec, t) == []
    ensures (forall s :: FileAt(t, [".ai-project", "capabilities.lock"]) != Some(Text(s))) ==>
      LockedProviders(codec, t) == []
  {
    ReadTextIs(t, LOCK_PATH);
    hide Universal, ReadText;
    var found := FileAt(t, LOCK_PATH);
    if found.Some? && found.value.Text? { assert found == Some(Text(found.value.text)); }
  }

  // --- Providers ---

  // The id under which a candidate's provider is known.
  ghost predicate Identifies(id: string, c: Candidate) {
    match c.kind
    case AgentSkill => id == "skill." + c.name
    case CliTool => id == "cli." + c.name
    case McpServer => id == "mcp." + c.name
    case Plugin => id == "plugin." + c.name
  }

  lemma ProviderIdIs(c: Candidate)
    ensures Identifies(ProviderId(c), c)
  {
  }

  /** The entries of an install, field by field. */
  lemma EntriesAre(r: Request, id: string)
    requires r.candidate.provenance.Some? && Identifies(id, r.candidate)
    ensures var c, p := r.candidate, r.candidate.provenance.value;
      && PlannedEntry(r) == Provider(StringId(id), c.version, Some(p.digest), None, p.details)
      && (r.preflight.Some? ==>
            PassedEntry(r) == Provider(StringId(id), c.version, Some(p.digest),
                                       Some(Preflight("passed", p.digest, r.preflight.value)), p.details))
  {
    ProviderIdIs(r.candidate);
  }

  function ShownId(p: Provider): string {
    if p.id.NoId? then "" else if p.id.StringId? then p.id.text else p.id.shown
  }

  /** A lock lists its providers by their ids, as text. */
  lemma LockIsInOrder(ps: seq<Provider>, entry: Provider, i: nat, j: nat)
    requires i < j < |NextProviders(ps, entry)|
    ensures StringLe(ShownId(NextProviders(ps, entry)[i]), ShownId(NextProviders(ps, entry)[j]))
  {
    var all := Others(ps, entry.id) + [entry];
    ByKeyIsPreorder(ProviderKey);
    SortSorted(all, ByKey(ProviderKey));
    var sorted := NextProviders(ps, entry);
    assert ByKey(ProviderKey)(sorted[i], sorted[j]);
    ByKeyIs(ProviderKey, sorted[i], sorted[j]);
  }

  lemma {:induction false} FirstWithAt(ps: seq<Provider>, id: Id)
    ensures match FirstWith(ps, id)
      case None => forall p <- ps :: p.id != id
      case Some(p) => exists i :: && 0 <= i < |ps| && ps[i] == p && p.id == id
                                  && forall k :: 0 <= k < i ==> ps[k].id != id
  {
    if ps != [] && ps[0].id != id {
      FirstWithAt(ps[1..], id);
      var found := FirstWith(ps[1..], id);
      if found.Some? {
        var i :| && 0 <= i < |ps[1..]| && ps[1..][i] == found.value
                 && forall k :: 0 <= k < i ==> ps[1..][k].id != id;
        assert ps[i + 1] == found.value;
        assert forall k :: 0 < k < i + 1 ==> ps[k] == ps[1..][k - 1];
      }
    }
  }

  // A provider whose preflight has passed for this very digest.
  ghost predicate HasPassed(p: Provider, digest: Digest) {
    && p.contentDigest == Some(digest)
    && p.preflight.Some? && p.preflight.value.status == "passed" && p.preflight.value.digest == digest
  }

  /** An install counts as done if and only if the first provider of its id in the lock has passed with its digest. */
  lemma PassedIff(codec: Codec, t: Tree, c: Candidate, id: string)
    requires Identifies(id, c)
    ensures var ps := LockedProviders(codec, t);
      PassedPreflight(codec, t, c) <==>
        (&& c.provenance.Some?
         && exists i :: && 0 <= i < |ps| && ps[i].id == StringId(id) && HasPassed(ps[i], c.provenance.value.digest)
                        && forall k :: 0 <= k < i ==> ps[k].id != StringId(id))
  {
    hide LockedProviders;
    ProviderIdIs(c);
    FirstWithAt(LockedProviders(codec, t), StringId(id));
    FirstWithIs(LockedProviders(codec, t), StringId(id));
  }

  // --- The plan ---

  // The line that an install adds to the audit log.
  function LineOf(codec: Codec, c: Candidate, status: string, at: string): string {
    var digest := if c.provenance.Some? then Some(c.provenance.value.digest) else None;
    codec.dumpEvent(Event(c.ref, digest, status, at, c.version)) + "\n"
  }

  lemma FixedIsPlanned(codec: Codec, t: ClosedTree, r: Request, p: ChangeProposal, text: string)
    requires PlanFor(codec, t, r).Ok? && (PlanIs(codec, t, r); p in PlanProposals(codec, t, r))
    requires p.desired == Some(text) && p.ownership.Owned?
    ensures PlansFile(PlanFor(codec, t, r).value.changeset.operations, InstallFile(p.path, text))
  {
    hide PlanFor, PlanProposals, LOCK_PATH, AUDIT_PATH, TransactionPath, Recorded, AppendAudit, Built, SafePath, Posix,
      KindOf;
    PlanIs(codec, t, r);
    var ps, commands := PlanProposals(codec, t, r), r.package.commands;
    var ops := PlanFor(codec, t, r).value.changeset.operations;
    BuiltCoversProposals(t, ps, commands, p);
    BuiltIsValid(t, ps, commands);
    BuiltOkIff(t, ps, commands);
    forall op <- ops | op.path == p.path ensures op.after == Some(text) {
      var q := BuiltComesFromProposals(t, ps, commands, op);
      assert q == p by { OneOfEach(ps, p, q); }
    }
    forall i, j | 0 <= i < j < |ops| ensures ops[i].path != p.path || ops[j].path != p.path {
      assert Paths(ops)[i] != Paths(ops)[j];
    }
  }

  lemma OneOfEach(ps: seq<ChangeProposal>, p: ChangeProposal, q: ChangeProposal)
    requires forall i, j :: 0 <= i < j < |ps| ==> ps[i].path != ps[j].path
    requires p in ps && q in ps && p.path == q.path
    ensures p == q
  {
    var i :| 0 <= i < |ps| && ps[i] == p;
    var j :| 0 <= j < |ps| && ps[j] == q;
  }

  /** Beside the files of its package, a plan writes the lock with its provider entered, the audit log with a line
      added, and the transaction; and nothing else. */
  lemma PlanWrites(codec: Codec, t: ClosedTree, r: Request)
    requires PlanFor(codec, t, r).Ok?
    ensures r.candidate.provenance.Some?
    ensures var ops, c := PlanFor(codec, t, r).value.changeset.operations, r.candidate;
      var digest := codec.hex(c.provenance.value.digest);
      && PlansFile(ops, InstallFile([".ai-project", "capabilities.lock"],
           codec.dumpLock(Lock(digest, NextProviders(LockedProviders(codec, t), PlannedEntry(r))))))
      && (PlanIs(codec, t, r); PlansFile(ops, InstallFile(TransactionPath(ProviderId(c)),
           codec.dumpTransaction(RecordedTransaction(t, r)))))
      && ReadText(t, [".ai-project", "audit.log"]).Ok?
      && var before := ReadText(t, [".ai-project", "audit.log"]).value;
         PlansFile(ops, InstallFile([".ai-project", "audit.log"],
           (if before.Some? then before.value else "") + LineOf(codec, c, "planned", r.plannedAt)))
    ensures var ops := PlanFor(codec, t, r).value.changeset.operations;
      forall op <- ops :: op.path in RecordedPaths(r.candidate, r.package)
  {
    var c := r.candidate;
    hide PlanFor, PlanProposals, TransactionPath, Recorded, LockedProviders, NextProviders, PlansFile, SafePath,
      ReadText, RecordedTransaction;
    PlanIs(codec, t, r);
    FixedAreProposed(codec, t, r);
    FixedIsPlanned(codec, t, r, Own(LOCK_PATH, LockText(codec, t, r), c), LockText(codec, t, r));
    var audit := AppendAudit(codec, t, c, "planned", r.plannedAt).value;
    FixedIsPlanned(codec, t, r, Own(AUDIT_PATH, audit, c), audit);
    var transaction := codec.dumpTransaction(RecordedTransaction(t, r));
    FixedIsPlanned(codec, t, r, Own(TransactionPath(ProviderId(c)), transaction, c), transaction);
    hide RecordedPaths, Built;
    forall op <- PlanFor(codec, t, r).value.changeset.operations
      ensures op.path in RecordedPaths(c, r.package)
    {
      var p := BuiltComesFromProposals(t, PlanProposals(codec, t, r), r.package.commands, op);
      ProposedPaths(codec, t, r, op.path);
      OperationIs(t, p);
    }
  }

  /** The transaction names the capability and its provider, and records the text of each path that is written, each
      once and in the order of paths. */
  lemma TransactionIs(t: Tree, r: Request)
    requires Recorded(t, r.candidate, r.package).Ok?
    ensures var tx, c := RecordedTransaction(t, r), r.candidate;
      && tx.capability == c.name && Identifies(tx.providerId, c) && tx.ref == c.ref
      && (forall s <- tx.before :: s.path in RecordedPaths(c, r.package) && ReadText(t, s.path) == Ok(s.text))
      && (forall q <- RecordedPaths(c, r.package) :: exists s <- tx.before :: s.path == q)
      && forall i, j :: 0 <= i < j < |tx.before| ==>
           tx.before[i].path != tx.before[j].path && StringLe(Posix(tx.before[i].path), Posix(tx.before[j].path))
  {
    var tx, c := RecordedTransaction(t, r), r.candidate;
    ProviderIdIs(c);
    RecordedAre(t, c, r.package);
    SavedAreDistinct(t, c, r.package);
    hide RecordedPaths, ReadText, Identifies, Posix;
    forall q <- RecordedPaths(c, r.package) ensures exists s <- tx.before :: s.path == q {
      assert Saved(q, ReadText(t, q).value) in tx.before;
    }
    var order := Sort(Distinct(RecordedPaths(c, r.package)), ByKey(PathKey));
    SavedInOrder(t, order);
    ByKeyIsPreorder(PathKey);
    SortSorted(Distinct(RecordedPaths(c, r.package)), ByKey(PathKey));
    forall i, j | 0 <= i < j < |tx.before|
      ensures StringLe(Posix(tx.before[i].path), Posix(tx.before[j].path))
    {
      assert ByKey(PathKey)(order[i], order[j]);
      ByKeyIs(PathKey, order[i], order[j]);
    }
  }

  /** The paths an install writes: those of its package, the lock, the audit log, and a transaction named by the
      provider's id. */
  lemma WrittenPathsAre(r: Request, id: string)
    requires Identifies(id, r.candidate) && '/' !in id
    ensures forall q :: q in RecordedPaths(r.candidate, r.package) <==>
      || (exists f <- r.package.files :: f.path == q)
      || q == [".ai-project", "capabilities.lock"] || q == [".ai-project", "audit.log"]
      || q == [".ai-project", "install-transactions", id + ".json"]
  {
    var c, files := r.candidate, r.package.files;
    ProviderIdIs(c);
    FixedAreRecorded(r);
    NoSlash(id + ".json");
    assert TransactionPath(id) == [".ai-project", "install-transactions", id + ".json"];
    hide TransactionPath, Identifies, ProviderId;
    var paths := RecordedPaths(c, r.package);
    forall q ensures q in paths <==>
      || (exists f <- files :: f.path == q) || q == LOCK_PATH || q == AUDIT_PATH || q == TransactionPath(id)
    {
      if q in paths {
        var i :| 0 <= i < |paths| && paths[i] == q;
        if i < |files| { assert files[i] in files; }
      }
      if f :| f in files && f.path == q {
        var i :| 0 <= i < |files| && files[i] == f;
        assert paths[i] == q;
      }
    }
  }

  // --- What is there afterwards ---

  /** The lock after an install, as text: the digest of the inventory that was scanned, and the install's own provider
      entered into what the staged lock had. */
  lemma LockIsWritten(codec: Codec, t: ClosedTree, r: Request, scan: Tree -> Option<Inventory>,
                      runner: (Command, ClosedTree) -> CommandEffect, now: Tree)
    requires Installs(codec, t, r, scan, runner, now)
    ensures PlanFor(codec, t, r).Ok? && CopyBuilt(PlanFor(codec, t, r).value, t).Ok?
    ensures var draft := Draft(codec, t, r, runner);
      && r.candidate.provenance.Some? && r.preflight.Some? && scan(draft).Some?
      && ProviderId(r.candidate) in scan(draft).value.ids
      && FileAt(now, [".ai-project", "capabilities.lock"]) ==
           Some(Text(codec.dumpLock(
             Lock(scan(draft).value.digest, NextProviders(LockedProviders(codec, draft), PassedEntry(r))))))
  {
    hide StagedFor, PlanFor, CopyBuilt, Draft, AppendAudit, WriteText, FileAt, TransactionPath, LockedProviders,
      NextProviders, ProviderEntry, DirAt, MadeFor;
    var draft, locked, inventory := StagedIs(codec, t, r, scan, runner);
    TransactionIsApart(r.candidate);
    var last := PassedEntry(r);
    WrittenFiles(draft, LOCK_PATH, RenderLock(codec, draft, last, inventory.digest), LOCK_PATH);
    WrittenFiles(locked, AUDIT_PATH, AppendAudit(codec, locked, r.candidate, "installed", r.finishedAt).value,
      LOCK_PATH);
    hide LOCK_PATH;
  }

  /** The audit log after an install: two lines more than before, whatever its commands do. */
  lemma AuditIsWritten(codec: Codec, t: ClosedTree, r: Request, scan: Tree -> Option<Inventory>,
                       runner: (Command, ClosedTree) -> CommandEffect, now: Tree)
    requires Faithful(codec) && Installs(codec, t, r, scan, runner, now)
    ensures ReadText(t, [".ai-project", "audit.log"]).Ok?
    ensures var before := ReadText(t, [".ai-project", "audit.log"]).value;
      FileAt(now, [".ai-project", "audit.log"]) ==
        Some(Text((if before.Some? then before.value else "")
                  + LineOf(codec, r.candidate, "planned", r.plannedAt)
                  + LineOf(codec, r.candidate, "installed", r.finishedAt)))
  {
    hide Installs, Faithful, ReadText, FileAt;
    AuditIsAppended(codec, t, r, scan, runner, now);
  }

  /** How staging ends: with the failure of the apply if a planned path on the copy is not as planned, or if one of the
      commands fails; then with that of the preflight, of the scan, and of a capability that does not resolve. */
  lemma StagedIff(codec: Codec, plan: InstallPlan, t: ClosedTree, runner: (Command, ClosedTree) -> CommandEffect,
                  scan: Tree -> Option<Inventory>, preflight: Option<string>, now: string, left: ClosedTree)
    requires CopyBuilt(plan, t).Ok?
    ensures var ops, commands := CopyBuilt(plan, t).value.operations, CopyBuilt(plan, t).value.commands;
      var staged := StagedInstall(codec, plan, t, runner, scan, preflight, now);
      && (Verified(Copied(t), ops).Some? || OneFailed(runner, commands, Copied(t), left) ==>
            staged == Err(StagedApplyFailed))
      && (Verified(Copied(t), ops).None? && AllRan(runner, commands, Copied(t), left) ==>
            var draft := Installed(left, Mutable(ops));
            && (staged == Err(PreflightFailed) <==> preflight == None)
            && (staged == Err(ScanFailed) <==> preflight != None && scan(draft) == None)
            && (staged == Err(NotResolved) <==>
                  preflight != None && scan(draft) != None && ProviderId(plan.candidate) !in scan(draft).value.ids))
  {
    hide Installed, Mutable, Verified, Copied, CopyBuilt, RunAll, AllRan, OneFailed, RenderLock, ProviderEntry,
      AppendAudit, WriteText;
    var cs := CopyBuilt(plan, t).value;
    CommandsRun(runner, cs.commands, Copied(t), left);
    var draft := Installed(left, Mutable(cs.operations));
    if preflight.Some? && scan(draft).Some? { CompletedErrors(codec, plan.candidate, draft, scan, preflight, now); }
  }

  lemma CompletedErrors(codec: Codec, c: Candidate, s: Tree, scan: Tree -> Option<Inventory>, preflight: Option<string>,
                        now: string)
    requires preflight.Some? && scan(s).Some?
    ensures var done := Completed(codec, c, s, scan(s).value, preflight.value, now);
      && (done == Err(NotResolved) <==> ProviderId(c) !in scan(s).value.ids)
      && done != Err(PreflightFailed) && done != Err(ScanFailed)
  {
    hide RenderLock, LOCK_PATH, AUDIT_PATH, AuditLine, Universal;
  }

  // --- Copies, commits and reversals ---

  /** The copy has everything but what is in or at something called .git. */
  lemma CopyIs(t: ClosedTree, q: Path)
    ensures q in Copied(t) <==> q in t && forall part <- q :: part != ".git"
    ensures q in Copied(t) ==> Copied(t)[q] == t[q]
  {
  }

  /** For the copy the same is proposed as for the project. */
  lemma RetargetIs(ops: seq<ChangeOperation>, p: ChangeProposal)
    ensures p in Retarget(ops) <==>
      exists op <- ops :: p == ChangeProposal(op.path, op.after, op.ownership, op.note)
  {
    if op :| op in ops && p == ChangeProposal(op.path, op.after, op.ownership, op.note) {
      var i :| 0 <= i < |ops| && ops[i] == op;
      assert Retarget(ops)[i] == p;
    }
  }

  /** An uninstall proposes every recorded path as it was recorded, in its own name. */
  lemma ReversalIs(tx: Transaction, p: ChangeProposal)
    ensures p in Reversal(tx) <==>
      exists s <- tx.before :: p == ChangeProposal(s.path, s.text, Owned, "uninstall:" + tx.providerId)
  {
    if s :| s in tx.before && p == ChangeProposal(s.path, s.text, Owned, "uninstall:" + tx.providerId) {
      var i :| 0 <= i < |tx.before| && tx.before[i] == s;
      assert Reversal(tx)[i] == p;
    }
  }

  /** A commit has one operation for each file outside .git that differs: its new text, or none if it is gone. */
  lemma CommitWrites(t: Tree, staged: Tree, proposals: seq<ChangeProposal>, source: string, q: Path)
    requires CommitsTo(t, staged, proposals, source) && Built(t, proposals, []).Ok?
    requires forall q <- Changed(t, staged) :: Decodable(staged, q)
    ensures var ops := Built(t, proposals, []).value.operations;
      && (forall op <- ops :: op.path == q ==>
            && op.note == source && op.ownership == Owned && AsContent(op.after) == FileAt(staged, q)
            && FileAt(t, q) != FileAt(staged, q))
      && (".git" !in q && FileAt(t, q) != FileAt(staged, q) ==> exists op <- ops :: op.path == q)
  {
    hide Built, BuildOperation;
    var ops := Built(t, proposals, []).value.operations;
    forall op <- ops | op.path == q
      ensures && op.note == source && op.ownership == Owned && AsContent(op.after) == FileAt(staged, q)
              && FileAt(t, q) != FileAt(staged, q)
    {
      var p := BuiltComesFromProposals(t, proposals, [], op);
      OperationIs(t, p);
      assert q in Changed(t, staged);
    }
    if ".git" !in q && FileAt(t, q) != FileAt(staged, q) {
      assert q in Changed(t, staged);
      var p := CommitProposal(staged, q, source);
      BuiltCoversProposals(t, proposals, [], p);
      OperationIs(t, p);
    }
  }
}
