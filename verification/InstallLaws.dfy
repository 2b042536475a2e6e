/** The lock file over any sequence of installs, and what one install does to every file. */
module InstallLaws {
  import opened Wrappers
  import opened Ordering
  import opened Trees
  import opened ChangeSets
  import opened WriterModel
  import opened Journals
  import opened Nesting
  import opened Writer
  import opened Overlay
  import opened InstallModel
  import opened Install
  import AgentsMd
  import AgentsMdTheorems

  // --- Universal newlines ---

  lemma {:induction false} TranslateFixes(s: string)
    requires '\r' !in s
    ensures AgentsMd.Translate(s, true, "\n", "\n") == s
  {
    if s != "" {
      TranslateFixes(s[1..]);
      assert s == [s[0]] + s[1..];
    }
  }

  /** Reading a text back gives the text itself if and only if it holds no carriage return. */
  lemma UniversalKeepsIff(s: string)
    ensures Universal(s) == s <==> '\r' !in s
    ensures '\r' !in Universal(s)
  {
    AgentsMdTheorems.TranslatedHasNoCarriageReturn(s, true, "\n");
    if '\r' !in s { TranslateFixes(s); }
  }

  /** Loading undoes dumping, nothing dumped holds a carriage return, and a dump is longer than the texts it quotes. */
  ghost predicate Faithful(codec: Codec) {
    && (forall l :: codec.loadLock(codec.dumpLock(l)) == Some(l.providers) && '\r' !in codec.dumpLock(l))
    && (forall t :: codec.loadTransaction(codec.dumpTransaction(t)) == Some(t) && '\r' !in codec.dumpTransaction(t))
    && (forall t: Transaction, s :: s in t.before && s.text.Some? ==> |s.text.value| < |codec.dumpTransaction(t)|)
    && (forall e :: '\r' !in codec.dumpEvent(e))
  }

  lemma ReadTextIs(t: Tree, p: Path)
    ensures FileAt(t, p) == None ==> ReadText(t, p) == Ok(None)
    ensures forall s :: FileAt(t, p) == Some(Text(s)) ==> ReadText(t, p) == Ok(Some(Universal(s)))
    ensures ReadText(t, p).Ok? ==> FileAt(t, p) == None || FileAt(t, p).value.Text?
    ensures ReadText(t, p) == Ok(None) ==> FileAt(t, p) == None
  {
  }

  // --- The lock ---

  ghost predicate UniqueIds(ps: seq<Provider>) {
    forall i, j :: 0 <= i < j < |ps| ==> ps[i].id != ps[j].id
  }

  lemma {:induction false} OthersAre(ps: seq<Provider>, id: Id)
    ensures forall p :: p in Others(ps, id) <==> p in ps && p.id != id
    ensures UniqueIds(ps) ==> UniqueIds(Others(ps, id))
  {
    hide UniqueIds;
    if ps == [] {
      assert UniqueIds(Others(ps, id)) by { NoneIsUnique(); }
    } else {
      var first, rest := ps[0], Others(ps[1..], id);
      OthersAre(ps[1..], id);
      assert ps == [first] + ps[1..];
      if UniqueIds(ps) {
        UniqueTail(ps);
        UniqueWith(first, rest);
      }
    }
  }

  lemma NoneIsUnique()
    ensures UniqueIds([])
  {
  }

  lemma UniqueTail(ps: seq<Provider>)
    requires UniqueIds(ps) && ps != []
    ensures UniqueIds(ps[1..]) && forall p <- ps[1..] :: p.id != ps[0].id
  {
    assert forall i :: 0 <= i < |ps[1..]| ==> ps[1..][i] == ps[i + 1];
  }

  lemma UniqueWith(p: Provider, rest: seq<Provider>)
    requires UniqueIds(rest) && forall q <- rest :: q.id != p.id
    ensures UniqueIds([p] + rest)
  {
  }

  lemma {:induction false} FirstWithIs(ps: seq<Provider>, id: Id)
    ensures FirstWith(ps, id).None? <==> forall p <- ps :: p.id != id
    ensures FirstWith(ps, id).Some? ==> FirstWith(ps, id).value in ps && FirstWith(ps, id).value.id == id
  {
    if ps != [] {
      FirstWithIs(ps[1..], id);
      assert ps == [ps[0]] + ps[1..];
    }
  }

  // Among unique ids, an entry is found exactly where its id is looked up.
  lemma FoundIff(ps: seq<Provider>, p: Provider)
    requires UniqueIds(ps)
    ensures FirstWith(ps, p.id) == Some(p) <==> p in ps
  {
    FirstWithIs(ps, p.id);
    if p in ps {
      var i :| 0 <= i < |ps| && ps[i] == p;
      var j :| 0 <= j < |ps| && ps[j] == FirstWith(ps, p.id).value;
      if i != j { assert ps[i].id == ps[j].id; }
    }
  }

  lemma IdsOf(ps: seq<Provider>)
    requires UniqueIds(ps)
    ensures Unique(ps) && forall p <- ps, q <- ps :: p.id == q.id ==> p == q
  {
  }

  lemma UniqueIdsOf(ps: seq<Provider>)
    requires Unique(ps) && forall p <- ps, q <- ps :: p.id == q.id ==> p == q
    ensures UniqueIds(ps)
  {
  }

  /** A render keeps the lock sorted and its ids unique, replaces the entry's provider, and keeps all others. */
  lemma RenderKeeps(ps: seq<Provider>, entry: Provider)
    requires UniqueIds(ps)
    ensures UniqueIds(NextProviders(ps, entry)) && Sorted(NextProviders(ps, entry), ByKey(ProviderKey))
    ensures forall p :: p in NextProviders(ps, entry) <==> p == entry || (p in ps && p.id != entry.id)
  {
    var all := Others(ps, entry.id) + [entry];
    OthersAre(ps, entry.id);
    IdsOf(Others(ps, entry.id));
    ByKeyIsPreorder(ProviderKey);
    SortSorted(all, ByKey(ProviderKey));
    SortPermutes(all, ByKey(ProviderKey));
    assert Unique(all);
    SortUnique(all, NextProviders(ps, entry));
    UniqueIdsOf(NextProviders(ps, entry));
  }

  lemma RenderFinds(ps: seq<Provider>, entry: Provider, id: Id)
    requires UniqueIds(ps)
    ensures FirstWith(NextProviders(ps, entry), id) == if id == entry.id then Some(entry) else FirstWith(ps, id)
  {
    RenderKeeps(ps, entry);
    FirstWithIs(ps, id);
    FirstWithIs(NextProviders(ps, entry), id);
    if id == entry.id {
      FoundIff(NextProviders(ps, entry), entry);
    } else if FirstWith(ps, id).Some? {
      FoundIff(NextProviders(ps, entry), FirstWith(ps, id).value);
    }
  }

  function RenderAll(ps: seq<Provider>, entries: seq<Provider>): seq<Provider> {
    if entries == [] then ps else NextProviders(RenderAll(ps, entries[..|entries| - 1]), entries[|entries| - 1])
  }

  function LastWith(entries: seq<Provider>, id: Id): Option<Provider> {
    if entries == [] then None
    else if entries[|entries| - 1].id == id then Some(entries[|entries| - 1])
    else LastWith(entries[..|entries| - 1], id)
  }

  /** After any sequence of renders, each provider is its last entry, or what it was at the start. */
  lemma {:induction false} LastEntryWins(ps: seq<Provider>, entries: seq<Provider>, id: Id)
    requires UniqueIds(ps)
    ensures UniqueIds(RenderAll(ps, entries))
    ensures entries != [] ==> Sorted(RenderAll(ps, entries), ByKey(ProviderKey))
    ensures FirstWith(RenderAll(ps, entries), id) ==
      if LastWith(entries, id).Some? then LastWith(entries, id) else FirstWith(ps, id)
  {
    if entries != [] {
      var front, last := entries[..|entries| - 1], entries[|entries| - 1];
      LastEntryWins(ps, front, id);
      RenderKeeps(RenderAll(ps, front), last);
      RenderFinds(RenderAll(ps, front), last, id);
    }
  }

  // --- One install, file by file ---

  /** What an install was asked to do, and what it met with outside the tree. */
  datatype Request = Request(candidate: Candidate, package: Package, replaceExisting: bool, plannedAt: string,
                             preflight: Option<string>, finishedAt: string)

  function PlanFor(codec: Codec, t: ClosedTree, r: Request): Result<InstallPlan, InstallError> {
    Planned(codec, t, r.candidate, r.package, r.replaceExisting, r.plannedAt)
  }

  function StagedFor(codec: Codec, t: ClosedTree, r: Request, scan: Tree -> Option<Inventory>,
                     runner: (Command, ClosedTree) -> CommandEffect): Result<Tree, InstallError> {
    match PlanFor(codec, t, r)
    case Err(e) => Err(e)
    case Ok(plan) => StagedInstall(codec, plan, t, runner, scan, r.preflight, r.finishedAt)
  }

  /** An install that went through, planned and executed on the same root. */
  ghost predicate Installs(codec: Codec, t: ClosedTree, r: Request, scan: Tree -> Option<Inventory>,
                           runner: (Command, ClosedTree) -> CommandEffect, now: Tree) {
    && StagedFor(codec, t, r, scan, runner).Ok?
    && CommittedTo(t, StagedFor(codec, t, r, scan, runner).value, now)
  }

  // What the plan proposes, piece by piece.
  function LockText(codec: Codec, t: Tree, r: Request): string
    requires r.candidate.provenance.Some?
  {
    RenderLock(codec, t, ProviderEntry(r.candidate, r.candidate.provenance.value, None),
      codec.hex(r.candidate.provenance.value.digest))
  }

  function FixedProposals(codec: Codec, t: Tree, r: Request): (ps: seq<ChangeProposal>)
    requires r.candidate.provenance.Some? && Recorded(t, r.candidate, r.package).Ok?
    requires AppendAudit(codec, t, r.candidate, "planned", r.plannedAt).Ok?
    ensures |ps| == 3 && ps[0].path == LOCK_PATH && ps[1].path == AUDIT_PATH
    ensures ps[2].path == TransactionPath(ProviderId(r.candidate))
  {
    var c := r.candidate;
    [Own(LOCK_PATH, LockText(codec, t, r), c),
     Own(AUDIT_PATH, AppendAudit(codec, t, c, "planned", r.plannedAt).value, c),
     Own(TransactionPath(ProviderId(c)), codec.dumpTransaction(RecordedTransaction(t, r)), c)]
  }

  function PlanProposals(codec: Codec, t: Tree, r: Request): seq<ChangeProposal>
    requires r.candidate.provenance.Some? && Recorded(t, r.candidate, r.package).Ok?
    requires AppendAudit(codec, t, r.candidate, "planned", r.plannedAt).Ok?
  {
    PackageProposals(r.package, r.candidate) + FixedProposals(codec, t, r)
  }

  function RecordedTransaction(t: Tree, r: Request): Transaction
    requires Recorded(t, r.candidate, r.package).Ok?
  {
    Transaction(r.candidate.name, ProviderId(r.candidate), r.candidate.ref, Recorded(t, r.candidate, r.package).value)
  }

  lemma PlanIs(codec: Codec, t: ClosedTree, r: Request)
    requires PlanFor(codec, t, r).Ok?
    ensures r.candidate.provenance.Some? && Recorded(t, r.candidate, r.package).Ok?
    ensures AppendAudit(codec, t, r.candidate, "planned", r.plannedAt).Ok?
    ensures var plan := PlanFor(codec, t, r).value;
      && plan.candidate == r.candidate && Built(t, PlanProposals(codec, t, r), r.package.commands) == Ok(plan.changeset)
    ensures forall p <- PlanProposals(codec, t, r) :: SafePath(p.path) && p.ownership.Owned?
    ensures SafePath(TransactionPath(ProviderId(r.candidate)))
  {
    hide Built, SafePath, Recorded, AppendAudit, RenderLock, TransactionPath;
    assert SafePath(LOCK_PATH) && SafePath(AUDIT_PATH) by { FixedPathsAreSafe(); }
    forall p <- PlanProposals(codec, t, r) ensures SafePath(p.path) && p.ownership.Owned? {
      var i :| 0 <= i < |PlanProposals(codec, t, r)| && PlanProposals(codec, t, r)[i] == p;
      if i < |r.package.files| { assert r.package.files[i] in r.package.files; }
    }
  }

  lemma FixedPathsAreSafe()
    ensures SafePath(LOCK_PATH) && SafePath(AUDIT_PATH)
  {
  }

  // The paths the install writes are those it records.
  lemma ProposedPaths(codec: Codec, t: ClosedTree, r: Request, q: Path)
    requires PlanFor(codec, t, r).Ok?
    ensures (PlanIs(codec, t, r);
      q in RecordedPaths(r.candidate, r.package) <==> exists p <- PlanProposals(codec, t, r) :: p.path == q)
  {
    hide PlanProposals, RecordedPaths, PlanFor;
    PlanIs(codec, t, r);
    PathByPath(codec, t, r);
    SamePlaces(PlanProposals(codec, t, r), RecordedPaths(r.candidate, r.package), q);
  }

  lemma PathByPath(codec: Codec, t: ClosedTree, r: Request)
    requires PlanFor(codec, t, r).Ok?
    ensures (PlanIs(codec, t, r);
      var ps, paths := PlanProposals(codec, t, r), RecordedPaths(r.candidate, r.package);
      |ps| == |paths| && forall i :: 0 <= i < |ps| ==> ps[i].path == paths[i])
  {
    PlanIs(codec, t, r);
    PackagePathByPath(r.package, r.candidate);
    hide TransactionPath, PlanFor, FixedProposals, PackageProposals, PackagePaths, LOCK_PATH, AUDIT_PATH, ProviderId;
    var c := r.candidate;
    Appended(PackageProposals(r.package, c), PackagePaths(r.package), FixedProposals(codec, t, r),
             [LOCK_PATH, AUDIT_PATH, TransactionPath(ProviderId(c))]);
  }

  lemma PackagePathByPath(p: Package, c: Candidate)
    ensures var ps, paths := PackageProposals(p, c), PackagePaths(p);
      |ps| == |paths| && forall i :: 0 <= i < |ps| ==> ps[i].path == paths[i]
  {
  }

  lemma Appended(ps: seq<ChangeProposal>, paths: seq<Path>, more: seq<ChangeProposal>, morePaths: seq<Path>)
    requires |ps| == |paths| && forall i :: 0 <= i < |ps| ==> ps[i].path == paths[i]
    requires |more| == |morePaths| && forall i :: 0 <= i < |more| ==> more[i].path == morePaths[i]
    ensures |ps + more| == |paths + morePaths|
    ensures forall i :: 0 <= i < |ps + more| ==> (ps + more)[i].path == (paths + morePaths)[i]
  {
  }

  lemma SamePlaces(ps: seq<ChangeProposal>, paths: seq<Path>, q: Path)
    requires |ps| == |paths| && forall i :: 0 <= i < |ps| ==> ps[i].path == paths[i]
    ensures q in paths <==> exists p <- ps :: p.path == q
  {
    if q in paths {
      var i :| 0 <= i < |paths| && paths[i] == q;
      assert ps[i] in ps;
    }
  }

  // --- What is staged ---

  function Again(t: Tree, proposals: seq<ChangeProposal>): seq<ChangeProposal>
    requires Built(t, proposals, []).Ok?
  {
    Retarget(Built(t, proposals, []).value.operations)
  }

  // Retargeting keeps every proposal's path and text, and adds none.
  lemma RetargetOf(t: Tree, proposals: seq<ChangeProposal>, p: ChangeProposal) returns (p': ChangeProposal)
    requires Built(t, proposals, []).Ok? && p in proposals && p.ownership.Owned?
    ensures p' in Again(t, proposals) && p'.path == p.path && p'.desired == p.desired && p'.ownership.Owned?
  {
    hide Built;
    var ops := Built(t, proposals, []).value.operations;
    BuiltCoversProposals(t, proposals, [], p);
    var i :| 0 <= i < |ops| && ops[i] == BuildOperation(t, p).value;
    p' := Again(t, proposals)[i];
  }

  lemma RetargetAddsNone(t: Tree, proposals: seq<ChangeProposal>, p': ChangeProposal)
    requires Built(t, proposals, []).Ok? && p' in Again(t, proposals)
    ensures exists p <- proposals :: p.path == p'.path
  {
    hide Built, BuildOperation;
    var ops := Built(t, proposals, []).value.operations;
    var i :| 0 <= i < |ops| && Again(t, proposals)[i] == p';
    var p := BuiltComesFromProposals(t, proposals, [], ops[i]);
    PathOfBuilt(t, p);
  }

  lemma RetargetPaths(t: Tree, proposals: seq<ChangeProposal>)
    requires Built(t, proposals, []).Ok? && forall p <- proposals :: SafePath(p.path)
    ensures forall p' <- Again(t, proposals) :: SafePath(p'.path)
  {
    hide Built, SafePath, Again;
    forall p' <- Again(t, proposals) ensures SafePath(p'.path) { RetargetAddsNone(t, proposals, p'); }
  }

  lemma CopiedFiles(t: ClosedTree, q: Path)
    requires ".git" !in q
    ensures FileAt(Copied(t), q) == FileAt(t, q)
  {
  }

  ghost predicate AppliesToCopy(t: ClosedTree, proposals: seq<ChangeProposal>) {
    && Built(t, proposals, []).Ok? && (forall p <- proposals :: SafePath(p.path) && p.ownership.Owned?)
    && Built(Copied(t), Again(t, proposals), []).Ok?
    && Verified(Copied(t), Built(Copied(t), Again(t, proposals), []).value.operations).None?
  }

  /** The copy with owned proposals applied to it by way of a plan for the original. */
  function AppliedToCopy(t: ClosedTree, proposals: seq<ChangeProposal>): Tree
    requires AppliesToCopy(t, proposals)
  {
    Installed(Copied(t), Mutable(Built(Copied(t), Again(t, proposals), []).value.operations))
  }

  lemma CopyProposedAt(t: ClosedTree, proposals: seq<ChangeProposal>, p: ChangeProposal)
    requires AppliesToCopy(t, proposals) && p in proposals
    ensures FileAt(AppliedToCopy(t, proposals), p.path) == AsContent(p.desired)
  {
    hide Built, Installed, Mutable, Verified, SafePath, Copied, Again, FileAt, AsContent;
    RetargetPaths(t, proposals);
    var p' := RetargetOf(t, proposals, p);
    ProposedAt(Copied(t), Again(t, proposals), [], p');
  }

  lemma CopyUnproposedAt(t: ClosedTree, proposals: seq<ChangeProposal>, q: Path)
    requires AppliesToCopy(t, proposals) && ".git" !in q && forall p <- proposals :: p.path != q
    ensures FileAt(AppliedToCopy(t, proposals), q) == FileAt(t, q)
  {
    hide Built, Installed, Mutable, Verified, SafePath, Copied, Again, FileAt;
    RetargetPaths(t, proposals);
    forall p' <- Again(t, proposals) ensures p'.path != q { RetargetAddsNone(t, proposals, p'); }
    UnproposedAt(Copied(t), Again(t, proposals), [], q);
    CopiedFiles(t, q);
  }

  /** The copy once the package's commands have run on it. */
  function AfterCommands(t: ClosedTree, r: Request, runner: (Command, ClosedTree) -> CommandEffect): ClosedTree {
    RunAll(runner, r.package.commands, Copied(t)).tree
  }

  // The staged tree before its lock and audit log are completed.
  function Draft(codec: Codec, t: ClosedTree, r: Request, runner: (Command, ClosedTree) -> CommandEffect): Tree
    requires PlanFor(codec, t, r).Ok? && CopyBuilt(PlanFor(codec, t, r).value, t).Ok?
  {
    Installed(AfterCommands(t, r, runner), Mutable(CopyBuilt(PlanFor(codec, t, r).value, t).value.operations))
  }

  lemma DraftIs(codec: Codec, t: ClosedTree, r: Request, scan: Tree -> Option<Inventory>,
                runner: (Command, ClosedTree) -> CommandEffect)
    requires StagedFor(codec, t, r, scan, runner).Ok?
    ensures PlanFor(codec, t, r).Ok? && CopyBuilt(PlanFor(codec, t, r).value, t).Ok? && r.candidate.provenance.Some?
    ensures Verified(Copied(t), CopyBuilt(PlanFor(codec, t, r).value, t).value.operations).None?
    ensures var draft := Draft(codec, t, r, runner);
      && scan(draft).Some? && ProviderId(r.candidate) in scan(draft).value.ids && r.preflight.Some?
      && StagedFor(codec, t, r, scan, runner)
         == Completed(codec, r.candidate, draft, scan(draft).value, r.preflight.value, r.finishedAt)
    ensures PlanFor(codec, t, r).value.changeset.commands == r.package.commands
  {
    hide Built, Installed, Mutable, Verified, SafePath, Copied, Retarget, Recorded, AppendAudit, RenderLock,
      Planned, TransactionPath, RunAll;
    PlanIs(codec, t, r);
    BuiltInOrder(t, PlanProposals(codec, t, r), r.package.commands);
    var plan := PlanFor(codec, t, r).value;
    if CopyBuilt(plan, t).Ok? {
      BuiltInOrder(Copied(t), Retarget(plan.changeset.operations), plan.changeset.commands);
    }
  }

  // Which commands come with the proposals makes no difference to the operations.
  lemma CommandsAreAside(t: Tree, proposals: seq<ChangeProposal>, commands: seq<Command>)
    requires Built(t, proposals, commands).Ok?
    ensures Built(t, proposals, []).Ok?
    ensures Built(t, proposals, []).value.operations == Built(t, proposals, commands).value.operations
  {
  }

  lemma CopyBuiltIs(codec: Codec, t: ClosedTree, r: Request)
    requires PlanFor(codec, t, r).Ok? && CopyBuilt(PlanFor(codec, t, r).value, t).Ok?
    ensures (PlanIs(codec, t, r); var ps := PlanProposals(codec, t, r);
      && Built(t, ps, []).Ok? && Built(Copied(t), Again(t, ps), []).Ok?
      && CopyBuilt(PlanFor(codec, t, r).value, t).value.operations ==
        Built(Copied(t), Again(t, ps), []).value.operations)
  {
    hide Built, PlanFor, PlanProposals, Copied, Retarget, SafePath;
    PlanIs(codec, t, r);
    var plan, ps := PlanFor(codec, t, r).value, PlanProposals(codec, t, r);
    CommandsAreAside(t, ps, r.package.commands);
    CommandsAreAside(Copied(t), Retarget(plan.changeset.operations), plan.changeset.commands);
  }

  lemma DraftApplies(codec: Codec, t: ClosedTree, r: Request, scan: Tree -> Option<Inventory>,
                     runner: (Command, ClosedTree) -> CommandEffect)
    requires StagedFor(codec, t, r, scan, runner).Ok?
    ensures PlanFor(codec, t, r).Ok? && CopyBuilt(PlanFor(codec, t, r).value, t).Ok?
    ensures (PlanIs(codec, t, r); var ps := PlanProposals(codec, t, r);
      && AppliesToCopy(t, ps)
      && Draft(codec, t, r, runner)
         == Installed(AfterCommands(t, r, runner), Mutable(Built(Copied(t), Again(t, ps), []).value.operations))
      && (r.package.commands == [] ==> Draft(codec, t, r, runner) == AppliedToCopy(t, ps)))
  {
    hide Built, Installed, Mutable, Verified, SafePath, Copied, Retarget, PlanProposals, PlanFor, CopyBuilt, StagedFor,
      Again;
    DraftIs(codec, t, r, scan, runner);
    PlanIs(codec, t, r);
    CopyBuiltIs(codec, t, r);
  }

  /** The draft of a package without commands, file by file: what the plan proposes, and everything else as it was. */
  lemma DraftFiles(codec: Codec, t: ClosedTree, r: Request, scan: Tree -> Option<Inventory>,
                   runner: (Command, ClosedTree) -> CommandEffect, q: Path)
    requires r.package.commands == [] && StagedFor(codec, t, r, scan, runner).Ok? && ".git" !in q
    ensures PlanFor(codec, t, r).Ok? && CopyBuilt(PlanFor(codec, t, r).value, t).Ok?
    ensures (PlanIs(codec, t, r); forall p <- PlanProposals(codec, t, r) :: p.path == q ==>
      FileAt(Draft(codec, t, r, runner), q) == AsContent(p.desired))
    ensures q !in RecordedPaths(r.candidate, r.package) ==> FileAt(Draft(codec, t, r, runner), q) == FileAt(t, q)
  {
    hide PlanProposals, FileAt, AsContent, Planned, StagedFor, RecordedPaths, Draft, AppliesToCopy, AppliedToCopy,
      Built, CopyBuilt, Installed;
    DraftApplies(codec, t, r, scan, runner);
    PlanIs(codec, t, r);
    ProposedPaths(codec, t, r, q);
    var ps := PlanProposals(codec, t, r);
    forall p <- ps | p.path == q ensures FileAt(Draft(codec, t, r, runner), q) == AsContent(p.desired) {
      CopyProposedAt(t, ps, p);
    }
    if forall p <- ps :: p.path != q { CopyUnproposedAt(t, ps, q); }
  }

  // --- Whatever the commands did ---

  /** A planned file that is new to the root is in the draft whatever the commands did; one that is not, as they left
      it. */
  lemma DraftAt(codec: Codec, t: ClosedTree, r: Request, scan: Tree -> Option<Inventory>,
                runner: (Command, ClosedTree) -> CommandEffect, p: ChangeProposal)
    requires StagedFor(codec, t, r, scan, runner).Ok? && ".git" !in p.path
    requires PlanFor(codec, t, r).Ok? && (PlanIs(codec, t, r); p in PlanProposals(codec, t, r))
    ensures CopyBuilt(PlanFor(codec, t, r).value, t).Ok?
    ensures FileAt(Draft(codec, t, r, runner), p.path) ==
      if FileAt(t, p.path) != AsContent(p.desired) then AsContent(p.desired)
      else FileAt(AfterCommands(t, r, runner), p.path)
  {
    hide PlanProposals, FileAt, AsContent, PlanFor, StagedFor, Draft, Built, CopyBuilt, Installed, Mutable, Copied,
      AfterCommands, SafePath, AppliedToCopy, Verified, Again;
    DraftApplies(codec, t, r, scan, runner);
    PlanIs(codec, t, r);
    AllAreWritten(codec, t, r, p);
    CopyAt(t, PlanProposals(codec, t, r), p, AfterCommands(t, r, runner));
  }

  lemma AllAreWritten(codec: Codec, t: ClosedTree, r: Request, p: ChangeProposal)
    requires PlanFor(codec, t, r).Ok?
    requires (PlanIs(codec, t, r); p in PlanProposals(codec, t, r))
    ensures p.desired.Some?
  {
    hide PlanFor, Recorded, AppendAudit, RenderLock, TransactionPath, LOCK_PATH, AUDIT_PATH;
    PlanIs(codec, t, r);
    var ps := PlanProposals(codec, t, r);
    var i :| 0 <= i < |ps| && ps[i] == p;
    if i < |r.package.files| { assert ps[i] == PackageProposals(r.package, r.candidate)[i]; }
    else { assert ps[i] == FixedProposals(codec, t, r)[i - |r.package.files|]; }
  }

  lemma CopyAt(t: ClosedTree, proposals: seq<ChangeProposal>, p: ChangeProposal, s: Tree)
    requires AppliesToCopy(t, proposals) && p in proposals && p.desired.Some? && ".git" !in p.path
    ensures FileAt(Installed(s, Mutable(Built(Copied(t), Again(t, proposals), []).value.operations)), p.path) ==
      if FileAt(t, p.path) != AsContent(p.desired) then AsContent(p.desired) else FileAt(s, p.path)
  {
    hide Built, Installed, Mutable, Verified, SafePath, Copied, Again, FileAt, AsContent;
    RetargetPaths(t, proposals);
    var p' := RetargetOf(t, proposals, p);
    CopiedFiles(t, p.path);
    AppliedOver(Copied(t), Again(t, proposals), p', s);
  }

  /** Applied to another tree than the one they were built for, operations still write what was to change, and leave
      the rest. */
  lemma AppliedOver(t: Tree, proposals: seq<ChangeProposal>, p: ChangeProposal, s: Tree)
    requires Closed(t) && forall p <- proposals :: SafePath(p.path)
    requires Built(t, proposals, []).Ok? && Verified(t, Built(t, proposals, []).value.operations).None?
    requires p in proposals && p.ownership.Owned? && p.desired.Some?
    ensures FileAt(Installed(s, Mutable(Built(t, proposals, []).value.operations)), p.path) ==
      if FileAt(t, p.path) != AsContent(p.desired) then AsContent(p.desired) else FileAt(s, p.path)
  {
    hide Built, Installed, Mutable, Verified, SafePath, Posix;
    var cs := Built(t, proposals, []).value;
    var ops := Mutable(cs.operations);
    BuiltIsValid(t, proposals, []);
    ValidIsTopdown(cs);
    MutableIsTopdown(cs.operations);
    MutableIs(cs.operations);
    BuiltCoversProposals(t, proposals, [], p);
    var op := BuildOperation(t, p).value;
    ChangesFile(t, p);
    InstalledAt(s, ops, p.path);
    if op in ops {
      var i :| 0 <= i < |ops| && ops[i] == op;
    } else {
      forall i | 0 <= i < |ops| ensures !(ops[i].path <= p.path) { NotAbove(t, proposals, op, ops[i]); }
    }
  }

  lemma ChangesFile(t: Tree, p: ChangeProposal)
    requires BuildOperation(t, p).Ok? && p.ownership.Owned? && p.desired.Some?
    ensures var op := BuildOperation(t, p).value;
      && op.path == p.path && op.after == p.desired
      && (op.kind.Unchanged? <==> FileAt(t, p.path) == AsContent(p.desired))
  {
  }

  // Above a file that is there, no operation passes its check.
  lemma NotAbove(t: Tree, proposals: seq<ChangeProposal>, op: ChangeOperation, other: ChangeOperation)
    requires Closed(t) && forall p <- proposals :: SafePath(p.path)
    requires Built(t, proposals, []).Ok? && Verified(t, Built(t, proposals, []).value.operations).None?
    requires op in Built(t, proposals, []).value.operations && other in Built(t, proposals, []).value.operations
    requires op != other && FileAt(t, op.path).Some?
    ensures !(other.path <= op.path)
  {
    hide Built, Verified, SafePath, ValidOperation, BuildOperation;
    var cs := Built(t, proposals, []).value;
    BuiltIsValid(t, proposals, []);
    DistinctOperations(cs, other, op);
    FreshlyBuiltPassesIff(t, proposals, []);
    var p := BuiltComesFromProposals(t, proposals, [], other);
    PathOfBuilt(t, p);
    assert p.path in t ==> t[p.path].File?;
    if other.path <= op.path { AncestorIsDir(t, other.path, op.path); }
  }
}
