/** Reversing a recorded install: tried on a copy, refused if the capability still resolves there. */
module Uninstall {
  import opened Wrappers
  import opened Ordering
  import opened Trees
  import opened ChangeSets
  import opened WriterModel
  import opened Journals
  import opened Nesting
  import opened Writer
  import opened Overlay
  import opened InstallModel
  import opened Install

  datatype UninstallError =
    | NotOneTransaction(found: nat) | BadPath | NotBuilt(error: BuildError)
    | TrialFailed | NoInventory | StillResolves | ApplyFailed(rollbackErrors: seq<Path>)

  // --- Finding the transaction ---

  const JSON_SUFFIX := ".json"

  predicate EndsWith(s: string, suffix: string) {
    |suffix| <= |s| && s[|s| - |suffix|..] == suffix
  }

  // directory.glob("*.json")
  predicate IsTransactionFile(p: Path) {
    p != [] && Parent(p) == TRANSACTION_ROOT && EndsWith(p[|p| - 1], JSON_SUFFIX)
  }

  function LoadedAt(codec: Codec, t: Tree, p: Path): Option<Transaction> {
    match ReadText(t, p)
    case Ok(Some(text)) => codec.loadTransaction(text)
    case _ => None
  }

  predicate Matches(codec: Codec, t: Tree, capability: string, p: Path) {
    LoadedAt(codec, t, p).Some? && LoadedAt(codec, t, p).value.capability == capability
  }

  /** The files that record an install of this capability. */
  function Matching(codec: Codec, t: Tree, capability: string): set<Path> {
    set p <- t.Keys | IsTransactionFile(p) && Matches(codec, t, capability, p)
  }

  ghost function FoundIn(codec: Codec, t: Tree, capability: string, listing: seq<Path>): set<Path> {
    set p <- listing | Matches(codec, t, capability, p)
  }

  lemma FoundInMore(codec: Codec, t: Tree, capability: string, listing: seq<Path>, p: Path)
    requires p !in listing
    ensures var found := FoundIn(codec, t, capability, listing);
      && p !in found
      && FoundIn(codec, t, capability, listing + [p]) == if Matches(codec, t, capability, p) then found + {p} else found
  {
    hide Matches;
  }

  lemma FoundInAll(codec: Codec, t: Tree, capability: string, listing: seq<Path>)
    requires forall p :: p in listing <==> p in t && IsTransactionFile(p)
    ensures FoundIn(codec, t, capability, listing) == Matching(codec, t, capability)
  {
    hide Matches, IsTransactionFile;
  }

  method LoadTransaction(codec: Codec, t: Tree, capability: string, listing: seq<Path>)
    returns (r: Result<(Path, Transaction), UninstallError>)
    requires Unique(listing) && forall p :: p in listing <==> p in t && IsTransactionFile(p)
    ensures r.Ok? <==> |Matching(codec, t, capability)| == 1
    ensures r.Ok? ==> Matching(codec, t, capability) == {r.value.0} && LoadedAt(codec, t, r.value.0) == Some(r.value.1)
    ensures r.Err? ==> r.error == NotOneTransaction(|Matching(codec, t, capability)|)
  {
    var matches: seq<(Path, Transaction)> := [];
    FoundInAll(codec, t, capability, listing);
    hide FoundIn, IsTransactionFile, LoadedAt, Matching, Matches;
    ghost var found := FoundIn(codec, t, capability, []);
    assert found == {} by { NoneFound(codec, t, capability); }
    for n := 0 to |listing|
      invariant found == FoundIn(codec, t, capability, listing[..n])
      invariant |found| == |matches|
      invariant |matches| == 1 ==> found == {matches[0].0} && LoadedAt(codec, t, matches[0].0) == Some(matches[0].1)
    {
      var path := listing[n];
      assert listing[..n + 1] == listing[..n] + [path] && path !in listing[..n];
      FoundInMore(codec, t, capability, listing[..n], path);
      MatchesIs(codec, t, capability, path);
      var payload := LoadedAt(codec, t, path);
      if payload.Some? && payload.value.capability == capability {
        matches := matches + [(path, payload.value)];
        found := found + {path};
      }
    }
    assert listing[..|listing|] == listing && found == Matching(codec, t, capability);
    if |matches| != 1 { return Err(NotOneTransaction(|matches|)); }
    r := Ok(matches[0]);
  }

  lemma MatchesIs(codec: Codec, t: Tree, capability: string, p: Path)
    ensures Matches(codec, t, capability, p) <==>
      LoadedAt(codec, t, p).Some? && LoadedAt(codec, t, p).value.capability == capability
  {
  }

  lemma NoneFound(codec: Codec, t: Tree, capability: string)
    ensures FoundIn(codec, t, capability, []) == {}
  {
  }

  // --- Reversing it ---

  function Reversal(tx: Transaction): seq<ChangeProposal> {
    seq(|tx.before|, i requires 0 <= i < |tx.before| =>
      ChangeProposal(tx.before[i].path, tx.before[i].text, Owned, "uninstall:" + tx.providerId))
  }

  /** The copy with the reversal applied, on which the capability must no longer resolve. */
  function Trial(t: ClosedTree, tx: Transaction): Result<Tree, UninstallError> {
    match Built(t, Reversal(tx), [])
    case Err(e) => Err(NotBuilt(e))
    case Ok(cs) =>
      match Built(Copied(t), Retarget(cs.operations), [])
      case Err(e) => Err(NotBuilt(e))
      case Ok(trial) =>
        if Verified(Copied(t), trial.operations).Some? then Err(TrialFailed)
        else Ok(Installed(Copied(t), Mutable(trial.operations)))
  }

  /** A reversal that may go ahead: its trial succeeds, and the capability is gone from it. */
  predicate Clears(t: ClosedTree, tx: Transaction, scan: Tree -> Option<Inventory>) {
    && Trial(t, tx).Ok?
    && scan(Trial(t, tx).value).Some?
    && tx.providerId !in scan(Trial(t, tx).value).value.ids
  }

  predicate Resolves(scan: Tree -> Option<Inventory>, t: Tree, id: string) {
    scan(t).Some? && id in scan(t).value.ids
  }

  /** An uninstall that went through, from tree to tree. */
  ghost predicate Uninstalls(codec: Codec, t: ClosedTree, capability: string, scan: Tree -> Option<Inventory>,
                             now: Tree) {
    exists p, tx ::
      && Matching(codec, t, capability) == {p} && LoadedAt(codec, t, p) == Some(tx)
      && (forall s <- tx.before :: SafePath(s.path))
      && Clears(t, tx, scan)
      && Built(t, Reversal(tx), []).Ok? && Verified(t, Built(t, Reversal(tx), []).value.operations).None?
      && now == Installed(t, Mutable(Built(t, Reversal(tx), []).value.operations))
  }

  // Nothing stands in the way of a reversal, on the copy or on the project.
  ghost predicate Reversible(t: ClosedTree, tx: Transaction) {
    && [] in t && t[[]].Dir? && (forall s <- tx.before :: SafePath(s.path))
    && Built(t, Reversal(tx), []).Ok?
    && var cs := Built(t, Reversal(tx), []).value;
       var trial := Built(Copied(t), Retarget(cs.operations), []);
       && Verified(t, cs.operations).None? && Separate(Mutable(cs.operations)) && OpenWays(t, Mutable(cs.operations))
       && trial.Ok? && Separate(Mutable(trial.value.operations)) && OpenWays(Copied(t), Mutable(trial.value.operations))
  }

  method Try(t: ClosedTree, tx: Transaction, cs: ChangeSet, scratch: Scratch, scan: Tree -> Option<Inventory>)
    returns (failed: Option<UninstallError>)
    requires Built(t, Reversal(tx), []) == Ok(cs) && ValidChangeSet(cs)
    ensures failed.None? ==> Clears(t, tx, scan)
    ensures failed.Some? ==> !failed.value.ApplyFailed?
    ensures Clears(t, tx, scan) && !scratch.copyFails && (forall n: nat :: !scratch.faults(n)) && [] in t && t[[]].Dir?
      && Separate(Mutable(Built(Copied(t), Retarget(cs.operations), []).value.operations))
      && OpenWays(Copied(t), Mutable(Built(Copied(t), Retarget(cs.operations), []).value.operations))
      ==> failed.None?
  {
    hide ValidChangeSet, Verified, Separate, OpenWays, SafePath, Built, Installed;
    if scratch.copyFails || [] !in t { return Some(TrialFailed); }
    var copy := Copied(t);
    var trial := BuildChangeset(copy, Retarget(cs.operations), []);
    if trial.Err? { return Some(NotBuilt(trial.error)); }
    RetargetIsSafe(cs);
    BuiltIsValid(copy, Retarget(cs.operations), []);
    BuiltInOrder(copy, Retarget(cs.operations), []);
    var applied := ApplyToCopy(copy, trial.value, scratch);
    if applied.None? { return Some(TrialFailed); }
    var inventory := scan(applied.value);
    if inventory.None? { return Some(NoInventory); }
    if tx.providerId in inventory.value.ids { return Some(StillResolves); }
    failed := None;
  }

  method UninstallCapability(codec: Codec, project: AtomicWriter, capability: string, listing: seq<Path>,
                             scratch: Scratch,
                             scan: Tree -> Option<Inventory>)
    returns (r: Result<seq<Path>, UninstallError>)
    requires Unique(listing) && forall p :: p in listing <==> p in project.root && IsTransactionFile(p)
    modifies project
    ensures r.Ok? ==> Uninstalls(codec, old(project.root), capability, scan, project.root)
    // A capability with no transaction, or with several, is not touched.
    ensures |Matching(codec, old(project.root), capability)| != 1 ==>
      r == Err(NotOneTransaction(|Matching(codec, old(project.root), capability)|))
    // One whose trial fails, or still resolves the capability, is refused.
    ensures forall p, tx ::
      (Matching(codec, old(project.root), capability) == {p} && LoadedAt(codec, old(project.root), p) == Some(tx)
       && !Clears(old(project.root), tx, scan)) ==> r.Err? && !r.error.ApplyFailed?
    // It goes through when no call fails and nothing is in the way.
    ensures (forall n: nat :: !scratch.faults(n) && !project.faults(n)) && !scratch.copyFails ==>
      forall p, tx ::
        (Matching(codec, old(project.root), capability) == {p} && LoadedAt(codec, old(project.root), p) == Some(tx)
         && Reversible(old(project.root), tx) && Clears(old(project.root), tx, scan)) ==> r.Ok?
    // Nothing but a failed rollback leaves anything behind.
    ensures r.Err? && !r.error.ApplyFailed? ==> project.root == old(project.root)
    ensures r.Err? && r.error.ApplyFailed? && r.error.rollbackErrors == [] ==>
      project.halfMade || project.lingered || project.root == old(project.root)
  {
    hide ValidChangeSet, Separate, OpenWays, PlainTargets, Lost, Restored, SafePath, Built, Installed, Clears,
      Trial, Verified, Matches;
    ghost var was := project.root;
    var loaded := LoadTransaction(codec, project.root, capability, listing);
    if loaded.Err? { return Err(loaded.error); }
    var tx := loaded.value.1;
    if exists s <- tx.before :: !SafePath(s.path) { return Err(BadPath); }
    forall p <- Reversal(tx) ensures SafePath(p.path) {
      var i :| 0 <= i < |tx.before| && Reversal(tx)[i] == p;
      assert tx.before[i] in tx.before;
    }
    var cs := BuildChangeset(project.root, Reversal(tx), []);
    if cs.Err? { return Err(NotBuilt(cs.error)); }
    BuiltIsValid(was, Reversal(tx), []);
    BuiltInOrder(was, Reversal(tx), []);
    var failed := Try(project.root, tx, cs.value, scratch, scan);
    if failed.Some? { return Err(failed.value); }
    var outcome := project.ApplyChangeset(cs.value);
    match outcome
    case Applied(paths) => r := Ok(paths);
    case RolledBack(errors) => r := Err(ApplyFailed(errors));
    case _ => r := Err(ApplyFailed([]));
  }
}
