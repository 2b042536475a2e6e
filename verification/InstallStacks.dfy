/** Stacks of installs undone from the top: what comes back, to the last directory, and that nothing is in the way. */
module InstallStacks {
  import opened Wrappers
  import opened Ordering
  import opened Trees
  import opened ChangeSets
  import opened WriterModel
  import opened Journals
  import opened Nesting
  import opened Writer
  import opened Overlay
  import opened InstallModel
  import opened Install
  import opened InstallLaws
  import opened InstallTheorems
  import opened InstallSuccess
  import opened Uninstall

  // --- Directories ---

  /** The very same tree everywhere but under .git. */
  ghost predicate SameTree(t: Tree, t': Tree) {
    forall q :: ".git" !in q ==> (q in t <==> q in t') && (q in t ==> t[q] == t'[q])
  }

  lemma SameTreeIs(t: Tree, t': Tree)
    ensures SameTree(t, t') <==> SameFiles(t, t') && forall q :: ".git" !in q ==> DirAt(t, q) == DirAt(t', q)
  {
    if SameTree(t, t') {
    } else {
      var q :| ".git" !in q && !((q in t <==> q in t') && (q in t ==> t[q] == t'[q]));
      assert FileAt(t, q) != FileAt(t', q) || DirAt(t, q) != DirAt(t', q);
    }
  }

  /** Every file the install records has its directory in the project already. */
  ghost predicate HadPlaces(t: Tree, r: Request) {
    forall q <- RecordedPaths(r.candidate, r.package) :: ".git" !in q && q != [] ==> Parent(q) in t
  }

  // The directories of the root after an install: the old ones, and those above recorded files.
  lemma DirsOfInstall(codec: Codec, t: ClosedTree, r: Request, scan: Tree -> Option<Inventory>,
                      runner: (Command, ClosedTree) -> CommandEffect, now: ClosedTree, q: Path)
    requires Installs(codec, t, r, scan, runner, now) && ".git" !in q
    ensures DirAt(t, q) ==> DirAt(now, q)
    ensures DirAt(now, q) && OthersKept(t, r, now) ==>
      DirAt(t, q) || exists p <- RecordedPaths(r.candidate, r.package) :: ".git" !in p && FileAt(now, p).Some? && q < p
  {
    hide StagedFor, RecordedPaths, FileAt, DirAt, Changed, ByteTree;
    var staged := StagedFor(codec, t, r, scan, runner).value;
    if DirAt(now, q) && !DirAt(t, q) && OthersKept(t, r, now) {
      var p :| p in Changed(t, staged) && p in ByteTree(staged) && q < p;
      ChangedIs(t, staged, p);
      CommittedFile(t, staged, now, p);
      ByteTreeIs(staged, p);
    }
  }

  lemma ByteTreeIs(t: Tree, q: Path)
    ensures q in ByteTree(t) <==> ".git" !in q && FileAt(t, q).Some?
  {
  }

  // What the install records is there afterwards, or was there before.
  lemma RecordedWasOrIs(codec: Codec, t: ClosedTree, r: Request, scan: Tree -> Option<Inventory>,
                        runner: (Command, ClosedTree) -> CommandEffect, now: Tree, q: Path)
    requires Installs(codec, t, r, scan, runner, now) && q in RecordedPaths(r.candidate, r.package) && ".git" !in q
    ensures FileAt(now, q).Some? || FileAt(t, q).Some?
  {
    hide StagedFor, PlanFor, CopyBuilt, Draft, PlanProposals, RecordedPaths, LOCK_PATH, AUDIT_PATH, Recorded, FileAt,
      CommittedTo, AfterCommands;
    var staged := StagedFor(codec, t, r, scan, runner).value;
    StagedAt(codec, t, r, scan, runner, q);
    CommittedFile(t, staged, now, q);
    PlanIs(codec, t, r);
    ProposedPaths(codec, t, r, q);
    var p :| p in PlanProposals(codec, t, r) && p.path == q;
    AllAreWritten(codec, t, r, p);
    DraftAt(codec, t, r, scan, runner, p);
  }

  lemma ReversedDirs(t: ClosedTree, tx: Transaction, q: Path)
    requires forall s <- tx.before :: SafePath(s.path)
    requires Built(t, Reversal(tx), []).Ok? && Verified(t, Built(t, Reversal(tx), []).value.operations).None?
    requires Closed(Installed(t, Mutable(Built(t, Reversal(tx), []).value.operations)))
    ensures DirAt(Installed(t, Mutable(Built(t, Reversal(tx), []).value.operations)), q) <==>
      DirAt(t, q) || exists s <- tx.before :: s.text.Some? && q < s.path
  {
    hide Built, Installed, Mutable, Verified, SafePath, DirAt, Reversal;
    ReversalIsSafe(tx);
    DirsAfter(t, Reversal(tx), [], q);
    forall s <- tx.before | s.text.Some? && q < s.path
      ensures exists p <- Reversal(tx) :: p.desired.Some? && q < p.path
    {
      var p := ReversalOf(tx, s);
    }
    forall p <- Reversal(tx) | p.desired.Some? && q < p.path
      ensures exists s <- tx.before :: s.text.Some? && q < s.path
    {
      var s := ReversedFrom(tx, p);
    }
  }

  lemma ReversedFrom(tx: Transaction, p: ChangeProposal) returns (s: Saved)
    requires p in Reversal(tx)
    ensures s in tx.before && s.path == p.path && s.text == p.desired
  {
    var i :| 0 <= i < |Reversal(tx)| && Reversal(tx)[i] == p;
    s := tx.before[i];
  }

  /** An uninstall removes no directory, and makes none that its install had not left. */
  lemma UndoneDirs(codec: Codec, t: ClosedTree, r: Request, scan: Tree -> Option<Inventory>,
                   runner: (Command, ClosedTree) -> CommandEffect, now: ClosedTree, t1: ClosedTree, undone: ClosedTree,
                   q: Path)
    requires Faithful(codec) && Installs(codec, t, r, scan, runner, now) && SameTree(t1, now)
    requires '/' !in r.candidate.name
    requires Uninstalls(codec, t1, r.candidate.name, scan, undone) && ".git" !in q
    ensures DirAt(undone, q) == DirAt(now, q)
  {
    hide Installs, Uninstalls, PlanFor, RecordedPaths, Recorded, ReadText, Built, Installed, Mutable, Verified,
      SafePath, Reversal, Faithful, SameFiles, SameTree;
    SameTreeIs(t1, now);
    ReplaysIts(codec, t, r, scan, runner, now, t1, undone);
    PlanIs(codec, t, r);
    var tx := RecordedTransaction(t, r);
    ReversedDirs(t1, tx, q);
    RecordedAre(t, r.candidate, r.package);
    if s :| s in tx.before && s.text.Some? && q < s.path {
      TextIsThere(t, s.path);
      AncestorIsDir(t, q, s.path);
      DirsOfInstall(codec, t, r, scan, runner, now, q);
    }
  }

  lemma TextIsThere(t: Tree, p: Path)
    ensures ReadText(t, p).Ok? && ReadText(t, p).value.Some? ==> p in t
  {
  }

  /** An uninstall right after an install gives back the very tree outside .git, if and only if every recorded file
      reads back as it was, the commands kept to the recorded files, and each of these had its directory already. */
  lemma UninstallRestoresTreeIff(codec: Codec, t: ClosedTree, r: Request, scan: Tree -> Option<Inventory>,
                                 runner: (Command, ClosedTree) -> CommandEffect, now: ClosedTree, t1: ClosedTree,
                                 undone: ClosedTree)
    requires Faithful(codec) && Installs(codec, t, r, scan, runner, now) && SameTree(t1, now)
    requires '/' !in r.candidate.name
    requires Uninstalls(codec, t1, r.candidate.name, scan, undone)
    ensures SameTree(undone, t) <==> ReadsBack(t, r) && OthersKept(t, r, now) && HadPlaces(t, r)
  {
    hide Installs, Uninstalls, RecordedPaths, Faithful, SameFiles, SameTree, ReadsBack, OthersKept, FileAt;
    SameTreeIs(t1, now);
    SameTreeIs(undone, t);
    UninstallRestoresIff(codec, t, r, scan, runner, now, t1, undone);
    forall q | ".git" !in q ensures DirAt(undone, q) == DirAt(now, q) {
      UndoneDirs(codec, t, r, scan, runner, now, t1, undone, q);
    }
    if SameTree(undone, t) {
      forall q <- RecordedPaths(r.candidate, r.package) | ".git" !in q && q != [] ensures Parent(q) in t {
        RecordedWasOrIs(codec, t, r, scan, runner, now, q);
        ParentsOfFile(t, now, q);
        assert ".git" !in Parent(q);
      }
    }
    if SameFiles(undone, t) && OthersKept(t, r, now) && HadPlaces(t, r) {
      forall q | ".git" !in q ensures DirAt(undone, q) == DirAt(t, q) {
        DirsOfInstall(codec, t, r, scan, runner, now, q);
        if p :| p in RecordedPaths(r.candidate, r.package) && ".git" !in p && FileAt(now, p).Some? && q < p {
          assert ".git" !in Parent(p);
          SameFile(undone, t, Parent(p));
          PlaceWasDir(t, now, undone, p, q);
        }
      }
    }
  }

  lemma ParentsOfFile(t: ClosedTree, now: ClosedTree, q: Path)
    requires q != [] && (FileAt(now, q).Some? || FileAt(t, q).Some?)
    ensures DirAt(now, Parent(q)) || Parent(q) in t
  {
  }

  lemma PlaceWasDir(t: ClosedTree, now: ClosedTree, undone: Tree, p: Path, q: Path)
    requires FileAt(now, p).Some? && q < p && Parent(p) in t
    requires DirAt(undone, Parent(p)) == DirAt(now, Parent(p)) && FileAt(undone, Parent(p)) == FileAt(t, Parent(p))
    ensures DirAt(t, q)
  {
    if q != Parent(p) { AncestorIsDir(t, q, Parent(p)); }
  }

  /** So the first install of a project leaves its directory of transactions behind when it is undone. */
  lemma FirstUninstallLeavesDirectory(codec: Codec, t: ClosedTree, r: Request, scan: Tree -> Option<Inventory>,
                                      runner: (Command, ClosedTree) -> CommandEffect, now: ClosedTree, t1: ClosedTree,
                                      undone: ClosedTree)
    requires Faithful(codec) && Installs(codec, t, r, scan, runner, now) && SameTree(t1, now)
    requires '/' !in r.candidate.name
    requires Uninstalls(codec, t1, r.candidate.name, scan, undone)
    requires TRANSACTION_ROOT !in t
    ensures DirAt(undone, TRANSACTION_ROOT) && !SameTree(undone, t)
  {
    hide Installs, Uninstalls, RecordedPaths, Faithful, SameTree, TransactionPath, FileAt, PlanFor;
    var p := TransactionPath(ProviderId(r.candidate));
    TransactionIsFound(r.candidate);
    InstallRecords(codec, t, r, scan, runner, now);
    ParentOfFile(now, p);
    assert ".git" !in TRANSACTION_ROOT by {
      assert forall i :: 0 <= i < |TRANSACTION_ROOT| ==> TRANSACTION_ROOT[i] == p[i];
    }
    UndoneDirs(codec, t, r, scan, runner, now, t1, undone, TRANSACTION_ROOT);
    SameTreeIs(undone, t);
  }

  lemma ParentOfFile(t: ClosedTree, p: Path)
    requires p != [] && FileAt(t, p).Some?
    ensures DirAt(t, Parent(p))
  {
  }

  // --- A stack, undone from the top ---

  /** An install whose uninstall gives back the very tree. */
  ghost predicate Reverts(t: Tree, r: Request, now: Tree) {
    ReadsBack(t, r) && OthersKept(t, r, now) && HadPlaces(t, r)
  }

  ghost predicate Stacked(codec: Codec, ups: seq<ClosedTree>, rs: seq<Request>, scan: Tree -> Option<Inventory>,
                          runner: (Command, ClosedTree) -> CommandEffect) {
    && |ups| == |rs| + 1
    && (forall i :: 0 <= i < |rs| ==> Installs(codec, ups[i], rs[i], scan, runner, ups[i + 1]))
    && (forall i :: 0 <= i < |rs| ==> '/' !in rs[i].candidate.name)
  }

  ghost predicate Unwound(codec: Codec, downs: seq<ClosedTree>, rs: seq<Request>, scan: Tree -> Option<Inventory>) {
    && |downs| == |rs| + 1
    && (forall i :: 0 <= i < |rs| ==> Uninstalls(codec, downs[i + 1], rs[i].candidate.name, scan, downs[i]))
  }

  /** Any stack of installs, undone from the top, gives back the files of every level, if and only if each of its
      installs reads back what it records and keeps to it. */
  lemma StackUnwinds(codec: Codec, ups: seq<ClosedTree>, downs: seq<ClosedTree>, rs: seq<Request>,
                     scan: Tree -> Option<Inventory>, runner: (Command, ClosedTree) -> CommandEffect)
    requires Faithful(codec) && Stacked(codec, ups, rs, scan, runner) && Unwound(codec, downs, rs, scan)
    requires SameFiles(downs[|rs|], ups[|rs|])
    ensures (forall k :: 0 <= k <= |rs| ==> SameFiles(downs[k], ups[k])) <==>
      forall i :: 0 <= i < |rs| ==> ReadsBack(ups[i], rs[i]) && OthersKept(ups[i], rs[i], ups[i + 1])
  {
    hide Installs, Uninstalls, SameFiles, ReadsBack, OthersKept, Faithful;
    var i := |rs|;
    while i > 0
      invariant 0 <= i <= |rs|
      invariant (forall k :: i <= k <= |rs| ==> SameFiles(downs[k], ups[k])) <==>
        forall k :: i <= k < |rs| ==> ReadsBack(ups[k], rs[k]) && OthersKept(ups[k], rs[k], ups[k + 1])
    {
      i := i - 1;
      if SameFiles(downs[i + 1], ups[i + 1]) {
        UninstallRestoresIff(codec, ups[i], rs[i], scan, runner, ups[i + 1], downs[i + 1], downs[i]);
      }
    }
  }

  /** And the very tree of every level, if and only if each of them also found its directories there. */
  lemma StackUnwindsExactly(codec: Codec, ups: seq<ClosedTree>, downs: seq<ClosedTree>, rs: seq<Request>,
                            scan: Tree -> Option<Inventory>, runner: (Command, ClosedTree) -> CommandEffect)
    requires Faithful(codec) && Stacked(codec, ups, rs, scan, runner) && Unwound(codec, downs, rs, scan)
    requires SameTree(downs[|rs|], ups[|rs|])
    ensures (forall k :: 0 <= k <= |rs| ==> SameTree(downs[k], ups[k])) <==>
      forall i :: 0 <= i < |rs| ==> Reverts(ups[i], rs[i], ups[i + 1])
  {
    hide Installs, Uninstalls, SameTree, ReadsBack, OthersKept, HadPlaces, Faithful;
    var i := |rs|;
    while i > 0
      invariant 0 <= i <= |rs|
      invariant (forall k :: i <= k <= |rs| ==> SameTree(downs[k], ups[k])) <==>
        forall k :: i <= k < |rs| ==> Reverts(ups[k], rs[k], ups[k + 1])
    {
      i := i - 1;
      if SameTree(downs[i + 1], ups[i + 1]) {
        UninstallRestoresTreeIff(codec, ups[i], rs[i], scan, runner, ups[i + 1], downs[i + 1], downs[i]);
      }
    }
  }

  // --- Nothing is in the way ---

  /** What an install must be like for its uninstall to go through: all of it can be told from the project before the
      uninstall. */
  ghost predicate Undoable(t: Tree, r: Request, now: Tree, scan: Tree -> Option<Inventory>) {
    && (forall q <- RecordedPaths(r.candidate, r.package) :: ".git" !in q)
    && (forall f <- r.package.files :: !IsTransactionFile(f.path))
    && (r.package.commands == [] || (OthersKept(t, r, now) && RecordedStand(r, now)))
    && ReadsBack(t, r)
    && scan(t).Some? && !Resolves(scan, t, ProviderId(r.candidate))
  }

  /** All that UninstallCapability asks for: one transaction, nothing in the way of its reversal, and a trial that
      clears. */
  ghost predicate ReadyToUninstall(codec: Codec, t: ClosedTree, capability: string, scan: Tree -> Option<Inventory>) {
    exists p, tx ::
      && Matching(codec, t, capability) == {p} && LoadedAt(codec, t, p) == Some(tx)
      && Reversible(t, tx) && Clears(t, tx, scan)
  }

  lemma SameMatching(codec: Codec, t: Tree, t': Tree, name: string)
    requires SameFiles(t, t')
    ensures Matching(codec, t, name) == Matching(codec, t', name)
  {
    hide FileAt, ReadText, SameFiles;
    forall p | IsTransactionFile(p) ensures p in Matching(codec, t, name) <==> p in Matching(codec, t', name) {
      NoGitBelow(p);
      SameFile(t, t', p);
      SameFileSameText(t, t', p);
      SameFileSameText(t', t, p);
    }
  }

  lemma NoGitBelow(p: Path)
    requires IsTransactionFile(p)
    ensures ".git" !in p
  {
    assert p[|p| - 1] != ".git" by { assert p[|p| - 1][|p[|p| - 1]| - 1] == JSON_SUFFIX[4]; }
    NoGitInside(p);
  }

  // One level of the stack: its transaction is found, nothing is in the way, and the files are back.
  lemma LevelComesDown(codec: Codec, t: ClosedTree, r: Request, scan: Tree -> Option<Inventory>,
                       runner: (Command, ClosedTree) -> CommandEffect, now: Tree, t1: ClosedTree)
    returns (undone: ClosedTree)
    requires Faithful(codec) && Installs(codec, t, r, scan, runner, now) && '/' !in r.candidate.name
    requires LooksAtFiles(scan) && Undoable(t, r, now, scan) && SameFiles(t1, now)
    requires Matching(codec, t, r.candidate.name) == {}
    ensures ReadyToUninstall(codec, t1, r.candidate.name, scan)
    ensures Uninstalls(codec, t1, r.candidate.name, scan, undone) && SameFiles(undone, t)
  {
    hide Installs, Recorded, PlanFor, RecordedPaths, Built, Verified, Mutable, Installed, SafePath, Separate, OpenWays,
      Faithful, Clears, Matching, LoadedAt, IsTransactionFile, OthersKept, ReadsBack, SameFiles, LooksAtFiles, Copied,
      Resolves, TransactionPath, RecordedStand, FileAt;
    InstallIsFound(codec, t, r, scan, runner, now);
    SameMatching(codec, t1, now, r.candidate.name);
    var p := TransactionPath(ProviderId(r.candidate));
    FindsItsTransaction(codec, t, r, scan, runner, now, t1, p);
    PlanIs(codec, t, r);
    var tx := RecordedTransaction(t, r);
    ReversalSucceedsIff(codec, t, r, scan, runner, now, t1);
    UndoneIsClosed(t1, tx);
    undone := Installed(t1, Mutable(Built(t1, Reversal(tx), []).value.operations));
    ContainedKeepsOthers(codec, t, r, scan, runner, now);
    UninstallRestoresIff(codec, t, r, scan, runner, now, t1, undone);
  }

  lemma UndoneIsClosed(t: ClosedTree, tx: Transaction)
    requires Reversible(t, tx)
    ensures Closed(Installed(t, Mutable(Built(t, Reversal(tx), []).value.operations)))
  {
    hide Built, Verified, Mutable, Installed, SafePath, Separate, OpenWays, Copied, Reversal, Posix, ValidOperation;
    ReversalIsSafe(tx);
    BuiltIsValid(t, Reversal(tx), []);
    MutableIs(Built(t, Reversal(tx), []).value.operations);
    InstalledIsClosed(t, Mutable(Built(t, Reversal(tx), []).value.operations));
  }

  /** A name that has no transaction at the bottom of a stack has none below the install that brings it. */
  lemma {:induction false} NoTransactionYet(codec: Codec, ups: seq<ClosedTree>, rs: seq<Request>,
                                            scan: Tree -> Option<Inventory>,
                                            runner: (Command, ClosedTree) -> CommandEffect,
                                            k: nat, name: string)
    requires Faithful(codec) && Stacked(codec, ups, rs, scan, runner) && k <= |rs|
    requires forall i :: 0 <= i < k ==> Undoable(ups[i], rs[i], ups[i + 1], scan) && rs[i].candidate.name != name
    requires Matching(codec, ups[0], name) == {}
    ensures Matching(codec, ups[k], name) == {}
  {
    hide Installs, Matching, Faithful, RecordedPaths, OthersKept, ReadsBack, RecordedStand, Resolves, IsTransactionFile;
    if k > 0 {
      NoTransactionYet(codec, ups, rs, scan, runner, k - 1, name);
      OthersAreFound(codec, ups[k - 1], rs[k - 1], scan, runner, ups[k], name);
    }
  }

  // Distinct names, none of them installed at the bottom.
  ghost predicate FreshNames(codec: Codec, bottom: Tree, rs: seq<Request>) {
    && (forall i, j :: 0 <= i < j < |rs| ==> rs[i].candidate.name != rs[j].candidate.name)
    && (forall i :: 0 <= i < |rs| ==> Matching(codec, bottom, rs[i].candidate.name) == {})
  }

  /** A stack of installs with fresh names comes all the way down: at each level the uninstall finds its transaction,
      nothing is in its way, its trial clears, and the files of that level are back. */
  lemma StackComesDown(codec: Codec, ups: seq<ClosedTree>, rs: seq<Request>, scan: Tree -> Option<Inventory>,
                       runner: (Command, ClosedTree) -> CommandEffect)
    returns (downs: seq<ClosedTree>)
    requires Faithful(codec) && LooksAtFiles(scan) && Stacked(codec, ups, rs, scan, runner)
    requires FreshNames(codec, ups[0], rs)
    requires forall i :: 0 <= i < |rs| ==> Undoable(ups[i], rs[i], ups[i + 1], scan)
    ensures Unwound(codec, downs, rs, scan) && downs[|rs|] == ups[|rs|]
    ensures forall i :: 0 <= i < |rs| ==> ReadyToUninstall(codec, downs[i + 1], rs[i].candidate.name, scan)
    ensures forall k :: 0 <= k <= |rs| ==> SameFiles(downs[k], ups[k])
  {
    hide Installs, Uninstalls, SameFiles, Faithful, LooksAtFiles, Undoable, ReadyToUninstall, Matching;
    assert SameFiles(ups[|rs|], ups[|rs|]) by { SameAsItself(ups[|rs|]); }
    downs := [ups[|rs|]];
    var n := |rs|;
    while n > 0
      invariant 0 <= n <= |rs| && |downs| == |rs| + 1 - n && downs[|rs| - n] == ups[|rs|]
      invariant forall k :: n <= k <= |rs| ==> SameFiles(downs[k - n], ups[k])
      invariant forall k :: n <= k < |rs| ==>
        && Uninstalls(codec, downs[k + 1 - n], rs[k].candidate.name, scan, downs[k - n])
        && ReadyToUninstall(codec, downs[k + 1 - n], rs[k].candidate.name, scan)
    {
      n := n - 1;
      NoTransactionYet(codec, ups, rs, scan, runner, n, rs[n].candidate.name);
      var undone := LevelComesDown(codec, ups[n], rs[n], scan, runner, ups[n + 1], downs[0]);
      downs := [undone] + downs;
    }
  }

  /** If each install found its directories there, these are the very trees of the way up. */
  lemma StackComesDownExactly(codec: Codec, ups: seq<ClosedTree>, downs: seq<ClosedTree>, rs: seq<Request>,
                              scan: Tree -> Option<Inventory>, runner: (Command, ClosedTree) -> CommandEffect)
    requires Faithful(codec) && Stacked(codec, ups, rs, scan, runner) && Unwound(codec, downs, rs, scan)
    requires forall i :: 0 <= i < |rs| ==> Undoable(ups[i], rs[i], ups[i + 1], scan) && HadPlaces(ups[i], rs[i])
    requires downs[|rs|] == ups[|rs|]
    ensures forall k :: 0 <= k <= |rs| ==> SameTree(downs[k], ups[k])
  {
    hide Installs, Uninstalls, Faithful, Undoable, HadPlaces, SameTree, Reverts;
    SameAsItself(ups[|rs|]);
    StackUnwindsExactly(codec, ups, downs, rs, scan, runner);
    forall i | 0 <= i < |rs| ensures Reverts(ups[i], rs[i], ups[i + 1]) {
      UndoableReverts(codec, ups[i], rs[i], scan, runner, ups[i + 1]);
    }
  }

  lemma UndoableReverts(codec: Codec, t: ClosedTree, r: Request, scan: Tree -> Option<Inventory>,
                        runner: (Command, ClosedTree) -> CommandEffect, now: Tree)
    requires Installs(codec, t, r, scan, runner, now) && Undoable(t, r, now, scan) && HadPlaces(t, r)
    ensures Reverts(t, r, now)
  {
    hide Installs, RecordedPaths, OthersKept, ReadsBack, RecordedStand, Resolves, HadPlaces, IsTransactionFile;
    ContainedKeepsOthers(codec, t, r, scan, runner, now);
  }

  lemma SameAsItself(t: Tree)
    ensures SameFiles(t, t) && SameTree(t, t)
  {
  }

  /** There is only one way down: an uninstall that goes through leaves one tree. */
  lemma UninstallIsOne(codec: Codec, t: ClosedTree, capability: string, scan: Tree -> Option<Inventory>, a: Tree,
                       b: Tree)
    requires Uninstalls(codec, t, capability, scan, a) && Uninstalls(codec, t, capability, scan, b)
    ensures a == b
  {
    hide Built, Installed, Mutable, Verified, SafePath, Clears, Matching, LoadedAt, Reversal;
    var p, tx :| && Matching(codec, t, capability) == {p} && LoadedAt(codec, t, p) == Some(tx)
                 && a == Installed(t, Mutable(Built(t, Reversal(tx), []).value.operations))
                 && Built(t, Reversal(tx), []).Ok?;
    var p', tx' :| && Matching(codec, t, capability) == {p'} && LoadedAt(codec, t, p') == Some(tx')
                   && b == Installed(t, Mutable(Built(t, Reversal(tx'), []).value.operations))
                   && Built(t, Reversal(tx'), []).Ok?;
    assert p in {p'};
  }
}
