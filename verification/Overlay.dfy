/** What building a ChangeSet and applying it comes to, file by file. */
module Overlay {
  import opened Wrappers
  import opened Ordering
  import opened Trees
  import opened ChangeSets
  import opened WriterModel
  import opened Journals
  import opened Nesting
  import opened Writer

  function FileAt(t: Tree, q: Path): Option<Content> {
    if q in t && t[q].File? then Some(t[q].content) else None
  }

  function AsContent(text: Option<string>): Option<Content> {
    match text
    case None => None
    case Some(s) => Some(Text(s))
  }

  /** The installed tree, file by file: the new contents at the operations' paths, nothing below them, all else as
      before. */
  lemma {:induction false} InstalledAt(t: Tree, ops: seq<ChangeOperation>, q: Path)
    requires Topdown(ops) && forall i :: 0 <= i < |ops| ==> ops[i].path != []
    ensures forall i :: 0 <= i < |ops| && ops[i].path == q ==> FileAt(Installed(t, ops), q) == AsContent(ops[i].after)
    ensures (exists i :: 0 <= i < |ops| && ops[i].path < q) && (forall i :: 0 <= i < |ops| ==> ops[i].path != q) ==>
      FileAt(Installed(t, ops), q) == None
    ensures (forall i :: 0 <= i < |ops| ==> !(ops[i].path <= q)) ==> FileAt(Installed(t, ops), q) == FileAt(t, q)
  {
    hide FileAt, AsContent, PutOperation;
    if ops != [] {
      var front, op := ops[..|ops| - 1], ops[|ops| - 1];
      assert forall i :: 0 <= i < |front| ==> front[i] == ops[i];
      InstalledAt(t, front, q);
      PutAt(Installed(t, front), op, q);
    }
  }

  lemma PutAt(t: Tree, op: ChangeOperation, q: Path)
    requires op.path != []
    ensures FileAt(PutOperation(t, op), q) ==
      if q == op.path then AsContent(op.after) else if op.path <= q then None else FileAt(t, q)
  {
    if op.after.Some? {
      PrefixesAre(Parent(op.path));
      assert op.path <= q ==> q !in Prefixes(Parent(op.path));
    }
  }

  // --- Directories ---

  predicate DirAt(t: Tree, q: Path) {
    q in t && t[q].Dir?
  }

  /** An apply makes no directory but those above its new files, and removes none but what its operations replace. */
  lemma {:induction false} InstalledDirs(t: Tree, ops: seq<ChangeOperation>, q: Path)
    requires forall i :: 0 <= i < |ops| ==> ops[i].path != []
    ensures DirAt(Installed(t, ops), q) ==>
      DirAt(t, q) || exists i :: 0 <= i < |ops| && ops[i].after.Some? && q < ops[i].path
    ensures DirAt(t, q) && (forall i :: 0 <= i < |ops| ==> !(ops[i].path <= q)) ==> DirAt(Installed(t, ops), q)
  {
    hide DirAt, PutOperation;
    if ops != [] {
      var front, op := ops[..|ops| - 1], ops[|ops| - 1];
      assert forall i :: 0 <= i < |front| ==> front[i] == ops[i];
      InstalledDirs(t, front, q);
      PutDirs(Installed(t, front), op, q);
    }
  }

  lemma PutDirs(t: Tree, op: ChangeOperation, q: Path)
    requires op.path != []
    ensures DirAt(PutOperation(t, op), q) ==> DirAt(t, q) || (op.after.Some? && q < op.path)
    ensures DirAt(t, q) && !(op.path <= q) ==> DirAt(PutOperation(t, op), q)
  {
    PrefixesAre(Parent(op.path));
  }

  /** Owned proposals, built and applied: the directories are the old ones and those above the files proposed. */
  lemma DirsAfter(t: Tree, proposals: seq<ChangeProposal>, commands: seq<Command>, q: Path)
    requires Closed(t) && forall p <- proposals :: SafePath(p.path) && p.ownership.Owned?
    requires Built(t, proposals, commands).Ok? && Verified(t, Built(t, proposals, commands).value.operations).None?
    requires Closed(Installed(t, Mutable(Built(t, proposals, commands).value.operations)))
    ensures DirAt(Installed(t, Mutable(Built(t, proposals, commands).value.operations)), q) <==>
      DirAt(t, q) || exists p <- proposals :: p.desired.Some? && q < p.path
  {
    hide Installed, Mutable, Verified, SafePath, Posix, Built, ValidOperation, KindOf;
    var cs := Built(t, proposals, commands).value;
    var ops := Mutable(cs.operations);
    var now := Installed(t, ops);
    BuiltIsValid(t, proposals, commands);
    MutableIs(cs.operations);
    FreshlyBuiltPassesIff(t, proposals, commands);
    InstalledDirs(t, ops, q);
    forall i | 0 <= i < |ops|
      ensures exists p <- proposals :: p.path == ops[i].path && p.desired == ops[i].after
      ensures DirAt(t, q) ==> !(ops[i].path <= q)
    {
      assert ops[i] in cs.operations;
      var p := BuiltComesFromProposals(t, proposals, commands, ops[i]);
      OwnedAsProposed(t, p);
      assert p.path in t ==> t[p.path].File?;
      if DirAt(t, q) && p.path <= q && p.path != q { AncestorIsDir(t, p.path, q); }
    }
    forall p <- proposals | p.desired.Some? && q < p.path ensures DirAt(now, q) {
      ProposedAt(t, proposals, commands, p);
      AncestorIsDir(now, q, p.path);
    }
  }

  /** Creating a file and deleting it again gives back the tree if and only if its directory was there already. */
  lemma CreatedThenDeletedIff(t: Tree, create: ChangeOperation, delete: ChangeOperation)
    requires Closed(t) && create.path != [] && create.path !in t && create.after.Some?
    requires delete.path == create.path && delete.after.None?
    ensures Installed(Installed(t, [create]), [delete]) == t <==> Parent(create.path) in t
  {
    hide PutOperation, WithDirs;
    InstalledOne(t, create);
    InstalledOne(PutOperation(t, create), delete);
    PutThenCut(t, create, delete);
    var up := Parent(create.path);
    if up in t { WithDirsOfPresent(t, up); } else { MissingIsMade(t, up); }
  }

  lemma InstalledOne(t: Tree, op: ChangeOperation)
    ensures Installed(t, [op]) == PutOperation(t, op)
  {
    hide PutOperation;
    assert [op][..0] == [];
  }

  lemma PutThenCut(t: Tree, create: ChangeOperation, delete: ChangeOperation)
    requires Closed(t) && create.path != [] && create.path !in t && create.after.Some?
    requires delete.path == create.path && delete.after.None?
    ensures PutOperation(PutOperation(t, create), delete) == WithDirs(t, Parent(create.path))
  {
    var p := create.path;
    WithoutAbsent(t, p);
    NothingUnderAFile(t, p);
    PrefixesAre(Parent(p));
    assert forall q :: q in WithDirs(t, Parent(p)) ==> !(p <= q);
    assert Below(PutOperation(t, create), p) == {p};
  }

  lemma MissingIsMade(t: Tree, d: Path)
    requires d !in t
    ensures d in WithDirs(t, d) && WithDirs(t, d) != t
  {
    PrefixesAre(d);
  }

  lemma OwnedAsProposed(t: Tree, p: ChangeProposal)
    requires BuildOperation(t, p).Ok? && p.ownership.Owned?
    ensures BuildOperation(t, p).value.path == p.path && BuildOperation(t, p).value.after == p.desired
  {
  }

  // --- The concurrency check ---

  /** The two states of a path that the writer cannot tell apart: absent, and a file with this very text. */
  predicate Confused(a: Option<string>, b: Option<string>) {
    (a == None && b == Some(ABSENT_TEXT)) || (a == Some(ABSENT_TEXT) && b == None)
  }

  /** A path passes the check if and only if it is as it was when the operation was built, up to that confusion. */
  lemma CheckPassesIff(t: Tree, op: ChangeOperation)
    requires ValidOperation(op)
    ensures DigestNow(t, op.path) == Some(op.beforeDigest) <==>
      && (op.path in t ==> t[op.path].File?)
      && ReadFile(t, op.path).Ok?
      && (ReadFile(t, op.path).value == op.before || Confused(ReadFile(t, op.path).value, op.before))
  {
  }

  lemma {:induction false} VerifiedIs(t: Tree, ops: seq<ChangeOperation>)
    ensures Verified(t, ops).None? <==> forall i :: 0 <= i < |ops| ==>
      DigestNow(t, ops[i].path) == Some(ops[i].beforeDigest)
  {
    if ops != [] {
      var front := ops[..|ops| - 1];
      VerifiedIs(t, front);
      assert forall i :: 0 <= i < |front| ==> front[i] == ops[i];
    }
  }

  // What the check finds at p.
  predicate Reads(t: Tree, p: Path, digest: Digest) {
    || (p !in t && digest == Sha256("<absent>"))
    || (p in t && t[p].Dir? && digest == NotAFile)
    || (p in t && t[p].File? && t[p].content.Text? && digest == Sha256(t[p].content.text))
  }

  /** The outcome of the check, whatever it is: the first path that cannot be read; or else all paths that are not as
      they were, in order; or else nothing. */
  lemma CheckIs(t: Tree, ops: seq<ChangeOperation>)
    ensures var found := Verified(t, ops);
      if found.None? then forall i :: 0 <= i < |ops| ==> Reads(t, ops[i].path, ops[i].beforeDigest)
      else if found.value.CannotVerify? then
        exists k :: && 0 <= k < |ops| && ops[k].path == found.value.path && !Legible(t, ops[k].path)
                    && forall i :: 0 <= i < k ==> Legible(t, ops[i].path)
      else
        && found.value.ConcurrentChange? && found.value.paths != [] && ChangedPaths(t, ops, found.value.paths)
        && forall i :: 0 <= i < |ops| ==> Legible(t, ops[i].path)
  {
    IllegibleIs(t, ops);
    ConflictsAre(t, ops);
    hide DigestNow, Conflicts, FirstUnreadable, ChangedPaths, Legible;
    VerifiedIs(t, ops);
    forall i | 0 <= i < |ops|
      ensures DigestNow(t, ops[i].path) == Some(ops[i].beforeDigest) <==> Reads(t, ops[i].path, ops[i].beforeDigest)
    {
      DigestReads(t, ops[i].path, ops[i].beforeDigest);
    }
  }

  predicate Legible(t: Tree, p: Path) { p in t && t[p].File? ==> t[p].content.Text? }

  lemma DigestReads(t: Tree, p: Path, digest: Digest)
    ensures DigestNow(t, p) == Some(digest) <==> Reads(t, p, digest)
    ensures DigestNow(t, p).Some? <==> Legible(t, p)
  {
  }

  // One path for each operation whose path is not as it was.
  ghost predicate ChangedPaths(t: Tree, ops: seq<ChangeOperation>, paths: seq<Path>) {
    if ops == [] then paths == []
    else
      var front, last := ops[..|ops| - 1], ops[|ops| - 1];
      if Reads(t, last.path, last.beforeDigest) then ChangedPaths(t, front, paths)
      else paths != [] && paths[|paths| - 1] == last.path && ChangedPaths(t, front, paths[..|paths| - 1])
  }

  lemma {:induction false} ConflictsAre(t: Tree, ops: seq<ChangeOperation>)
    ensures ChangedPaths(t, ops, Conflicts(t, ops))
  {
    hide DigestNow, Reads;
    if ops != [] {
      var front, last := ops[..|ops| - 1], ops[|ops| - 1];
      ConflictsAre(t, front);
      DigestReads(t, last.path, last.beforeDigest);
      assert Conflicts(t, front) + [] == Conflicts(t, front);
      var all := Conflicts(t, front) + [last.path];
      assert all[..|all| - 1] == Conflicts(t, front);
    }
  }

  lemma {:induction false} IllegibleIs(t: Tree, ops: seq<ChangeOperation>)
    ensures match FirstUnreadable(t, ops)
      case Some(p) =>
        exists k :: && 0 <= k < |ops| && ops[k].path == p && !Legible(t, p)
                    && forall i :: 0 <= i < k ==> Legible(t, ops[i].path)
      case None => forall i :: 0 <= i < |ops| ==> Legible(t, ops[i].path)
  {
    hide DigestNow, Legible;
    if ops != [] {
      var front, last := ops[..|ops| - 1], ops[|ops| - 1];
      IllegibleIs(t, front);
      DigestReads(t, last.path, NotAFile);
      assert forall i :: 0 <= i < |front| ==> front[i] == ops[i];
    }
  }

  /** Any change to a listed path since the build is noticed, except between absent and the text "<absent>". */
  lemma ChangesAreNoticed(t: Tree, cs: ChangeSet, op: ChangeOperation)
    requires ValidChangeSet(cs) && op in cs.operations
    requires ReadFile(t, op.path) != Ok(op.before)
    requires ReadFile(t, op.path).Ok? ==> !Confused(ReadFile(t, op.path).value, op.before)
    ensures Verified(t, cs.operations).Some?
  {
    VerifiedIs(t, cs.operations);
    CheckPassesIff(t, op);
    var i :| 0 <= i < |cs.operations| && cs.operations[i] == op;
  }

  lemma BuildSingle(t: Tree, p: ChangeProposal)
    requires BuildOperation(t, p).Ok?
    ensures BuildEach(t, [p]) == Ok([BuildOperation(t, p).value])
  {
    var ps, none: seq<ChangeOperation> := [p], [];
    assert ps[..|ps| - 1] == [];
    assert BuildEach(t, ps[..|ps| - 1]) == Ok(none);
    assert none + [BuildOperation(t, p).value] == [BuildOperation(t, p).value];
  }

  /** The confusion is real: a file with the text "<absent>" that appeared since the build goes unnoticed. */
  lemma AppearanceGoesUnnoticed()
    ensures var empty, now: Tree, p := map[[] := Dir], map[[] := Dir, ["a"] := File(Text(ABSENT_TEXT))], ["a"];
      var built := Built(empty, [ChangeProposal(p, Some("new"), Owned, "")], []);
      built.Ok? && Verified(now, built.value.operations).None? && FileAt(now, p) != FileAt(empty, p)
  {
    var empty, now: Tree, p := map[[] := Dir], map[[] := Dir, ["a"] := File(Text(ABSENT_TEXT))], ["a"];
    var proposals := [ChangeProposal(p, Some("new"), Owned, "")];
    assert Sort(proposals[1..], ByKey(ProposalKey)) == [];
    assert Sort(proposals, ByKey(ProposalKey)) == proposals;
    var op := BuildOperation(empty, proposals[0]).value;
    BuildSingle(empty, proposals[0]);
    VerifiedIs(now, [op]);
  }

  // --- Build, apply, build again ---

  function Wanted(t: Tree, proposal: ChangeProposal): Option<string>
    requires ReadFile(t, proposal.path).Ok?
  {
    if proposal.ownership.Observed? then ReadFile(t, proposal.path).value else proposal.desired
  }

  /** After building and applying, every proposed path reads as wanted, and every other file is untouched. */
  lemma BuiltThenApplied(t: Tree, proposals: seq<ChangeProposal>, commands: seq<Command>, proposal: ChangeProposal)
    requires Closed(t) && forall p <- proposals :: SafePath(p.path)
    requires Built(t, proposals, commands).Ok?
    requires Verified(t, Built(t, proposals, commands).value.operations).None?
    requires proposal in proposals
    ensures ReadFile(t, proposal.path).Ok?
    ensures var t' := Installed(t, Mutable(Built(t, proposals, commands).value.operations));
      FileAt(t', proposal.path) == AsContent(Wanted(t, proposal))
  {
    var cs := Built(t, proposals, commands).value;
    var ops := Mutable(cs.operations);
    BuiltIsValid(t, proposals, commands);
    BuiltCoversProposals(t, proposals, commands, proposal);
    var op := BuildOperation(t, proposal).value;
    ValidIsTopdown(cs);
    MutableIsTopdown(cs.operations);
    MutableIs(cs.operations);
    InstalledAt(t, ops, op.path);
    if op in ops {
      var i :| 0 <= i < |ops| && ops[i] == op;
    } else {
      assert op.after == op.before;
      UnchangedStays(t, cs, op);
    }
  }

  // An unchanged path keeps what it holds: no changed path is above a file.
  lemma UnchangedStays(t: Tree, cs: ChangeSet, op: ChangeOperation)
    requires Closed(t) && ValidChangeSet(cs) && Verified(t, cs.operations).None?
    requires op in cs.operations && op.kind.Unchanged?
    requires ReadFile(t, op.path) == Ok(op.before)
    ensures FileAt(Installed(t, Mutable(cs.operations)), op.path) == AsContent(op.before)
  {
    hide Installed, Mutable, Posix, KindOf, Verified;
    var ops := Mutable(cs.operations);
    ValidIsTopdown(cs);
    MutableIsTopdown(cs.operations);
    MutableIs(cs.operations);
    VerifiedIs(t, cs.operations);
    InstalledAt(t, ops, op.path);
    forall i | 0 <= i < |ops| ensures ops[i].path != op.path {
      DistinctOperations(cs, ops[i], op);
    }
    if i :| 0 <= i < |ops| && ops[i].path < op.path {
      assert ops[i] in cs.operations;
      var k :| 0 <= k < |cs.operations| && cs.operations[k] == ops[i];
      assert DigestNow(t, ops[i].path) == Some(ops[i].beforeDigest);
      if op.path in t { AncestorIsDir(t, ops[i].path, op.path); }
    }
  }

  lemma DistinctOperations(cs: ChangeSet, a: ChangeOperation, b: ChangeOperation)
    requires ValidChangeSet(cs) && a in cs.operations && b in cs.operations && a != b
    ensures a.path != b.path
  {
    var i :| 0 <= i < |cs.operations| && cs.operations[i] == a;
    var k :| 0 <= k < |cs.operations| && cs.operations[k] == b;
    assert Paths(cs.operations)[i] == a.path && Paths(cs.operations)[k] == b.path;
  }

  /** No file outside the proposed paths (and below them) changes. */
  lemma OthersAreUntouched(t: Tree, proposals: seq<ChangeProposal>, commands: seq<Command>, q: Path)
    requires forall p <- proposals :: SafePath(p.path)
    requires Built(t, proposals, commands).Ok?
    requires forall p <- proposals :: !(p.path <= q)
    ensures FileAt(Installed(t, Mutable(Built(t, proposals, commands).value.operations)), q) == FileAt(t, q)
  {
    var cs := Built(t, proposals, commands).value;
    var ops := Mutable(cs.operations);
    BuiltIsValid(t, proposals, commands);
    ValidIsTopdown(cs);
    MutableIsTopdown(cs.operations);
    MutableIs(cs.operations);
    InstalledAt(t, ops, q);
    forall i | 0 <= i < |ops| ensures !(ops[i].path <= q) {
      assert ops[i] in cs.operations;
      var p := BuiltComesFromProposals(t, proposals, commands, ops[i]);
    }
  }

  /** Building again from the same proposals succeeds, and finds nothing left to do. */
  lemma RebuiltIsUnchanged(t: Tree, proposals: seq<ChangeProposal>, commands: seq<Command>)
    requires Closed(t) && forall p <- proposals :: SafePath(p.path)
    requires Built(t, proposals, commands).Ok?
    requires Verified(t, Built(t, proposals, commands).value.operations).None?
    ensures var again :=
      Built(Installed(t, Mutable(Built(t, proposals, commands).value.operations)), proposals, commands);
      && again.Ok? && Mutable(again.value.operations) == []
      && forall op <- again.value.operations :: op.kind.Unchanged?
  {
    hide Installed, Mutable, Verified, Posix, Built, BuildOperation, SafePath;
    var t' := Installed(t, Mutable(Built(t, proposals, commands).value.operations));
    forall p <- proposals ensures BuildOperation(t', p).Ok? && BuildOperation(t', p).value.kind.Unchanged? {
      RebuiltAt(t, t', proposals, commands, p);
    }
    BuiltOkIff(t, proposals, commands);
    BuiltOkIff(t', proposals, commands);
    var ops := Built(t', proposals, commands).value.operations;
    forall op <- ops ensures op.kind.Unchanged? {
      var p := BuiltComesFromProposals(t', proposals, commands, op);
    }
    NothingMutable(ops);
  }

  lemma RebuiltAt(t: Tree, t': Tree, proposals: seq<ChangeProposal>, commands: seq<Command>, proposal: ChangeProposal)
    requires Closed(t) && forall p <- proposals :: SafePath(p.path)
    requires Built(t, proposals, commands).Ok?
    requires Verified(t, Built(t, proposals, commands).value.operations).None?
    requires t' == Installed(t, Mutable(Built(t, proposals, commands).value.operations))
    requires proposal in proposals
    ensures BuildOperation(t', proposal).Ok? && BuildOperation(t', proposal).value.kind.Unchanged?
  {
    hide Installed, Mutable, Verified, Posix;
    BuiltThenApplied(t, proposals, commands, proposal);
    BuiltCoversProposals(t, proposals, commands, proposal);
    assert ReadFile(t', proposal.path) == Ok(Wanted(t, proposal));
  }

  lemma {:induction false} NothingMutable(ops: seq<ChangeOperation>)
    requires forall op <- ops :: op.kind.Unchanged?
    ensures Mutable(ops) == []
  {
    if ops != [] { NothingMutable(ops[1..]); }
  }

  /** On the tree it was built from, a ChangeSet passes its check unless a proposed path is a directory. */
  lemma FreshlyBuiltPassesIff(t: Tree, proposals: seq<ChangeProposal>, commands: seq<Command>)
    requires forall p <- proposals :: SafePath(p.path)
    requires Built(t, proposals, commands).Ok?
    ensures Verified(t, Built(t, proposals, commands).value.operations).None? <==>
      forall p <- proposals :: p.path in t ==> t[p.path].File?
  {
    var ops := Built(t, proposals, commands).value.operations;
    BuiltIsValid(t, proposals, commands);
    VerifiedIs(t, ops);
    forall i | 0 <= i < |ops| ensures DigestNow(t, ops[i].path) == Some(ops[i].beforeDigest) <==>
      (ops[i].path in t ==> t[ops[i].path].File?)
    {
      assert ops[i] in ops;
      var p := BuiltComesFromProposals(t, proposals, commands, ops[i]);
      CheckPassesIff(t, ops[i]);
    }
    forall p <- proposals ensures exists i :: 0 <= i < |ops| && ops[i].path == p.path {
      BuiltCoversProposals(t, proposals, commands, p);
      var i :| 0 <= i < |ops| && ops[i] == BuildOperation(t, p).value;
    }
    forall i | 0 <= i < |ops| ensures exists p <- proposals :: ops[i].path == p.path {
      assert ops[i] in ops;
      var p := BuiltComesFromProposals(t, proposals, commands, ops[i]);
    }
  }

  // --- Building and applying owned files, path by path ---

  /** Owned proposals, built and applied: each proposed path holds what was proposed. */
  lemma ProposedAt(t: Tree, proposals: seq<ChangeProposal>, commands: seq<Command>, p: ChangeProposal)
    requires Closed(t) && forall p <- proposals :: SafePath(p.path)
    requires Built(t, proposals, commands).Ok? && Verified(t, Built(t, proposals, commands).value.operations).None?
    requires p in proposals && p.ownership.Owned?
    ensures FileAt(Installed(t, Mutable(Built(t, proposals, commands).value.operations)), p.path) ==
      AsContent(p.desired)
  {
    hide Installed, Mutable, Verified, SafePath, Posix, Built;
    BuiltThenApplied(t, proposals, commands, p);
  }

  /** And every other path holds what it held. */
  lemma UnproposedAt(t: Tree, proposals: seq<ChangeProposal>, commands: seq<Command>, q: Path)
    requires Closed(t) && forall p <- proposals :: SafePath(p.path)
    requires Built(t, proposals, commands).Ok? && Verified(t, Built(t, proposals, commands).value.operations).None?
    requires forall p <- proposals :: p.path != q
    ensures FileAt(Installed(t, Mutable(Built(t, proposals, commands).value.operations)), q) == FileAt(t, q)
  {
    hide Installed, Mutable, Verified, SafePath, Posix, Built, BuildOperation;
    if p :| p in proposals && p.path <= q {
      NothingBelowProposal(t, proposals, commands, p, q);
    } else {
      OthersAreUntouched(t, proposals, commands, q);
    }
  }

  // Below a proposed path there are no files, before or after.
  lemma NothingBelowProposal(t: Tree, proposals: seq<ChangeProposal>, commands: seq<Command>, p: ChangeProposal,
                             q: Path)
    requires Closed(t) && (forall p <- proposals :: SafePath(p.path)) && p in proposals && p.path < q
    requires forall p <- proposals :: p.path != q
    requires Built(t, proposals, commands).Ok? && Verified(t, Built(t, proposals, commands).value.operations).None?
    ensures FileAt(t, q) == None
    ensures FileAt(Installed(t, Mutable(Built(t, proposals, commands).value.operations)), q) == None
  {
    hide Installed, Mutable, Verified, SafePath, Posix, Built, BuildOperation, ValidOperation;
    var cs := Built(t, proposals, commands).value;
    FreshlyBuiltPassesIff(t, proposals, commands);
    if q in t { AncestorIsDir(t, p.path, q); }
    BuiltIsValid(t, proposals, commands);
    ValidIsTopdown(cs);
    MutableIsTopdown(cs.operations);
    MutableIs(cs.operations);
    InstalledAt(t, Mutable(cs.operations), q);
    forall i | 0 <= i < |Mutable(cs.operations)| ensures Mutable(cs.operations)[i].path != q {
      var r := BuiltComesFromProposals(t, proposals, commands, Mutable(cs.operations)[i]);
      PathOfBuilt(t, r);
    }
  }

  lemma PathOfBuilt(t: Tree, p: ChangeProposal)
    requires BuildOperation(t, p).Ok?
    ensures BuildOperation(t, p).value.path == p.path
  {
  }
}
