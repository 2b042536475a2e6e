/** Reviewed file changes: what src/vibe/materialize/changeset.py computes from a tree. */
module ChangeSets {
  import opened Wrappers
  import opened Ordering
  import opened Trees

  /** SHA-256 as a collision-free function: a digest is named by the text it was taken of. */
  datatype Digest = Sha256(text: string) | NotAFile

  // The digest of an absent file is the digest of this very text.
  const ABSENT_TEXT := "<absent>"

  datatype Ownership = Owned | Managed | Observed

  datatype ChangeKind = Create | Update | Delete | Unchanged

  datatype ChangeProposal = ChangeProposal(path: Path, desired: Option<string>, ownership: Ownership, note: string)

  datatype ChangeOperation = ChangeOperation(
    path: Path, kind: ChangeKind, ownership: Ownership,
    before: Option<string>, after: Option<string>,
    beforeDigest: Digest, afterDigest: Digest, note: string)

  type Command = seq<string>

  datatype ChangeSet = ChangeSet(operations: seq<ChangeOperation>, commands: seq<Command>)

  datatype BuildError = DuplicatePath(path: Path) | Unreadable(path: Path) | OwnershipViolation(path: Path)

  // What the validators of the source's models enforce.

  predicate SafePath(p: Path) {
    && p != []
    && forall part <- p :: part != "" && part != "." && part != ".." && '/' !in part && '\\' !in part
  }

  predicate ValidOperation(op: ChangeOperation) {
    && SafePath(op.path)
    && op.beforeDigest == ContentDigest(op.before)
    && op.afterDigest == ContentDigest(op.after)
    && op.kind == KindOf(op.before, op.after)
    && (op.ownership.Observed? ==> op.kind.Unchanged?)
  }

  ghost predicate ValidChangeSet(cs: ChangeSet) {
    && (forall op <- cs.operations :: ValidOperation(op))
    && Sorted(cs.operations, ByKey(OperationKey))
    && Unique(Paths(cs.operations))
  }

  function Posix(p: Path): string {
    if p == [] then ""
    else if |p| == 1 then p[0]
    else Posix(Parent(p)) + "/" + p[|p| - 1]
  }

  // One more character in front.
  function InFront(c: char, parts: Path): Path
    requires parts != []
  {
    if c == '/' then [""] + parts else [[c] + parts[0]] + parts[1..]
  }

  lemma SplitStep(s: string)
    requires s != ""
    ensures Split(s) == InFront(s[0], Split(s[1..]))
  {
  }

  lemma InFrontOfConcat(c: char, x: Path, y: Path)
    requires x != []
    ensures InFront(c, x + y) == InFront(c, x) + y
  {
    assert (x + y)[1..] == x[1..] + y;
  }

  lemma {:induction false} SplitAtSlash(a: string, b: string)
    ensures Split(a + "/" + b) == Split(a) + Split(b)
  {
    hide InFront;
    var whole := a + "/" + b;
    if a == "" {
      assert whole == "/" + b && whole[1..] == b && whole[0] == '/';
      assert Split("") == [""];
    } else {
      assert whole[1..] == a[1..] + "/" + b && whole[0] == a[0];
      SplitAtSlash(a[1..], b);
      SplitStep(a);
      SplitStep(whole);
      InFrontOfConcat(a[0], Split(a[1..]), Split(b));
    }
  }

  /** Splitting the posix form of a path gives the path back. */
  lemma {:induction false} SplitOfPosix(p: Path)
    requires p != [] && forall part <- p :: '/' !in part
    ensures Split(Posix(p)) == p
  {
    assert p[|p| - 1] in p;
    NoSlash(p[|p| - 1]);
    if |p| > 1 {
      assert forall part <- Parent(p) :: part in p;
      SplitOfPosix(Parent(p));
      SplitAtSlash(Posix(Parent(p)), p[|p| - 1]);
      assert p == Parent(p) + [p[|p| - 1]];
    } else {
      assert p == [p[0]];
    }
  }

  function PathKey(p: Path): string { Posix(p) }

  function ProposalKey(p: ChangeProposal): string { PathKey(p.path) }

  function OperationKey(op: ChangeOperation): string { PathKey(op.path) }

  function Paths(ops: seq<ChangeOperation>): seq<Path> {
    seq(|ops|, i requires 0 <= i < |ops| => ops[i].path)
  }

  function ContentDigest(content: Option<string>): Digest {
    match content
    case None => Sha256(ABSENT_TEXT)
    case Some(text) => Sha256(text)
  }

  function KindOf(before: Option<string>, after: Option<string>): ChangeKind {
    match (before, after)
    case (None, Some(_)) => Create
    case (Some(_), None) => Delete
    case _ => if before != after then Update else Unchanged
  }

  // The text of a regular file; None for anything that is not a file.
  function ReadFile(t: Tree, p: Path): Result<Option<string>, BuildError> {
    if p !in t || t[p].Dir? then Ok(None)
    else match t[p].content
      case Text(text) => Ok(Some(text))
      case Undecodable(_) => Err(Unreadable(p))
  }

  function BuildOperation(t: Tree, proposal: ChangeProposal): Result<ChangeOperation, BuildError> {
    match ReadFile(t, proposal.path)
    case Err(e) => Err(e)
    case Ok(before) =>
      if proposal.ownership.Managed? && before.Some? && proposal.desired.None? then
        Err(OwnershipViolation(proposal.path))
      else
        var after := if proposal.ownership.Observed? then before else proposal.desired;
        Ok(ChangeOperation(proposal.path, KindOf(before, after), proposal.ownership, before, after,
                           ContentDigest(before), ContentDigest(after), proposal.note))
  }

  // --- The whole ChangeSet ---

  function FirstDuplicate(proposals: seq<ChangeProposal>, n: nat): Option<Path>
    requires n <= |proposals|
  {
    if n == 0 then None
    else if FirstDuplicate(proposals, n - 1).Some? then FirstDuplicate(proposals, n - 1)
    else if exists i :: 0 <= i < n - 1 && proposals[i].path == proposals[n - 1].path then
      Some(proposals[n - 1].path)
    else None
  }

  function BuildEach(t: Tree, proposals: seq<ChangeProposal>): Result<seq<ChangeOperation>, BuildError> {
    if proposals == [] then Ok([])
    else match BuildEach(t, proposals[..|proposals| - 1])
      case Err(e) => Err(e)
      case Ok(ops) =>
        match BuildOperation(t, proposals[|proposals| - 1])
        case Err(e) => Err(e)
        case Ok(op) => Ok(ops + [op])
  }

  /** The ChangeSet of a tree and its proposals, as a function. */
  function Built(t: Tree, proposals: seq<ChangeProposal>, commands: seq<Command>): Result<ChangeSet, BuildError> {
    match FirstDuplicate(proposals, |proposals|)
    case Some(p) => Err(DuplicatePath(p))
    case None =>
      match BuildEach(t, Sort(proposals, ByKey(ProposalKey)))
      case Err(e) => Err(e)
      case Ok(ops) => Ok(ChangeSet(ops, commands))
  }

  function ProposalPaths(proposals: seq<ChangeProposal>): seq<Path> {
    seq(|proposals|, i requires 0 <= i < |proposals| => proposals[i].path)
  }

  // The dictionary the proposals are filed in, and its keys in insertion order.
  method FileProposals(proposals: seq<ChangeProposal>)
    returns (duplicate: Option<Path>, byPath: map<Path, ChangeProposal>, keys: seq<Path>)
    ensures duplicate == FirstDuplicate(proposals, |proposals|)
    ensures duplicate.None? ==> keys == ProposalPaths(proposals)
    ensures duplicate.None? ==>
      forall i :: 0 <= i < |proposals| ==> proposals[i].path in byPath && byPath[proposals[i].path] == proposals[i]
  {
    byPath, keys := map[], [];
    for n := 0 to |proposals|
      invariant FirstDuplicate(proposals, n).None?
      invariant |keys| == n && forall i :: 0 <= i < n ==> keys[i] == proposals[i].path
      invariant forall p :: p in byPath <==> exists i :: 0 <= i < n && proposals[i].path == p
      invariant forall i :: 0 <= i < n ==> byPath[proposals[i].path] == proposals[i]
    {
      var proposal := proposals[n];
      if proposal.path in byPath {
        DuplicateIsFinal(proposals, n + 1);
        return Some(proposal.path), byPath, keys;
      }
      byPath := byPath[proposal.path := proposal];
      keys := keys + [proposal.path];
    }
    duplicate := None;
  }

  method BuildOperations(t: Tree, order: seq<Path>, byPath: map<Path, ChangeProposal>,
                         ghost sorted: seq<ChangeProposal>)
    returns (r: Result<seq<ChangeOperation>, BuildError>)
    requires order == ProposalPaths(sorted)
    requires forall i :: 0 <= i < |sorted| ==> sorted[i].path in byPath && byPath[sorted[i].path] == sorted[i]
    ensures r == BuildEach(t, sorted)
  {
    var operations: seq<ChangeOperation> := [];
    for n := 0 to |order|
      invariant BuildEach(t, sorted[..n]) == Ok(operations)
    {
      assert order[n] == sorted[n].path;
      assert sorted[..n + 1][..n] == sorted[..n];
      var built := BuildOperation(t, byPath[order[n]]);
      if built.Err? {
        ErrorIsFinal(t, sorted, n + 1);
        return Err(built.error);
      }
      operations := operations + [built.value];
    }
    assert sorted[..|order|] == sorted;
    return Ok(operations);
  }

  method BuildChangeset(t: Tree, proposals: seq<ChangeProposal>, commands: seq<Command>)
    returns (r: Result<ChangeSet, BuildError>)
    ensures r == Built(t, proposals, commands)
  {
    var duplicate, byPath, keys := FileProposals(proposals);
    if duplicate.Some? { return Err(DuplicatePath(duplicate.value)); }
    ghost var sorted := Sort(proposals, ByKey(ProposalKey));
    SortCommutes(proposals);
    forall i | 0 <= i < |sorted| ensures sorted[i].path in byPath && byPath[sorted[i].path] == sorted[i] {
      SortPermutes(proposals, ByKey(ProposalKey));
      assert sorted[i] in proposals;
    }
    var operations := BuildOperations(t, Sort(keys, ByKey(PathKey)), byPath, sorted);
    match operations
    case Err(e) => r := Err(e);
    case Ok(ops) => r := Ok(ChangeSet(ops, commands));
  }

  lemma {:induction false} DuplicateIsFinal(proposals: seq<ChangeProposal>, n: nat)
    requires n <= |proposals| && FirstDuplicate(proposals, n).Some?
    ensures FirstDuplicate(proposals, |proposals|) == FirstDuplicate(proposals, n)
    decreases |proposals| - n
  {
    if n < |proposals| { DuplicateIsFinal(proposals, n + 1); }
  }

  lemma {:induction false} ErrorIsFinal(t: Tree, proposals: seq<ChangeProposal>, n: nat)
    requires n <= |proposals| && BuildEach(t, proposals[..n]).Err?
    ensures BuildEach(t, proposals) == BuildEach(t, proposals[..n])
    decreases |proposals| - n
  {
    if n < |proposals| {
      assert proposals[..n + 1][..n] == proposals[..n];
      ErrorIsFinal(t, proposals, n + 1);
    } else {
      assert proposals[..n] == proposals;
    }
  }

  lemma {:induction false} InsertCommutes(p: ChangeProposal, xs: seq<ChangeProposal>)
    ensures Insert(p.path, ProposalPaths(xs), ByKey(PathKey)) == ProposalPaths(Insert(p, xs, ByKey(ProposalKey)))
  {
    if xs != [] {
      assert ProposalPaths(xs)[1..] == ProposalPaths(xs[1..]);
      assert ProposalPaths(xs)[0] == xs[0].path;
      InsertCommutes(p, xs[1..]);
      var tail := Insert(p, xs[1..], ByKey(ProposalKey));
      ByKeyIs(PathKey, p.path, xs[0].path);
      ByKeyIs(ProposalKey, p, xs[0]);
      assert ProposalPaths([p] + xs) == [p.path] + ProposalPaths(xs);
      assert ProposalPaths([xs[0]] + tail) == [xs[0].path] + ProposalPaths(tail);
    }
  }

  /** Sorting the paths and looking each one up is sorting the proposals by path. */
  lemma {:induction false} SortCommutes(xs: seq<ChangeProposal>)
    ensures Sort(ProposalPaths(xs), ByKey(PathKey)) == ProposalPaths(Sort(xs, ByKey(ProposalKey)))
  {
    if xs != [] {
      assert ProposalPaths(xs)[1..] == ProposalPaths(xs[1..]);
      SortCommutes(xs[1..]);
      InsertCommutes(xs[0], Sort(xs[1..], ByKey(ProposalKey)));
    }
  }

  lemma {:induction false} BuildEachIs(t: Tree, proposals: seq<ChangeProposal>)
    requires BuildEach(t, proposals).Ok?
    ensures |BuildEach(t, proposals).value| == |proposals|
    ensures forall i :: 0 <= i < |proposals| ==> BuildOperation(t, proposals[i]) == Ok(BuildEach(t, proposals).value[i])
  {
    if proposals != [] { BuildEachIs(t, proposals[..|proposals| - 1]); }
  }

  /** A build succeeds exactly when no path is proposed twice and every proposal can be built. */
  lemma BuiltOkIff(t: Tree, proposals: seq<ChangeProposal>, commands: seq<Command>)
    ensures Built(t, proposals, commands).Ok? <==>
      (&& (forall i, j :: 0 <= i < j < |proposals| ==> proposals[i].path != proposals[j].path)
       && forall p <- proposals :: BuildOperation(t, p).Ok?)
  {
    SortPermutes(proposals, ByKey(ProposalKey));
    BuildEachOkIff(t, Sort(proposals, ByKey(ProposalKey)));
    if FirstDuplicate(proposals, |proposals|).None? { NoDuplicateMeansUnique(proposals, |proposals|); }
    if forall i, j :: 0 <= i < j < |proposals| ==> proposals[i].path != proposals[j].path {
      UniqueMeansNoDuplicate(proposals, |proposals|);
    }
  }

  /** What it fails with: the first path that comes for the second time, or else what is wrong with the first proposal
      in the order of paths that cannot be built. */
  lemma BuiltFailsWith(t: Tree, proposals: seq<ChangeProposal>, commands: seq<Command>) returns (k: nat)
    requires Built(t, proposals, commands).Err?
    ensures var e, sorted := Built(t, proposals, commands).error, Sort(proposals, ByKey(ProposalKey));
      if exists i, j :: 0 <= i < j < |proposals| && proposals[i].path == proposals[j].path then
        && k < |proposals| && e == DuplicatePath(proposals[k].path)
        && (exists i :: 0 <= i < k && proposals[i].path == proposals[k].path)
        && forall i, j :: 0 <= i < j < k ==> proposals[i].path != proposals[j].path
      else
        && k < |sorted| && BuildOperation(t, sorted[k]) == Err(e)
        && forall j :: 0 <= j < k ==> BuildOperation(t, sorted[j]).Ok?
  {
    var sorted := Sort(proposals, ByKey(ProposalKey));
    hide BuildOperation;
    if FirstDuplicate(proposals, |proposals|).Some? {
      k := DuplicateAt(proposals, |proposals|);
    } else {
      NoDuplicateMeansUnique(proposals, |proposals|);
      k := FirstError(t, sorted);
    }
  }

  lemma {:induction false} DuplicateAt(proposals: seq<ChangeProposal>, n: nat) returns (k: nat)
    requires n <= |proposals| && FirstDuplicate(proposals, n).Some?
    ensures k < n && FirstDuplicate(proposals, n) == Some(proposals[k].path)
    ensures exists i :: 0 <= i < k && proposals[i].path == proposals[k].path
    ensures forall i, j :: 0 <= i < j < k ==> proposals[i].path != proposals[j].path
  {
    if FirstDuplicate(proposals, n - 1).Some? {
      k := DuplicateAt(proposals, n - 1);
    } else {
      k := n - 1;
      NoDuplicateMeansUnique(proposals, n - 1);
    }
  }

  lemma {:induction false} FirstError(t: Tree, proposals: seq<ChangeProposal>) returns (k: nat)
    requires BuildEach(t, proposals).Err?
    ensures k < |proposals| && BuildOperation(t, proposals[k]) == Err(BuildEach(t, proposals).error)
    ensures forall j :: 0 <= j < k ==> BuildOperation(t, proposals[j]).Ok?
  {
    hide BuildOperation;
    var front := proposals[..|proposals| - 1];
    if BuildEach(t, front).Err? {
      k := FirstError(t, front);
    } else {
      k := |proposals| - 1;
      BuildEachIs(t, front);
      assert forall j :: 0 <= j < k ==> front[j] == proposals[j];
    }
  }

  /** One proposal, field by field: what is there now, what is wanted, and which kind of change that is. It fails for a
      file that is no text, and for a managed file that would go. */
  lemma OperationIs(t: Tree, p: ChangeProposal)
    ensures var there := p.path in t && t[p.path].File?;
      if there && t[p.path].content.Undecodable? then BuildOperation(t, p) == Err(Unreadable(p.path))
      else if there && p.ownership == Managed && p.desired == None then
        BuildOperation(t, p) == Err(OwnershipViolation(p.path))
      else
        && BuildOperation(t, p).Ok?
        && var op := BuildOperation(t, p).value;
           && op.path == p.path && op.ownership == p.ownership && op.note == p.note
           && op.before == (if there then Some(t[p.path].content.text) else None)
           && op.after == (if p.ownership == Observed then op.before else p.desired)
           && op.beforeDigest == Sha256(if op.before.Some? then op.before.value else "<absent>")
           && op.afterDigest == Sha256(if op.after.Some? then op.after.value else "<absent>")
           && (op.kind == Create <==> op.before == None && op.after != None)
           && (op.kind == Delete <==> op.before != None && op.after == None)
           && (op.kind == Update <==> op.before != None && op.after != None && op.before != op.after)
  {
  }

  /** A path is safe if and only if its posix form is split into these very parts, none of them empty, "." or "..", and
      has no backslash. */
  lemma SafePathIff(p: Path)
    ensures SafePath(p) <==>
      (&& p != [] && Split(Posix(p)) == p
       && forall part <- p :: part !in {"", ".", ".."} && '\\' !in part)
  {
    if p != [] {
      if forall part <- p :: '/' !in part { SplitOfPosix(p); }
      SplitHasNoSlash(Posix(p));
    }
  }

  lemma {:induction false} SplitHasNoSlash(posix: string)
    ensures forall part <- Split(posix) :: '/' !in part
  {
    if posix != "" {
      SplitHasNoSlash(posix[1..]);
      var rest := Split(posix[1..]);
      assert rest[0] in rest && forall part <- rest[1..] :: part in rest;
    }
  }

  lemma {:induction false} BuildEachOkIff(t: Tree, proposals: seq<ChangeProposal>)
    ensures BuildEach(t, proposals).Ok? <==> forall p <- proposals :: BuildOperation(t, p).Ok?
  {
    if proposals != [] {
      var front := proposals[..|proposals| - 1];
      BuildEachOkIff(t, front);
      assert proposals == front + [proposals[|proposals| - 1]];
    }
  }

  lemma {:induction false} UniqueMeansNoDuplicate(proposals: seq<ChangeProposal>, n: nat)
    requires n <= |proposals| && forall i, j :: 0 <= i < j < n ==> proposals[i].path != proposals[j].path
    ensures FirstDuplicate(proposals, n).None?
  {
    if n > 0 { UniqueMeansNoDuplicate(proposals, n - 1); }
  }

  lemma {:induction false} NoDuplicateMeansUnique(proposals: seq<ChangeProposal>, n: nat)
    requires n <= |proposals| && FirstDuplicate(proposals, n).None?
    ensures forall i, j :: 0 <= i < j < n ==> proposals[i].path != proposals[j].path
  {
    if n > 0 { NoDuplicateMeansUnique(proposals, n - 1); }
  }

  lemma ProposalsUnique(proposals: seq<ChangeProposal>)
    requires FirstDuplicate(proposals, |proposals|).None?
    ensures var sorted := Sort(proposals, ByKey(ProposalKey)); Unique(ProposalPaths(sorted))
  {
    NoDuplicateMeansUnique(proposals, |proposals|);
    SortCommutes(proposals);
    SortPermutes(ProposalPaths(proposals), ByKey(PathKey));
    SortUnique(ProposalPaths(proposals), Sort(ProposalPaths(proposals), ByKey(PathKey)));
  }

  // The operations, in the order of the sorted proposals they were built from.
  lemma BuiltInOrder(t: Tree, proposals: seq<ChangeProposal>, commands: seq<Command>)
    requires Built(t, proposals, commands).Ok?
    ensures var cs, sorted := Built(t, proposals, commands).value, Sort(proposals, ByKey(ProposalKey));
      && cs.commands == commands && |cs.operations| == |sorted|
      && (forall i :: 0 <= i < |sorted| ==> BuildOperation(t, sorted[i]) == Ok(cs.operations[i]))
      && Paths(cs.operations) == ProposalPaths(sorted)
  {
    BuildEachIs(t, Sort(proposals, ByKey(ProposalKey)));
  }

  lemma BuiltIsSorted(t: Tree, proposals: seq<ChangeProposal>, commands: seq<Command>)
    requires Built(t, proposals, commands).Ok?
    ensures Sorted(Built(t, proposals, commands).value.operations, ByKey(OperationKey))
  {
    var ops, sorted := Built(t, proposals, commands).value.operations, Sort(proposals, ByKey(ProposalKey));
    BuiltInOrder(t, proposals, commands);
    ByKeyIsPreorder(ProposalKey);
    SortSorted(proposals, ByKey(ProposalKey));
    SortPermutes(proposals, ByKey(ProposalKey));
    forall i, j | 0 <= i < j < |ops| ensures ByKey(OperationKey)(ops[i], ops[j]) {
      assert ByKey(ProposalKey)(sorted[i], sorted[j]);
      assert Paths(ops)[i] == ProposalPaths(sorted)[i] && Paths(ops)[j] == ProposalPaths(sorted)[j];
      assert OperationKey(ops[i]) == ProposalKey(sorted[i]) && OperationKey(ops[j]) == ProposalKey(sorted[j]);
    }
  }

  /** A ChangeSet that was built passes its own validators. */
  lemma BuiltIsValid(t: Tree, proposals: seq<ChangeProposal>, commands: seq<Command>)
    requires forall p <- proposals :: SafePath(p.path)
    requires Built(t, proposals, commands).Ok?
    ensures ValidChangeSet(Built(t, proposals, commands).value)
  {
    var ops, sorted := Built(t, proposals, commands).value.operations, Sort(proposals, ByKey(ProposalKey));
    BuiltInOrder(t, proposals, commands);
    BuiltIsSorted(t, proposals, commands);
    ProposalsUnique(proposals);
    SortPermutes(proposals, ByKey(ProposalKey));
    forall i | 0 <= i < |ops| ensures ValidOperation(ops[i]) {
      assert sorted[i] in proposals;
      OwnershipIsRespected(t, sorted[i]);
    }
  }

  /** There is one operation per proposal, built from it alone. */
  lemma BuiltCoversProposals(t: Tree, proposals: seq<ChangeProposal>, commands: seq<Command>, proposal: ChangeProposal)
    requires Built(t, proposals, commands).Ok? && proposal in proposals
    ensures |Built(t, proposals, commands).value.operations| == |proposals|
    ensures BuildOperation(t, proposal).Ok?
    ensures BuildOperation(t, proposal).value in Built(t, proposals, commands).value.operations
  {
    var ops, sorted := Built(t, proposals, commands).value.operations, Sort(proposals, ByKey(ProposalKey));
    BuiltInOrder(t, proposals, commands);
    SortPermutes(proposals, ByKey(ProposalKey));
    var k :| 0 <= k < |sorted| && sorted[k] == proposal;
    assert BuildOperation(t, sorted[k]) == Ok(ops[k]);
  }

  /** And no operation comes from anywhere else. */
  lemma BuiltComesFromProposals(t: Tree, proposals: seq<ChangeProposal>, commands: seq<Command>, op: ChangeOperation)
    returns (proposal: ChangeProposal)
    requires Built(t, proposals, commands).Ok? && op in Built(t, proposals, commands).value.operations
    ensures proposal in proposals && BuildOperation(t, proposal) == Ok(op)
  {
    var ops, sorted := Built(t, proposals, commands).value.operations, Sort(proposals, ByKey(ProposalKey));
    BuiltInOrder(t, proposals, commands);
    SortPermutes(proposals, ByKey(ProposalKey));
    var k :| 0 <= k < |ops| && ops[k] == op;
    proposal := sorted[k];
  }

  /** A managed file that exists is never deleted, and an observed one never changes. */
  lemma OwnershipIsRespected(t: Tree, proposal: ChangeProposal)
    requires BuildOperation(t, proposal).Ok?
    ensures var op := BuildOperation(t, proposal).value;
      && (proposal.ownership.Managed? ==> !op.kind.Delete?)
      && (proposal.ownership.Observed? ==> op.kind.Unchanged? && op.after == op.before)
  {
  }
}
