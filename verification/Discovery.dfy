/** Candidates from several sources, one record for each identity. */
module Discovery {
  import opened Wrappers
  import opened Ordering

  datatype SourceTier = Official | VerifiedPublisher | Community | GeneralSearch

  datatype Candidate = Candidate(
    ref: string, name: string, digest: string, tier: SourceTier, repository: string, crossRef: string,
    stars: nat, forks: nat, adoption: nat, weekly: nat, official: bool)

  // --- Identity ---

  // rstrip("/")
  function WithoutSlashes(s: string): string {
    if s != "" && s[|s| - 1] == '/' then WithoutSlashes(s[..|s| - 1]) else s
  }

  /** casefold: any function of texts will do. */
  type Fold = string -> string

  /** A missing field is an empty one: neither identifies anything. */
  function Identity(fold: Fold, c: Candidate): Option<string> {
    if c.repository != "" then Some(fold(WithoutSlashes(c.repository)))
    else if c.crossRef != "" then Some(fold(c.crossRef))
    else if c.digest != "" then Some(fold(c.digest))
    else None
  }

  /** A candidate is identified by its repository without the slashes at its end, or else by its cross reference, or
      else by its digest, whatever their case. */
  lemma IdentityIs(fold: Fold, c: Candidate)
    ensures c.repository == "" && c.crossRef == "" && c.digest == "" ==> Identity(fold, c) == None
    ensures c.repository == "" && c.crossRef == "" && c.digest != "" ==> Identity(fold, c) == Some(fold(c.digest))
    ensures c.repository == "" && c.crossRef != "" ==> Identity(fold, c) == Some(fold(c.crossRef))
    ensures c.repository != "" ==>
      exists n :: && 0 <= n <= |c.repository| && Identity(fold, c) == Some(fold(c.repository[..n]))
                  && (n > 0 ==> c.repository[n - 1] != '/')
                  && forall i :: n <= i < |c.repository| ==> c.repository[i] == '/'
  {
    var n := SlashesGone(c.repository);
  }

  lemma {:induction false} SlashesGone(s: string) returns (n: nat)
    ensures n <= |s| && WithoutSlashes(s) == s[..n] && (n > 0 ==> s[n - 1] != '/')
    ensures forall i :: n <= i < |s| ==> s[i] == '/'
  {
    n := |s|;
    if s != "" && s[|s| - 1] == '/' {
      n := SlashesGone(s[..|s| - 1]);
      assert s[..|s| - 1][..n] == s[..n];
    } else {
      assert s[..n] == s;
    }
  }

  // --- Merging ---

  function Trust(t: SourceTier): nat {
    match t
    case Official => 4
    case VerifiedPublisher => 3
    case Community => 2
    case GeneralSearch => 1
  }

  function Max(a: nat, b: nat): nat { if a < b then b else a }

  function Or(a: string, b: string): string { if a != "" then a else b }

  function Merge(left: Candidate, right: Candidate): Candidate {
    var (primary, other) := if Trust(left.tier) >= Trust(right.tier) then (left, right) else (right, left);
    primary.(
      stars := Max(left.stars, right.stars), forks := Max(left.forks, right.forks),
      adoption := Max(left.adoption, right.adoption), weekly := Max(left.weekly, right.weekly),
      official := left.official || right.official,
      repository := Or(primary.repository, other.repository), crossRef := Or(primary.crossRef, other.crossRef))
  }

  /** Merging two candidates of one identity keeps it, whichever field it came from on either side. */
  lemma MergeKeepsIdentity(fold: Fold, left: Candidate, right: Candidate)
    requires Identity(fold, left).Some? && Identity(fold, left) == Identity(fold, right)
    ensures Identity(fold, Merge(left, right)) == Identity(fold, left)
  {
    hide WithoutSlashes;
  }

  // --- Deduplication ---

  function IndexOf(fold: Fold, values: seq<Candidate>, id: string): (i: nat)
    ensures i <= |values|
    ensures i < |values| ==> Identity(fold, values[i]) == Some(id)
    ensures forall j :: 0 <= j < i ==> Identity(fold, values[j]) != Some(id)
  {
    if values == [] then 0
    else if Identity(fold, values[0]) == Some(id) then 0
    else 1 + IndexOf(fold, values[1..], id)
  }

  // One more keyed candidate among the records so far.
  function Filed(fold: Fold, values: seq<Candidate>, c: Candidate): seq<Candidate> {
    if Identity(fold, c).None? then values
    else
      var i := IndexOf(fold, values, Identity(fold, c).value);
      if i < |values| then values[i := Merge(values[i], c)] else values + [c]
  }

  function Records(fold: Fold, candidates: seq<Candidate>): seq<Candidate> {
    if candidates == [] then []
      else Filed(fold, Records(fold, candidates[..|candidates| - 1]), candidates[|candidates| - 1])
  }

  function Keyed(fold: Fold, candidates: seq<Candidate>): seq<Candidate> {
    if candidates == [] then []
    else if Identity(fold, candidates[0]).Some? then [candidates[0]] + Keyed(fold, candidates[1..])
    else Keyed(fold, candidates[1..])
  }

  function Unkeyed(fold: Fold, candidates: seq<Candidate>): seq<Candidate> {
    if candidates == [] then []
    else if Identity(fold, candidates[0]).None? then [candidates[0]] + Unkeyed(fold, candidates[1..])
    else Unkeyed(fold, candidates[1..])
  }

  function RefOf(c: Candidate): string { c.ref }

  function Deduplicated(fold: Fold, candidates: seq<Candidate>): seq<Candidate> {
    Sort(Records(fold, candidates) + Unkeyed(fold, candidates), ByKey(RefOf))
  }

  // A dictionary remembers the order its keys came in.
  ghost predicate Holds(fold: Fold, order: seq<string>, byIdentity: map<string, Candidate>, values: seq<Candidate>) {
    && |order| == |values| && (forall id :: id in order <==> id in byIdentity)
    && forall i :: 0 <= i < |order| ==>
         order[i] in byIdentity && byIdentity[order[i]] == values[i] && Identity(fold, values[i]) == Some(order[i])
  }

  method Deduplicate(fold: Fold, candidates: seq<Candidate>) returns (r: seq<Candidate>)
    ensures r == Deduplicated(fold, candidates)
  {
    hide Identity, Merge;
    var order: seq<string>, byIdentity: map<string, Candidate>, unkeyed: seq<Candidate> := [], map[], [];
    for n := 0 to |candidates|
      invariant Holds(fold, order, byIdentity, Records(fold, candidates[..n]))
      invariant DistinctIdentities(fold, Records(fold, candidates[..n]))
      invariant unkeyed == Unkeyed(fold, candidates[..n])
    {
      var candidate := candidates[n];
      assert candidates[..n + 1][..n] == candidates[..n] && candidates[..n + 1] == candidates[..n] + [candidate];
      UnkeyedAppends(fold, candidates[..n], candidate);
      FiledStaysDistinct(fold, Records(fold, candidates[..n]), candidate);
      var identity := Identity(fold, candidate);
      if identity.None? {
        unkeyed := unkeyed + [candidate];
        continue;
      }
      ghost var values := Records(fold, candidates[..n]);
      if identity.value in byIdentity {
        FileAgain(fold, order, byIdentity, values, candidate);
        byIdentity := byIdentity[identity.value := Merge(byIdentity[identity.value], candidate)];
      } else {
        FileFirst(fold, order, byIdentity, values, candidate);
        order := order + [identity.value];
        byIdentity := byIdentity[identity.value := candidate];
      }
    }
    assert candidates[..|candidates|] == candidates;
    var values := seq(|order|, i requires 0 <= i < |order| && order[i] in byIdentity => byIdentity[order[i]]);
    assert values == Records(fold, candidates);
    r := Sort(values + unkeyed, ByKey(RefOf));
  }

  lemma FileAgain(fold: Fold, order: seq<string>, byIdentity: map<string, Candidate>, values: seq<Candidate>,
                  c: Candidate)
    requires Holds(fold, order, byIdentity, values) && DistinctIdentities(fold, values) && Identity(fold, c).Some?
    requires Identity(fold, c).value in byIdentity
    ensures Holds(fold, order, byIdentity[Identity(fold, c).value := Merge(byIdentity[Identity(fold, c).value], c)],
                  Filed(fold, values, c))
  {
    hide Identity, Merge;
    var id := Identity(fold, c).value;
    var k :| 0 <= k < |order| && order[k] == id;
    var i := IndexOf(fold, values, id);
    assert i == k;
    MergeKeepsIdentity(fold, values[i], c);
  }

  lemma FileFirst(fold: Fold, order: seq<string>, byIdentity: map<string, Candidate>, values: seq<Candidate>,
                  c: Candidate)
    requires Holds(fold, order, byIdentity, values) && Identity(fold, c).Some? && Identity(fold, c).value !in byIdentity
    ensures Holds(fold, order + [Identity(fold, c).value], byIdentity[Identity(fold, c).value := c],
                  Filed(fold, values, c))
  {
    hide Identity, Merge;
    var id := Identity(fold, c).value;
    var i := IndexOf(fold, values, id);
    assert forall j :: 0 <= j < |order| ==> order[j] in order && order[j] != id;
  }

  ghost predicate DistinctIdentities(fold: Fold, values: seq<Candidate>) {
    && (forall v <- values :: Identity(fold, v).Some?)
    && forall i, j :: 0 <= i < j < |values| ==> Identity(fold, values[i]) != Identity(fold, values[j])
  }

  lemma FiledStaysDistinct(fold: Fold, values: seq<Candidate>, c: Candidate)
    requires DistinctIdentities(fold, values)
    ensures DistinctIdentities(fold, Filed(fold, values, c))
  {
    hide Identity, Merge;
    if Identity(fold, c).Some? {
      var i := IndexOf(fold, values, Identity(fold, c).value);
      if i < |values| { MergeKeepsIdentity(fold, values[i], c); }
    }
  }

  /** No two records share an identity. */
  lemma {:induction false} RecordsAreDistinct(fold: Fold, candidates: seq<Candidate>)
    ensures DistinctIdentities(fold, Records(fold, candidates))
  {
    hide Identity, Filed;
    if candidates != [] {
      RecordsAreDistinct(fold, candidates[..|candidates| - 1]);
      FiledStaysDistinct(fold, Records(fold, candidates[..|candidates| - 1]), candidates[|candidates| - 1]);
    }
  }

  lemma {:induction false} UnkeyedAppends(fold: Fold, candidates: seq<Candidate>, c: Candidate)
    ensures Unkeyed(fold, candidates + [c]) == if Identity(fold, c).None? then Unkeyed(fold, candidates) + [c]
      else Unkeyed(fold, candidates)
  {
    hide Identity;
    if candidates == [] {
      assert [] + [c] == [c] && [c][1..] == [];
    } else {
      assert (candidates + [c])[1..] == candidates[1..] + [c];
      UnkeyedAppends(fold, candidates[1..], c);
    }
  }

  // --- Each record stands for its group ---

  /** The candidates of one identity, in the order they came. */
  function Group(fold: Fold, candidates: seq<Candidate>, id: string): seq<Candidate> {
    if candidates == [] then []
    else
      var front, last := candidates[..|candidates| - 1], candidates[|candidates| - 1];
      if Identity(fold, last) == Some(id) then Group(fold, front, id) + [last] else Group(fold, front, id)
  }

  function MergeAll(group: seq<Candidate>): Candidate
    requires group != []
  {
    if |group| == 1 then group[0] else Merge(MergeAll(group[..|group| - 1]), group[|group| - 1])
  }

  /** A record is its group merged from left to right; an identity without candidates has none. */
  lemma {:induction false} RecordIsItsGroup(fold: Fold, candidates: seq<Candidate>, id: string)
    ensures var records := Records(fold, candidates); var i := IndexOf(fold, records, id);
      if Group(fold, candidates, id) == [] then i == |records|
        else i < |records| && records[i] == MergeAll(Group(fold, candidates, id))
  {
    hide Identity, Merge;
    if candidates != [] {
      var front, last := candidates[..|candidates| - 1], candidates[|candidates| - 1];
      RecordIsItsGroup(fold, front, id);
      RecordsAreDistinct(fold, front);
      FiledElsewhere(fold, Records(fold, front), last, id);
      if Identity(fold, last) == Some(id) && Group(fold, front, id) != [] {
        var g := Group(fold, candidates, id);
        assert g[..|g| - 1] == Group(fold, front, id);
      }
    }
  }

  lemma IndexIs(fold: Fold, values: seq<Candidate>, id: string, k: nat)
    requires k <= |values| && (k < |values| ==> Identity(fold, values[k]) == Some(id))
    requires forall j :: 0 <= j < |values| && j != k ==> Identity(fold, values[j]) != Some(id)
    ensures IndexOf(fold, values, id) == k
  {
    hide Identity;
  }

  lemma IndexNone(fold: Fold, values: seq<Candidate>, id: string)
    requires forall y <- values :: Identity(fold, y) != Some(id)
    ensures IndexOf(fold, values, id) == |values|
  {
    hide Identity;
    forall j | 0 <= j < |values| ensures Identity(fold, values[j]) != Some(id) { assert values[j] in values; }
    IndexIs(fold, values, id, |values|);
  }

  lemma FiledElsewhere(fold: Fold, values: seq<Candidate>, c: Candidate, id: string)
    requires DistinctIdentities(fold, values)
    ensures var i, filed := IndexOf(fold, values, id), Filed(fold, values, c);
      var k := IndexOf(fold, filed, id);
      if Identity(fold, c) == Some(id) then
        k == i && k < |filed| && filed[k] == if i < |values| then Merge(values[i], c) else c
      else if i < |values| then k == i && filed[k] == values[i] else k == |filed|
  {
    hide Merge, Identity;
    var i, filed := IndexOf(fold, values, id), Filed(fold, values, c);
    if Identity(fold, c).Some? {
      var j := IndexOf(fold, values, Identity(fold, c).value);
      if j < |values| {
        MergeKeepsIdentity(fold, values[j], c);
        IndexIs(fold, filed, id, i);
      } else if Identity(fold, c) == Some(id) || i < |values| {
        IndexIs(fold, filed, id, i);
      } else {
        IndexIs(fold, filed, id, |filed|);
      }
    }
  }

  function MaxOf(group: seq<Candidate>, f: Candidate -> nat): nat
    requires group != []
  {
    if |group| == 1 then f(group[0]) else Max(MaxOf(group[..|group| - 1], f), f(group[|group| - 1]))
  }

  // The first candidate no other is more trusted than.
  function Leader(group: seq<Candidate>): Candidate
    requires group != []
  {
    if |group| == 1 then group[0]
    else
      var earlier, last := Leader(group[..|group| - 1]), group[|group| - 1];
      if Trust(earlier.tier) >= Trust(last.tier) then earlier else last
  }

  /** A group's record is its first most trusted member, completed with whatever identifies any other. */
  lemma GroupRecordIs(group: seq<Candidate>)
    requires group != []
    ensures var m, leader := MergeAll(group), Leader(group);
      && m.ref == leader.ref && m.name == leader.name && m.digest == leader.digest && m.tier == leader.tier
      && (leader.repository != "" ==> m.repository == leader.repository)
        && (leader.crossRef != "" ==> m.crossRef == leader.crossRef)
      && (m.repository == "" <==> forall c <- group :: c.repository == "")
      && (m.crossRef == "" <==> forall c <- group :: c.crossRef == "")
  {
    FollowsLeader(group);
    BlankIff(group);
  }

  lemma {:induction false} FollowsLeader(group: seq<Candidate>)
    requires group != []
    ensures var m, leader := MergeAll(group), Leader(group);
      && m.ref == leader.ref && m.name == leader.name && m.digest == leader.digest && m.tier == leader.tier
      && (leader.repository != "" ==> m.repository == leader.repository)
        && (leader.crossRef != "" ==> m.crossRef == leader.crossRef)
  {
    if |group| > 1 { FollowsLeader(group[..|group| - 1]); }
  }

  lemma {:induction false} BlankIff(group: seq<Candidate>)
    requires group != []
    ensures MergeAll(group).repository == "" <==> forall c <- group :: c.repository == ""
    ensures MergeAll(group).crossRef == "" <==> forall c <- group :: c.crossRef == ""
  {
    if |group| > 1 {
      var front, last := group[..|group| - 1], group[|group| - 1];
      BlankIff(front);
      assert group == front + [last];
    } else {
      assert group[0] in group && group == [group[0]];
    }
  }

  // And what identifies it comes from a member.
  lemma {:induction false} FieldsAreMembers(group: seq<Candidate>)
    requires group != []
    ensures exists c <- group :: c.repository == MergeAll(group).repository
    ensures exists c <- group :: c.crossRef == MergeAll(group).crossRef
  {
    if |group| > 1 {
      var front, last := group[..|group| - 1], group[|group| - 1];
      FieldsAreMembers(front);
      assert group == front + [last] && last in group;
    } else {
      assert group[0] in group;
    }
  }

  /** Its counts are the greatest of the group, and it is official if any member is. */
  lemma GroupCountsAre(group: seq<Candidate>)
    requires group != []
    ensures var m := MergeAll(group);
      && (forall c <- group ::
            c.stars <= m.stars && c.forks <= m.forks && c.adoption <= m.adoption && c.weekly <= m.weekly)
      && (exists c <- group :: c.stars == m.stars) && (exists c <- group :: c.forks == m.forks)
      && (exists c <- group :: c.adoption == m.adoption) && (exists c <- group :: c.weekly == m.weekly)
      && (m.official <==> exists c <- group :: c.official)
  {
    MergedCounts(group);
    MaxOfIs(group, (c: Candidate) => c.stars);
    MaxOfIs(group, (c: Candidate) => c.forks);
    MaxOfIs(group, (c: Candidate) => c.adoption);
    MaxOfIs(group, (c: Candidate) => c.weekly);
  }

  lemma {:induction false} MergedCounts(group: seq<Candidate>)
    requires group != []
    ensures var m := MergeAll(group);
      && m.stars == MaxOf(group, (c: Candidate) => c.stars) && m.forks == MaxOf(group, (c: Candidate) => c.forks)
      && m.adoption == MaxOf(group, (c: Candidate) => c.adoption)
        && m.weekly == MaxOf(group, (c: Candidate) => c.weekly)
      && (m.official <==> exists c <- group :: c.official)
  {
    if |group| > 1 {
      var front, last := group[..|group| - 1], group[|group| - 1];
      MergedCounts(front);
      assert group == front + [last];
    } else {
      assert group[0] in group && group == [group[0]];
    }
  }

  /** Its tier is the best of the group: official before a verified publisher, that before the community, and that
      before a general search. */
  lemma GroupTierIs(group: seq<Candidate>)
    requires group != []
    ensures MergeAll(group).tier ==
      if exists c <- group :: c.tier == Official then Official
      else if exists c <- group :: c.tier == VerifiedPublisher then VerifiedPublisher
      else if exists c <- group :: c.tier == Community then Community
      else GeneralSearch
  {
    GroupRecordIs(group);
    var i := LeaderIsFirst(group);
    assert group[i] in group;
  }

  lemma {:induction false} MaxOfIs(group: seq<Candidate>, f: Candidate -> nat)
    requires group != []
    ensures (exists c <- group :: f(c) == MaxOf(group, f)) && forall c <- group :: f(c) <= MaxOf(group, f)
  {
    if |group| > 1 {
      MaxOfIs(group[..|group| - 1], f);
      assert group == group[..|group| - 1] + [group[|group| - 1]];
    } else {
      assert group[0] in group && group == [group[0]];
    }
  }

  lemma {:induction false} LeaderIsFirst(group: seq<Candidate>) returns (i: nat)
    requires group != []
    ensures i < |group| && group[i] == Leader(group)
    ensures forall j :: 0 <= j < i ==> Trust(group[j].tier) < Trust(Leader(group).tier)
    ensures forall c <- group :: Trust(c.tier) <= Trust(Leader(group).tier)
  {
    if |group| == 1 {
      i := 0;
    } else {
      var front, last := group[..|group| - 1], group[|group| - 1];
      i := LeaderIsFirst(front);
      assert group == front + [last];
      if Trust(front[i].tier) < Trust(last.tier) {
        i := |group| - 1;
        assert forall j :: 0 <= j < i ==> group[j] in front;
      }
    }
  }

  /** What comes out is in the order of references. */
  lemma RecordsInOrder(fold: Fold, candidates: seq<Candidate>, i: nat, j: nat)
    requires i < j < |Deduplicated(fold, candidates)|
    ensures StringLe(Deduplicated(fold, candidates)[i].ref, Deduplicated(fold, candidates)[j].ref)
  {
    hide Records, Unkeyed;
    ByKeyIsPreorder(RefOf);
    SortSorted(Records(fold, candidates) + Unkeyed(fold, candidates), ByKey(RefOf));
    var all := Deduplicated(fold, candidates);
    assert ByKey(RefOf)(all[i], all[j]);
    ByKeyIs(RefOf, all[i], all[j]);
  }

  // --- Deduplicating again ---

  // With equal refs, what has an identity comes first.
  ghost predicate KeyedFirst(fold: Fold, xs: seq<Candidate>) {
    forall i, j :: 0 <= i < j < |xs| && xs[i].ref == xs[j].ref && Identity(fold, xs[i]).None? ==>
      Identity(fold, xs[j]).None?
  }

  lemma RefsTell(x: Candidate, y: Candidate)
    requires ByKey(RefOf)(x, y) && ByKey(RefOf)(y, x)
    ensures x.ref == y.ref
  {
    ByKeyIs(RefOf, x, y);
    ByKeyIs(RefOf, y, x);
    StringLeAntisymmetric(x.ref, y.ref);
  }

  lemma {:induction false} InsertKeyed(fold: Fold, x: Candidate, xs: seq<Candidate>)
    requires Identity(fold, x).Some? && KeyedFirst(fold, xs) && Sorted(xs, ByKey(RefOf))
    ensures KeyedFirst(fold, Insert(x, xs, ByKey(RefOf)))
  {
    hide Identity, ByKey;
    if xs != [] && !ByKey(RefOf)(x, xs[0]) {
      assert Sorted(xs[1..], ByKey(RefOf)) && KeyedFirst(fold, xs[1..]);
      InsertKeyed(fold, x, xs[1..]);
      var tail := Insert(x, xs[1..], ByKey(RefOf));
      InsertPermutes(x, xs[1..], ByKey(RefOf));
      forall j | 0 <= j < |tail| && xs[0].ref == tail[j].ref && Identity(fold, xs[0]).None?
        ensures Identity(fold, tail[j]).None?
      {
        assert tail[j] in multiset(tail);
        if tail[j] == x {
          SameRefIsLe(x, xs[0]);
        } else {
          assert tail[j] in xs[1..];
          var k :| 0 <= k < |xs[1..]| && xs[1..][k] == tail[j];
          assert xs[k + 1] == tail[j];
        }
      }
    }
  }

  lemma SameRefIsLe(x: Candidate, y: Candidate)
    requires x.ref == y.ref
    ensures ByKey(RefOf)(x, y)
  {
    StringLeTotal(x.ref, y.ref);
    ByKeyIs(RefOf, x, y);
  }

  lemma {:induction false} SortKeepsKeyedFirst(fold: Fold, xs: seq<Candidate>)
    requires forall i, j :: 0 <= i < j < |xs| && Identity(fold, xs[i]).None? ==> Identity(fold, xs[j]).None?
    ensures KeyedFirst(fold, Sort(xs, ByKey(RefOf)))
  {
    hide Identity;
    if xs != [] {
      var rest := xs[1..];
      assert forall i :: 0 <= i < |rest| ==> rest[i] == xs[i + 1];
      SortKeepsKeyedFirst(fold, rest);
      ByKeyIsPreorder(RefOf);
      SortSorted(rest, ByKey(RefOf));
      if Identity(fold, xs[0]).Some? {
        InsertKeyed(fold, xs[0], Sort(rest, ByKey(RefOf)));
      } else {
        SortPermutes(xs, ByKey(RefOf));
        forall x <- Sort(xs, ByKey(RefOf)) ensures Identity(fold, x).None? {
          var i :| 0 <= i < |xs| && xs[i] == x;
        }
      }
    }
  }

  lemma InsertFirst(x: Candidate, xs: seq<Candidate>)
    requires forall y <- xs :: ByKey(RefOf)(x, y)
    ensures Insert(x, xs, ByKey(RefOf)) == [x] + xs
  {
    if xs == [] { assert [x] + xs == [x]; } else { assert xs[0] in xs; }
  }

  // An element that precedes everything can be taken to the front, past what it strictly precedes.
  lemma {:induction false} SortPasses(front: seq<Candidate>, x: Candidate, back: seq<Candidate>)
    requires forall y <- front :: ByKey(RefOf)(x, y) && !ByKey(RefOf)(y, x)
    requires forall y <- back :: ByKey(RefOf)(x, y)
    ensures Sort(front + [x] + back, ByKey(RefOf)) == [x] + Sort(front + back, ByKey(RefOf))
  {
    hide ByKey;
    if front == [] {
      assert front + [x] + back == [x] + back && front + back == back;
      SortPermutes(back, ByKey(RefOf));
      InsertFirst(x, Sort(back, ByKey(RefOf)));
    } else {
      assert (front + [x] + back)[1..] == front[1..] + [x] + back && (front + back)[1..] == front[1..] + back;
      assert front[0] in front;
      SortPasses(front[1..], x, back);
      var rest := Sort(front[1..] + back, ByKey(RefOf));
      assert ([x] + rest)[1..] == rest;
    }
  }

  lemma TailStaysSorted(fold: Fold, xs: seq<Candidate>)
    requires Sorted(xs, ByKey(RefOf)) && KeyedFirst(fold, xs) && xs != []
    ensures Sorted(xs[1..], ByKey(RefOf)) && KeyedFirst(fold, xs[1..])
    ensures forall y <- xs[1..] :: ByKey(RefOf)(xs[0], y)
  {
    hide ByKey, Identity;
    forall y <- xs[1..] ensures ByKey(RefOf)(xs[0], y) {
      var i :| 0 <= i < |xs[1..]| && xs[1..][i] == y;
      assert xs[i + 1] == y;
    }
  }

  /** Taking a sorted list apart by whether there is an identity, and sorting again, gives it back. */
  lemma {:induction false} SortedSplit(fold: Fold, xs: seq<Candidate>)
    requires Sorted(xs, ByKey(RefOf)) && KeyedFirst(fold, xs)
    ensures Sort(Keyed(fold, xs) + Unkeyed(fold, xs), ByKey(RefOf)) == xs
  {
    hide ByKey, Identity, KeyedFirst, Sorted;
    if xs == [] {
      assert Keyed(fold, xs) + Unkeyed(fold, xs) == [];
    } else {
      var x, rest := xs[0], xs[1..];
      assert xs == [x] + rest;
      TailStaysSorted(fold, xs);
      SortedSplit(fold, rest);
      if Identity(fold, x).Some? {
        assert Keyed(fold, xs) + Unkeyed(fold, xs) == [x] + (Keyed(fold, rest) + Unkeyed(fold, rest));
        assert ([x] + (Keyed(fold, rest) + Unkeyed(fold, rest)))[1..] == Keyed(fold, rest) + Unkeyed(fold, rest);
        InsertFirst(x, rest);
      } else {
        UnkeyedGoesFirst(fold, xs);
      }
    }
  }

  lemma UnkeyedGoesFirst(fold: Fold, xs: seq<Candidate>)
    requires xs != [] && KeyedFirst(fold, xs) && Identity(fold, xs[0]).None?
    requires forall y <- xs[1..] :: ByKey(RefOf)(xs[0], y)
    ensures Sort(Keyed(fold, xs) + Unkeyed(fold, xs), ByKey(RefOf)) == [xs[0]]
      + Sort(Keyed(fold, xs[1..]) + Unkeyed(fold, xs[1..]), ByKey(RefOf))
  {
    hide ByKey, Identity, KeyedFirst, Sort;
    var x, rest := xs[0], xs[1..];
    SplitElements(fold, rest);
    forall y <- Keyed(fold, rest) ensures !ByKey(RefOf)(y, x) {
      RefsDiffer(fold, xs, y);
      StrictlyBefore(x, y);
    }
    SortPasses(Keyed(fold, rest), x, Unkeyed(fold, rest));
    assert Keyed(fold, rest) + ([x] + Unkeyed(fold, rest)) == Keyed(fold, rest) + [x] + Unkeyed(fold, rest);
  }

  lemma RefsDiffer(fold: Fold, xs: seq<Candidate>, y: Candidate)
    requires KeyedFirst(fold, xs) && xs != [] && Identity(fold, xs[0]).None? && y in xs[1..] && Identity(fold, y).Some?
    ensures xs[0].ref != y.ref
  {
    var i :| 0 <= i < |xs[1..]| && xs[1..][i] == y;
    assert xs[i + 1] == y;
  }

  lemma StrictlyBefore(x: Candidate, y: Candidate)
    requires ByKey(RefOf)(x, y) && x.ref != y.ref
    ensures !ByKey(RefOf)(y, x)
  {
    if ByKey(RefOf)(y, x) { RefsTell(x, y); }
  }

  lemma {:induction false} SplitElements(fold: Fold, xs: seq<Candidate>)
    ensures forall x :: x in Keyed(fold, xs) <==> x in xs && Identity(fold, x).Some?
    ensures forall x :: x in Unkeyed(fold, xs) <==> x in xs && Identity(fold, x).None?
  {
    hide Identity;
    if xs != [] {
      SplitElements(fold, xs[1..]);
      assert xs == [xs[0]] + xs[1..];
    }
  }

  // Distinct records stay as they are.
  lemma {:induction false} RecordsOfDistinct(fold: Fold, xs: seq<Candidate>)
    requires DistinctKeys(fold, xs)
    ensures Records(fold, xs) == Keyed(fold, xs)
  {
    hide Identity, Merge;
    if xs != [] {
      var front, last := xs[..|xs| - 1], xs[|xs| - 1];
      RecordsOfDistinct(fold, front);
      assert xs == front + [last];
      KeyedAppends(fold, front, last);
      SplitElements(fold, front);
      forall y <- Keyed(fold, front) ensures Identity(fold, y) != Identity(fold, last) {
        var k :| 0 <= k < |front| && front[k] == y;
        assert xs[k] == y;
      }
      if Identity(fold, last).Some? { IndexNone(fold, Keyed(fold, front), Identity(fold, last).value); }
    }
  }

  lemma {:induction false} KeyedAppends(fold: Fold, candidates: seq<Candidate>, c: Candidate)
    ensures Keyed(fold, candidates + [c]) == if Identity(fold, c).Some? then Keyed(fold, candidates) + [c]
      else Keyed(fold, candidates)
  {
    hide Identity;
    if candidates == [] {
      assert [] + [c] == [c] && [c][1..] == [];
    } else {
      assert (candidates + [c])[1..] == candidates[1..] + [c];
      KeyedAppends(fold, candidates[1..], c);
    }
  }

  /** Deduplicating twice is deduplicating once, and no identity is left twice. */
  lemma DeduplicationIsIdempotent(fold: Fold, candidates: seq<Candidate>)
    ensures Deduplicated(fold, Deduplicated(fold, candidates)) == Deduplicated(fold, candidates)
    ensures DistinctKeys(fold, Deduplicated(fold, candidates))
  {
    hide Identity, Merge, Records;
    var records, unkeyed := Records(fold, candidates), Unkeyed(fold, candidates);
    var all := records + unkeyed;
    var d := Deduplicated(fold, candidates);
    RecordsAreDistinct(fold, candidates);
    SplitElements(fold, candidates);
    assert forall x <- unkeyed :: Identity(fold, x).None?;
    SortKeepsKeyedFirst(fold, all);
    ByKeyIsPreorder(RefOf);
    SortSorted(all, ByKey(RefOf));
    SortedSplit(fold, d);
    SortKeepsDistinct(fold, all, d);
    RecordsOfDistinct(fold, d);
  }

  ghost predicate DistinctKeys(fold: Fold, xs: seq<Candidate>) {
    forall i, j :: 0 <= i < j < |xs| && Identity(fold, xs[i]).Some? ==> Identity(fold, xs[i]) != Identity(fold, xs[j])
  }

  lemma SortKeepsDistinct(fold: Fold, all: seq<Candidate>, d: seq<Candidate>)
    requires d == Sort(all, ByKey(RefOf)) && DistinctKeys(fold, all)
    ensures DistinctKeys(fold, d)
  {
    hide Identity, DistinctKeys, Sort;
    SortPermutes(all, ByKey(RefOf));
    forall i, j | 0 <= i < j < |d| && Identity(fold, d[i]).Some? ensures Identity(fold, d[i]) != Identity(fold, d[j]) {
      if Identity(fold, d[i]) == Identity(fold, d[j]) {
        assert d[i] in d && d[j] in d;
        SameKeySameCandidate(fold, all, d[i], d[j]);
        TwiceCounted(d, i, j);
        OnceCounted(fold, all, d[i]);
      }
    }
    DistinctKeysMeans(fold, d);
  }

  lemma DistinctKeysMeans(fold: Fold, d: seq<Candidate>)
    requires forall i, j :: 0 <= i < j < |d| && Identity(fold, d[i]).Some? ==>
      Identity(fold, d[i]) != Identity(fold, d[j])
    ensures DistinctKeys(fold, d)
  {
    hide Identity;
  }

  lemma SameKeySameCandidate(fold: Fold, all: seq<Candidate>, x: Candidate, y: Candidate)
    requires DistinctKeys(fold, all) && x in all && y in all && Identity(fold, x).Some?
    requires Identity(fold, x) == Identity(fold, y)
    ensures x == y
  {
    hide Identity;
    var a :| 0 <= a < |all| && all[a] == x;
    var b :| 0 <= b < |all| && all[b] == y;
  }

  lemma OnceCounted(fold: Fold, all: seq<Candidate>, x: Candidate)
    requires DistinctKeys(fold, all) && x in all && Identity(fold, x).Some?
    ensures multiset(all)[x] == 1
  {
    hide Identity;
    var a :| 0 <= a < |all| && all[a] == x;
    assert all == all[..a] + [x] + all[a + 1..];
    assert x !in all[..a] && x !in all[a + 1..];
  }

  /** Deduplicating loses no candidate without an identity, and drops no identity. */
  lemma NothingIsLost(fold: Fold, candidates: seq<Candidate>, c: Candidate)
    requires c in candidates
    ensures Identity(fold, c).None? ==> multiset(Deduplicated(fold, candidates))[c] >= 1
    ensures Identity(fold, c).Some? ==>
      exists d <- Deduplicated(fold, candidates) :: Identity(fold, d) == Identity(fold, c)
  {
    hide Identity, Merge, Records;
    var all := Records(fold, candidates) + Unkeyed(fold, candidates);
    SortPermutes(all, ByKey(RefOf));
    if Identity(fold, c).None? {
      SplitElements(fold, candidates);
      assert c in all;
    } else {
      RecordIsItsGroup(fold, candidates, Identity(fold, c).value);
      GroupHas(fold, candidates, c);
      var i := IndexOf(fold, Records(fold, candidates), Identity(fold, c).value);
      assert all[i] in all;
    }
  }

  lemma {:induction false} GroupHas(fold: Fold, candidates: seq<Candidate>, c: Candidate)
    requires c in candidates && Identity(fold, c).Some?
    ensures c in Group(fold, candidates, Identity(fold, c).value)
  {
    hide Identity;
    var front, last := candidates[..|candidates| - 1], candidates[|candidates| - 1];
    assert candidates == front + [last];
    if c in front { GroupHas(fold, front, c); }
  }
}
