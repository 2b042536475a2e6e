/** Resolving abstract requirements against the inventory: one row for each matching candidate. */
module Resolver {
  import opened Wrappers
  import opened Ordering
  import opened Inventory

  datatype Status = Selected | Rejected | Deferred | Gap

  /** One row of the plan; only a gap has no capability. */
  datatype Row = Row(requirement: string, status: Status, capability: Option<string>, reason: string)

  /** What policy, context and scoring make of a candidate. */
  datatype Verdict =
    | Filtered(reason: string)
    | Ineligible(memory: bool, reason: string)
    | Eligible(score: int, context: int)

  type Judge = (string, Item) -> Verdict

  // --- Ranking ---

  datatype Ranked = Ranked(item: Item, score: int, context: int)

  /** A higher score first, then fewer permissions, then the id. */
  predicate RanksBefore(a: Ranked, b: Ranked) {
    if a.score + a.context != b.score + b.context then a.score + a.context > b.score + b.context
    else if a.item.permissions != b.item.permissions then a.item.permissions < b.item.permissions
    else StringLe(a.item.id, b.item.id)
  }

  predicate RowLe(a: Row, b: Row) {
    var x, y :=
      (if a.capability.Some? then a.capability.value else ""), (if b.capability.Some? then b.capability.value else "");
    if x != y then StringLe(x, y) else StringLe(a.reason, b.reason)
  }

  lemma RanksIsPreorder()
    ensures TotalPreorder(RanksBefore)
  {
    forall x, y ensures RanksBefore(x, y) || RanksBefore(y, x) { StringLeTotal(x.item.id, y.item.id); }
    forall x, y, z | RanksBefore(x, y) && RanksBefore(y, z) ensures RanksBefore(x, z) {
      if StringLe(x.item.id, y.item.id) && StringLe(y.item.id, z.item.id) {
        StringLeTransitive(x.item.id, y.item.id, z.item.id);
      }
    }
  }

  // --- One requirement ---

  // The rows of candidates that are out, and the candidates that are in, as the loop finds them.
  function Sifted(requirement: string, candidates: seq<Item>, judge: Judge): (seq<Row>, seq<Ranked>) {
    if candidates == [] then ([], [])
    else
      var (rejected, eligible) := Sifted(requirement, candidates[..|candidates| - 1], judge);
      var c := candidates[|candidates| - 1];
      match judge(requirement, c)
      case Filtered(reason) => (rejected + [Row(requirement, Rejected, Some(c.id), reason)], eligible)
      case Ineligible(memory, reason) =>
        (rejected + [Row(requirement, if memory then Deferred else Rejected, Some(c.id), reason)], eligible)
      case Eligible(score, context) => (rejected, eligible + [Ranked(c, score, context)])
  }

  function LowerRanked(requirement: string, rest: seq<Ranked>, winner: Item): seq<Row> {
    seq(|rest|,
      i requires 0 <= i < |rest| => Row(requirement, Rejected, Some(rest[i].item.id), "lower-ranked than " + winner.id))
  }

  const GAP_REASON := "no policy-compliant local provider"

  function Concluded(requirement: string, rejected: seq<Row>, eligible: seq<Ranked>): seq<Row> {
    if eligible != [] then
      var ranked := Sort(eligible, RanksBefore);
      SortPermutes(eligible, RanksBefore);
      [Row(requirement, Selected, Some(ranked[0].item.id), "selected local provider")]
      + Sort(rejected + LowerRanked(requirement, ranked[1..], ranked[0].item), RowLe)
    else if rejected != [] && forall r <- rejected :: r.status.Deferred? then Sort(rejected, RowLe)
    else Sort(rejected, RowLe) + [Row(requirement, Gap, None, GAP_REASON)]
  }

  function Resolved(requirement: string, candidates: seq<Item>, judge: Judge): seq<Row> {
    var (rejected, eligible) := Sifted(requirement, candidates, judge);
    Concluded(requirement, rejected, eligible)
  }

  method ResolveRequirement(requirement: string, candidates: seq<Item>, judge: Judge) returns (rows: seq<Row>)
    ensures rows == Resolved(requirement, candidates, judge)
  {
    var rejected: seq<Row>, eligible: seq<Ranked> := [], [];
    for n := 0 to |candidates|
      invariant (rejected, eligible) == Sifted(requirement, candidates[..n], judge)
    {
      assert candidates[..n + 1][..n] == candidates[..n];
      var c := candidates[n];
      match judge(requirement, c)
      case Filtered(reason) => rejected := rejected + [Row(requirement, Rejected, Some(c.id), reason)];
      case Ineligible(memory, reason) =>
        rejected := rejected + [Row(requirement, if memory then Deferred else Rejected, Some(c.id), reason)];
      case Eligible(score, context) => eligible := eligible + [Ranked(c, score, context)];
    }
    assert candidates[..|candidates|] == candidates;
    if eligible != [] {
      var ranked := Sort(eligible, RanksBefore);
      SortPermutes(eligible, RanksBefore);
      var selected := Row(requirement, Selected, Some(ranked[0].item.id), "selected local provider");
      return [selected] + Sort(rejected + LowerRanked(requirement, ranked[1..], ranked[0].item), RowLe);
    }
    if rejected != [] && forall r <- rejected :: r.status.Deferred? { return Sort(rejected, RowLe); }
    rows := Sort(rejected, RowLe) + [Row(requirement, Gap, None, GAP_REASON)];
  }

  // --- The whole plan ---

  function Offering(inventory: seq<Item>, requirement: string): seq<Item> {
    if inventory == [] then []
    else
      var front, last := Offering(inventory[..|inventory| - 1], requirement), inventory[|inventory| - 1];
      if requirement in last.offers then front + [last] else front
  }

  function Matching(inventory: seq<Item>, requirement: string): seq<Item> {
    Sort(Offering(inventory, requirement), ByKey(ItemKey))
  }

  function Plan(requirements: seq<string>, inventory: seq<Item>, judge: Judge): seq<Row> {
    if requirements == [] then []
    else
      var last := requirements[|requirements| - 1];
      Plan(requirements[..|requirements| - 1], inventory, judge) + Resolved(last, Matching(inventory, last), judge)
  }

  method ResolveLocalCapabilities(requirements: seq<string>, inventory: seq<Item>, judge: Judge)
    returns (rows: seq<Row>)
    ensures rows == Plan(Sort(requirements, IdLe), inventory, judge)
  {
    var order := Sort(requirements, IdLe);
    rows := [];
    for n := 0 to |order|
      invariant rows == Plan(order[..n], inventory, judge)
    {
      assert order[..n + 1][..n] == order[..n];
      var more := ResolveRequirement(order[n], Matching(inventory, order[n]), judge);
      rows := rows + more;
    }
    assert order[..|order|] == order;
  }

  // --- What the rows say ---

  function IdsOf(items: seq<Item>): seq<string> {
    seq(|items|, i requires 0 <= i < |items| => items[i].id)
  }

  function RankedIds(ranked: seq<Ranked>): seq<string> {
    seq(|ranked|, i requires 0 <= i < |ranked| => ranked[i].item.id)
  }

  // The capabilities the rows are about, in their order.
  function Subjects(rows: seq<Row>): seq<string> {
    if rows == [] then []
    else
      var front, last := Subjects(rows[..|rows| - 1]), rows[|rows| - 1];
      if last.capability.Some? then front + [last.capability.value] else front
  }

  lemma {:induction false} SubjectsAppend(xs: seq<Row>, ys: seq<Row>)
    ensures Subjects(xs + ys) == Subjects(xs) + Subjects(ys)
  {
    if ys == [] {
      assert xs + ys == xs;
    } else {
      SubjectsAppend(xs, ys[..|ys| - 1]);
      assert (xs + ys)[..|xs + ys| - 1] == xs + ys[..|ys| - 1];
    }
  }

  // Rearranging rows rearranges what they are about.
  lemma {:induction false} SubjectsInsert(x: Row, xs: seq<Row>)
    ensures multiset(Subjects(Insert(x, xs, RowLe))) == multiset(Subjects([x])) + multiset(Subjects(xs))
  {
    hide RowLe, Subjects;
    assert Subjects([]) == [] by { NoSubjects(); }
    if xs == [] || RowLe(x, xs[0]) {
      SubjectsAppend([x], xs);
      assert [x] + [] == [x];
    } else {
      SubjectsInsert(x, xs[1..]);
      assert xs == [xs[0]] + xs[1..];
      SubjectsAppend([xs[0]], xs[1..]);
      SubjectsAppend([xs[0]], Insert(x, xs[1..], RowLe));
    }
  }

  lemma NoSubjects()
    ensures Subjects([]) == []
  {
  }

  lemma {:induction false} SubjectsSort(xs: seq<Row>)
    ensures multiset(Subjects(Sort(xs, RowLe))) == multiset(Subjects(xs))
  {
    hide RowLe, Subjects;
    if xs != [] {
      SubjectsSort(xs[1..]);
      SubjectsInsert(xs[0], Sort(xs[1..], RowLe));
      assert xs == [xs[0]] + xs[1..];
      SubjectsAppend([xs[0]], xs[1..]);
    }
  }

  lemma {:induction false} LowerSubjects(requirement: string, rest: seq<Ranked>, winner: Item)
    ensures Subjects(LowerRanked(requirement, rest, winner)) == RankedIds(rest)
  {
    if rest != [] {
      var front := rest[..|rest| - 1];
      LowerSubjects(requirement, front, winner);
      var rows := LowerRanked(requirement, rest, winner);
      assert rows[..|rows| - 1] == LowerRanked(requirement, front, winner);
      assert RankedIds(rest) == RankedIds(front) + [rest[|rest| - 1].item.id];
    } else {
      assert LowerRanked(requirement, rest, winner) == [] && RankedIds(rest) == [];
    }
  }

  lemma {:induction false} RankedIdsInsert(x: Ranked, xs: seq<Ranked>)
    ensures multiset(RankedIds(Insert(x, xs, RanksBefore))) == multiset{x.item.id} + multiset(RankedIds(xs))
  {
    hide RanksBefore;
    if xs == [] || RanksBefore(x, xs[0]) {
      assert RankedIds([x] + xs) == [x.item.id] + RankedIds(xs);
      if xs == [] { assert [x] + xs == [x]; }
    } else {
      RankedIdsInsert(x, xs[1..]);
      var tail := Insert(x, xs[1..], RanksBefore);
      assert RankedIds([xs[0]] + tail) == [xs[0].item.id] + RankedIds(tail);
      assert RankedIds(xs) == [xs[0].item.id] + RankedIds(xs[1..]);
    }
  }

  lemma {:induction false} RankedIdsSort(xs: seq<Ranked>)
    ensures multiset(RankedIds(Sort(xs, RanksBefore))) == multiset(RankedIds(xs))
  {
    hide RanksBefore;
    if xs != [] {
      RankedIdsSort(xs[1..]);
      RankedIdsInsert(xs[0], Sort(xs[1..], RanksBefore));
      assert RankedIds(xs) == [xs[0].item.id] + RankedIds(xs[1..]);
    } else {
      assert RankedIds(Sort(xs, RanksBefore)) == RankedIds(xs);
    }
  }

  lemma SubjectsPush(rows: seq<Row>, row: Row)
    requires row.capability.Some?
    ensures Subjects(rows + [row]) == Subjects(rows) + [row.capability.value]
  {
    assert (rows + [row])[..|rows|] == rows;
  }

  lemma RankedIdsPush(ranked: seq<Ranked>, r: Ranked)
    ensures RankedIds(ranked + [r]) == RankedIds(ranked) + [r.item.id]
  {
  }

  lemma {:induction false} SiftedSubjects(requirement: string, candidates: seq<Item>, judge: Judge)
    ensures var (rejected, eligible) := Sifted(requirement, candidates, judge);
      && multiset(Subjects(rejected)) + multiset(RankedIds(eligible)) == multiset(IdsOf(candidates))
      && (forall r <- rejected :: r.status.Rejected? || r.status.Deferred?)
      && (forall r <- rejected :: r.requirement == requirement)
  {
    if candidates != [] {
      var front, c := candidates[..|candidates| - 1], candidates[|candidates| - 1];
      SiftedSubjects(requirement, front, judge);
      var (rejected, eligible) := Sifted(requirement, front, judge);
      assert IdsOf(candidates) == IdsOf(front) + [c.id];
      hide Subjects, RankedIds, IdsOf;
      match judge(requirement, c)
      case Eligible(score, context) => RankedIdsPush(eligible, Ranked(c, score, context));
      case Filtered(reason) => SubjectsPush(rejected, Row(requirement, Rejected, Some(c.id), reason));
      case Ineligible(memory, reason) =>
        SubjectsPush(rejected, Row(requirement, if memory then Deferred else Rejected, Some(c.id), reason));
    } else {
      assert IdsOf(candidates) == [];
    }
  }

  lemma WinnerSubjects(requirement: string, rejected: seq<Row>, eligible: seq<Ranked>)
    requires eligible != []
    ensures multiset(Subjects(Concluded(requirement, rejected, eligible))) == multiset(Subjects(rejected))
      + multiset(RankedIds(eligible))
  {
    hide RanksBefore, RowLe, LowerRanked, Subjects, RankedIds;
    var ranked := Sort(eligible, RanksBefore);
    SortPermutes(eligible, RanksBefore);
    var lower := LowerRanked(requirement, ranked[1..], ranked[0].item);
    var selected := Row(requirement, Selected, Some(ranked[0].item.id), "selected local provider");
    SubjectsSort(rejected + lower);
    SubjectsAppend(rejected, lower);
    SubjectsAppend([selected], Sort(rejected + lower, RowLe));
    SelectedSubject(selected);
    LowerSubjects(requirement, ranked[1..], ranked[0].item);
    RankedIdsSort(eligible);
    RankedIdsSplit(ranked);
  }

  lemma RankedIdsSplit(ranked: seq<Ranked>)
    requires ranked != []
    ensures multiset(RankedIds(ranked)) == multiset{ranked[0].item.id} + multiset(RankedIds(ranked[1..]))
  {
    assert RankedIds(ranked) == [ranked[0].item.id] + RankedIds(ranked[1..]);
  }

  lemma NoWinnerSubjects(requirement: string, rejected: seq<Row>)
    ensures multiset(Subjects(Concluded(requirement, rejected, []))) == multiset(Subjects(rejected))
  {
    hide RowLe, Subjects;
    SubjectsSort(rejected);
    var gap := Row(requirement, Gap, None, GAP_REASON);
    SubjectsAppend(Sort(rejected, RowLe), [gap]);
    GapSubject(gap);
  }

  /** Every matching candidate gets exactly one row, and no other capability gets any. */
  lemma OneRowEach(requirement: string, candidates: seq<Item>, judge: Judge)
    ensures multiset(Subjects(Resolved(requirement, candidates, judge))) == multiset(IdsOf(candidates))
  {
    hide Sifted, Concluded, Subjects, IdsOf;
    SiftedSubjects(requirement, candidates, judge);
    var (rejected, eligible) := Sifted(requirement, candidates, judge);
    if eligible != [] {
      WinnerSubjects(requirement, rejected, eligible);
    } else {
      assert RankedIds(eligible) == [];
      NoWinnerSubjects(requirement, rejected);
    }
  }

  lemma SelectedSubject(row: Row)
    requires row.capability.Some?
    ensures Subjects([row]) == [row.capability.value]
  {
    assert [row][..0] == [];
  }

  lemma GapSubject(row: Row)
    requires row.capability.None?
    ensures Subjects([row]) == []
  {
    assert [row][..0] == [];
  }

  function CountOf(rows: seq<Row>, status: Status): nat {
    if rows == [] then 0
    else CountOf(rows[..|rows| - 1], status) + if rows[|rows| - 1].status == status then 1 else 0
  }

  lemma {:induction false} CountNone(rows: seq<Row>, status: Status)
    requires forall r <- rows :: r.status != status
    ensures CountOf(rows, status) == 0
  {
    if rows != [] {
      assert rows[|rows| - 1] in rows;
      CountNone(rows[..|rows| - 1], status);
    }
  }

  lemma {:induction false} CountAppends(xs: seq<Row>, ys: seq<Row>, status: Status)
    ensures CountOf(xs + ys, status) == CountOf(xs, status) + CountOf(ys, status)
  {
    if ys == [] {
      assert xs + ys == xs;
    } else {
      CountAppends(xs, ys[..|ys| - 1], status);
      assert (xs + ys)[..|xs + ys| - 1] == xs + ys[..|ys| - 1];
    }
  }

  lemma CountOfOne(row: Row, status: Status)
    ensures CountOf([row], status) == if row.status == status then 1 else 0
  {
    assert [row][..0] == [];
  }

  // What is eligible, and with which score and context.
  ghost predicate IsEligible(requirement: string, candidates: seq<Item>, judge: Judge, r: Ranked) {
    r.item in candidates && judge(requirement, r.item) == Eligible(r.score, r.context)
  }

  // The row of a candidate that is out: deferred if it is a memory that the context does not call for.
  ghost predicate SaysOut(requirement: string, c: Item, verdict: Verdict, row: Row) {
    match verdict
    case Filtered(reason) => row == Row(requirement, Rejected, Some(c.id), reason)
    case Ineligible(memory, reason) => row ==
      Row(requirement, if memory then Deferred else Rejected, Some(c.id), reason)
    case Eligible(_, _) => false
  }

  ghost predicate IsOut(requirement: string, candidates: seq<Item>, judge: Judge, row: Row) {
    exists c <- candidates :: SaysOut(requirement, c, judge(requirement, c), row)
  }

  lemma {:induction false} SiftedAre(requirement: string, candidates: seq<Item>, judge: Judge)
    ensures forall r :: r in Sifted(requirement, candidates, judge).1 <==> IsEligible(requirement, candidates, judge, r)
    ensures forall row :: row in Sifted(requirement, candidates, judge).0 <==>
      IsOut(requirement, candidates, judge, row)
  {
    if candidates != [] {
      var front, c := candidates[..|candidates| - 1], candidates[|candidates| - 1];
      SiftedAre(requirement, front, judge);
      assert candidates == front + [c] && c in candidates;
    }
  }

  /** The best of those that are eligible: the greatest score with its context, then the fewest permissions, then the
      first id. */
  ghost predicate Wins(requirement: string, candidates: seq<Item>, judge: Judge, id: string) {
    exists w: Ranked ::
      && IsEligible(requirement, candidates, judge, w) && w.item.id == id
      && forall r: Ranked :: IsEligible(requirement, candidates, judge, r) ==>
           || w.score + w.context > r.score + r.context
           || (&& w.score + w.context == r.score + r.context
               && (|| w.item.permissions < r.item.permissions
                   || (w.item.permissions == r.item.permissions && StringLe(w.item.id, r.item.id))))
  }

  lemma WinsByRank(requirement: string, candidates: seq<Item>, judge: Judge, w: Ranked)
    requires w in Sifted(requirement, candidates, judge).1
    requires forall r <- Sifted(requirement, candidates, judge).1 :: RanksBefore(w, r)
    ensures Wins(requirement, candidates, judge, w.item.id)
  {
    hide Sifted;
    SiftedAre(requirement, candidates, judge);
    assert IsEligible(requirement, candidates, judge, w);
    forall r | IsEligible(requirement, candidates, judge, r) ensures RanksBefore(w, r) {}
  }

  /** A requirement comes out in one of three ways: the best of the eligible selected; everything deferred; or one
      gap. */
  lemma ThreeOutcomes(requirement: string, candidates: seq<Item>, judge: Judge)
    ensures var rows := Resolved(requirement, candidates, judge);
      if exists c <- candidates :: judge(requirement, c).Eligible? then
        && CountOf(rows, Selected) == 1 && CountOf(rows, Gap) == 0
        && rows[0].status.Selected? && rows[0].capability.Some?
          && Wins(requirement, candidates, judge, rows[0].capability.value)
      else if candidates != [] && (forall c <- candidates :: IsMemory(judge(requirement, c))) then
        CountOf(rows, Selected) == 0 && CountOf(rows, Gap) == 0 && forall r <- rows :: r.status.Deferred?
      else
        CountOf(rows, Selected) == 0 && CountOf(rows, Gap) == 1 && rows[|rows| - 1].status.Gap?
  {
    hide RanksBefore, RowLe, Sifted, LowerRanked, CountOf, Wins;
    SiftedSubjects(requirement, candidates, judge);
    WhoIsEligible(requirement, candidates, judge);
    var (rejected, eligible) := Sifted(requirement, candidates, judge);
    if eligible != [] {
      var ranked := Sort(eligible, RanksBefore);
      SortPermutes(eligible, RanksBefore);
      var lower := LowerRanked(requirement, ranked[1..], ranked[0].item);
      LowerAreRejected(requirement, ranked[1..], ranked[0].item);
      var selected := Row(requirement, Selected, Some(ranked[0].item.id), "selected local provider");
      TailCounts(rejected + lower);
      CountAppends([selected], Sort(rejected + lower, RowLe), Selected);
      CountAppends([selected], Sort(rejected + lower, RowLe), Gap);
      CountOfOne(selected, Selected);
      CountOfOne(selected, Gap);
      FirstWins(eligible);
      WinsByRank(requirement, candidates, judge, ranked[0]);
    } else {
      TailCounts(rejected);
      var gap := Row(requirement, Gap, None, GAP_REASON);
      CountAppends(Sort(rejected, RowLe), [gap], Selected);
      CountAppends(Sort(rejected, RowLe), [gap], Gap);
      CountOfOne(gap, Selected);
      CountOfOne(gap, Gap);
      SortPermutes(rejected, RowLe);
    }
  }

  predicate IsMemory(verdict: Verdict) { verdict.Ineligible? && verdict.memory }

  // What the loop finds, told by the verdicts.
  lemma WhoIsEligible(requirement: string, candidates: seq<Item>, judge: Judge)
    ensures var (rejected, eligible) := Sifted(requirement, candidates, judge);
      && (eligible != [] <==> exists c <- candidates :: judge(requirement, c).Eligible?)
      && (eligible == [] ==>
            (rejected != [] && (forall r <- rejected :: r.status.Deferred?) <==>
               candidates != [] && forall c <- candidates :: IsMemory(judge(requirement, c))))
  {
    hide Sifted;
    SiftedAre(requirement, candidates, judge);
    var (rejected, eligible) := Sifted(requirement, candidates, judge);
    if eligible != [] { assert IsEligible(requirement, candidates, judge, eligible[0]); }
    forall c <- candidates
      ensures judge(requirement, c).Eligible? ==> eligible != []
      ensures !judge(requirement, c).Eligible? ==> rejected != []
      ensures !judge(requirement, c).Eligible? && !IsMemory(judge(requirement, c)) ==>
        exists r <- rejected :: r.status.Rejected?
    {
      var row := OneVerdict(requirement, candidates, judge, c);
    }
    forall r <- rejected ensures exists c <- candidates :: SaysOut(requirement, c, judge(requirement, c), r) {
      assert IsOut(requirement, candidates, judge, r);
    }
    if candidates == [] { NothingSifted(requirement, judge); } else { assert candidates[0] in candidates; }
  }

  lemma NothingSifted(requirement: string, judge: Judge)
    ensures Sifted(requirement, [], judge) == ([], [])
  {
  }

  lemma OneVerdict(requirement: string, candidates: seq<Item>, judge: Judge, c: Item) returns (row: Row)
    requires c in candidates
    ensures var (rejected, eligible) := Sifted(requirement, candidates, judge);
      if judge(requirement, c).Eligible?
        then Ranked(c, judge(requirement, c).score, judge(requirement, c).context) in eligible
        else row in rejected && SaysOut(requirement, c, judge(requirement, c), row)
  {
    hide Sifted;
    SiftedAre(requirement, candidates, judge);
    match judge(requirement, c)
    case Filtered(reason) => row := Row(requirement, Rejected, Some(c.id), reason);
    case Ineligible(memory, reason) =>
      row := Row(requirement, if memory then Deferred else Rejected, Some(c.id), reason);
    case Eligible(score, context) =>
      row := Row(requirement, Gap, None, "");
      assert IsEligible(requirement, candidates, judge, Ranked(c, score, context));
  }

  /** What the row of each candidate says: why it is out, that it is selected, or which winner it ranks below. */
  lemma RowsAre(requirement: string, candidates: seq<Item>, judge: Judge)
    ensures var rows := Resolved(requirement, candidates, judge);
      && (forall r <- rows :: r.requirement == requirement)
      && (forall c, row :: c in candidates && SaysOut(requirement, c, judge(requirement, c), row) ==> row in rows)
      && (forall c <- candidates :: judge(requirement, c).Eligible? ==>
            && rows[0].status == Selected && rows[0].capability.Some?
            && (|| rows[0].capability == Some(c.id)
                || Row(requirement, Rejected, Some(c.id), "lower-ranked than " + rows[0].capability.value) in rows))
      && (forall r <- rows :: r.status == Gap ==>
        r == Row(requirement, Gap, None, "no policy-compliant local provider"))
  {
    hide Sifted, RanksBefore, RowLe, Wins, CountOf, Concluded;
    SiftedAre(requirement, candidates, judge);
    SiftedSubjects(requirement, candidates, judge);
    var (rejected, eligible) := Sifted(requirement, candidates, judge);
    var rows := Resolved(requirement, candidates, judge);
    ConcludedHas(requirement, rejected, eligible);
    forall c, row | c in candidates && SaysOut(requirement, c, judge(requirement, c), row) ensures row in rows {
      assert IsOut(requirement, candidates, judge, row);
    }
    forall c <- candidates | judge(requirement, c).Eligible?
      ensures Ranked(c, judge(requirement, c).score, judge(requirement, c).context) in eligible
    {
      var row := OneVerdict(requirement, candidates, judge, c);
    }
  }

  lemma ConcludedHas(requirement: string, rejected: seq<Row>, eligible: seq<Ranked>)
    requires forall r <- rejected :: r.requirement == requirement && (r.status.Rejected? || r.status.Deferred?)
    ensures var rows := Concluded(requirement, rejected, eligible);
      && (forall r <- rejected :: r in rows) && (forall r <- rows :: r.requirement == requirement)
      && (eligible != [] ==>
            && rows[0].status == Selected && rows[0].capability.Some?
            && forall r <- eligible ::
                 || rows[0].capability == Some(r.item.id)
                 || Row(requirement, Rejected, Some(r.item.id), "lower-ranked than "
                   + rows[0].capability.value) in rows)
      && (forall r <- rows :: r.status == Gap ==>
        r == Row(requirement, Gap, None, "no policy-compliant local provider"))
  {
    hide RanksBefore, RowLe, LowerRanked, Sort;
    if eligible != [] {
      var ranked := Sort(eligible, RanksBefore);
      SortPermutes(eligible, RanksBefore);
      var lower := LowerRanked(requirement, ranked[1..], ranked[0].item);
      LowerAre(requirement, ranked);
      SortPermutes(rejected + lower, RowLe);
      var rows := Concluded(requirement, rejected, eligible);
      assert rows[1..] == Sort(rejected + lower, RowLe);
      assert rows == [rows[0]] + rows[1..];
      forall r <- lower ensures r in rejected + lower {}
    } else {
      SortPermutes(rejected, RowLe);
    }
  }

  lemma LowerAre(requirement: string, ranked: seq<Ranked>)
    requires ranked != []
    ensures var lower := LowerRanked(requirement, ranked[1..], ranked[0].item);
      && (forall r <- lower :: r.requirement == requirement && r.status.Rejected?)
      && forall r <- ranked ::
           || r == ranked[0]
           || Row(requirement, Rejected, Some(r.item.id), "lower-ranked than " + ranked[0].item.id) in lower
  {
    var lower := LowerRanked(requirement, ranked[1..], ranked[0].item);
    forall r <- ranked
      ensures r == ranked[0]
        || Row(requirement, Rejected, Some(r.item.id), "lower-ranked than " + ranked[0].item.id) in lower
    {
      var i :| 0 <= i < |ranked| && ranked[i] == r;
      if i > 0 { assert lower[i - 1] in lower; }
    }
  }

  /** Rows behind the selected one, and before a gap, come by capability, and by reason where one has several. */
  lemma RowsInOrder(requirement: string, candidates: seq<Item>, judge: Judge, i: nat, j: nat)
    requires i < j < |Resolved(requirement, candidates, judge)|
    ensures var a, b := Resolved(requirement, candidates, judge)[i], Resolved(requirement, candidates, judge)[j];
      || a.status.Selected? || b.status.Gap?
      || (&& a.capability.Some? && b.capability.Some? && StringLe(a.capability.value, b.capability.value)
          && (a.capability == b.capability ==> StringLe(a.reason, b.reason)))
  {
    hide Sifted, Concluded;
    SiftedNamed(requirement, candidates, judge);
    var (rejected, eligible) := Sifted(requirement, candidates, judge);
    ConcludedInOrder(requirement, rejected, eligible, i, j);
  }

  lemma ConcludedInOrder(requirement: string, rejected: seq<Row>, eligible: seq<Ranked>, i: nat, j: nat)
    requires (forall r <- rejected :: r.capability.Some?) && i < j < |Concluded(requirement, rejected, eligible)|
    ensures var a, b := Concluded(requirement, rejected, eligible)[i], Concluded(requirement, rejected, eligible)[j];
      || a.status.Selected? || b.status.Gap?
      || (&& a.capability.Some? && b.capability.Some? && StringLe(a.capability.value, b.capability.value)
          && (a.capability == b.capability ==> StringLe(a.reason, b.reason)))
  {
    hide RanksBefore, RowLe, LowerRanked, StringLe, Sort;
    var rows := Concluded(requirement, rejected, eligible);
    if eligible != [] {
      var ranked := Sort(eligible, RanksBefore);
      SortPermutes(eligible, RanksBefore);
      var lower := LowerRanked(requirement, ranked[1..], ranked[0].item);
      LowerAreNamed(requirement, ranked[1..], ranked[0].item);
      if i > 0 {
        SortedRows(rejected + lower, i - 1, j - 1);
        assert rows[i] == Sort(rejected + lower, RowLe)[i - 1] && rows[j] == Sort(rejected + lower, RowLe)[j - 1];
      }
    } else {
      var sorted := Sort(rejected, RowLe);
      assert rows == sorted || rows == sorted + [Row(requirement, Gap, None, GAP_REASON)];
      if j < |sorted| {
        SortedRows(rejected, i, j);
        assert rows[i] == sorted[i] && rows[j] == sorted[j];
      }
    }
  }

  lemma LowerAreNamed(requirement: string, rest: seq<Ranked>, winner: Item)
    ensures forall r <- LowerRanked(requirement, rest, winner) :: r.capability.Some?
  {
  }

  lemma SiftedNamed(requirement: string, candidates: seq<Item>, judge: Judge)
    ensures forall r <- Sifted(requirement, candidates, judge).0 :: r.capability.Some?
  {
    hide Sifted;
    SiftedAre(requirement, candidates, judge);
    forall r <- Sifted(requirement, candidates, judge).0 ensures r.capability.Some? {
      assert IsOut(requirement, candidates, judge, r);
    }
  }

  lemma SortedRows(rows: seq<Row>, i: nat, j: nat)
    requires (forall r <- rows :: r.capability.Some?) && i < j < |Sort(rows, RowLe)|
    ensures var a, b := Sort(rows, RowLe)[i], Sort(rows, RowLe)[j];
      && a.capability.Some? && b.capability.Some? && StringLe(a.capability.value, b.capability.value)
      && (a.capability == b.capability ==> StringLe(a.reason, b.reason))
  {
    RowLeIsPreorder();
    SortSorted(rows, RowLe);
    SortPermutes(rows, RowLe);
    var sorted := Sort(rows, RowLe);
    assert RowLe(sorted[i], sorted[j]) && sorted[i] in rows && sorted[j] in rows;
    StringLeTotal(sorted[i].capability.value, sorted[i].capability.value);
  }

  lemma RowLeIsPreorder()
    ensures TotalPreorder(RowLe)
  {
    hide StringLe;
    forall a, b ensures StringLe(a, b) || StringLe(b, a) { StringLeTotal(a, b); }
    forall a, b, c | StringLe(a, b) && StringLe(b, c) ensures StringLe(a, c) { StringLeTransitive(a, b, c); }
    forall a, b | StringLe(a, b) && StringLe(b, a) ensures a == b { StringLeAntisymmetric(a, b); }
  }

  lemma LowerAreRejected(requirement: string, rest: seq<Ranked>, winner: Item)
    ensures forall r <- LowerRanked(requirement, rest, winner) :: r.status.Rejected?
  {
  }

  lemma TailCounts(rows: seq<Row>)
    requires forall r <- rows :: r.status.Rejected? || r.status.Deferred?
    ensures CountOf(Sort(rows, RowLe), Selected) == 0 && CountOf(Sort(rows, RowLe), Gap) == 0
  {
    hide RowLe, CountOf;
    SortPermutes(rows, RowLe);
    CountNone(Sort(rows, RowLe), Selected);
    CountNone(Sort(rows, RowLe), Gap);
  }

  lemma FirstWins(eligible: seq<Ranked>)
    requires eligible != []
    ensures Sort(eligible, RanksBefore) != []
    ensures var w := Sort(eligible, RanksBefore)[0]; w in eligible && forall r <- eligible :: RanksBefore(w, r)
  {
    RanksIsPreorder();
    SortSorted(eligible, RanksBefore);
    SortPermutes(eligible, RanksBefore);
    var ranked := Sort(eligible, RanksBefore);
    assert ranked[0] in ranked;
    forall r <- eligible ensures RanksBefore(ranked[0], r) { LeastIsFirst(ranked, r, RanksBefore); }
  }

  // --- The inventory's order ---

  lemma {:induction false} OfferingIs(inventory: seq<Item>, requirement: string)
    ensures forall i :: i in Offering(inventory, requirement) <==> i in inventory && requirement in i.offers
    ensures forall i :: multiset(Offering(inventory, requirement))[i] == if requirement in i.offers
      then multiset(inventory)[i] else 0
  {
    if inventory != [] {
      var front, last := inventory[..|inventory| - 1], inventory[|inventory| - 1];
      OfferingIs(front, requirement);
      assert inventory == front + [last];
    }
  }

  /** What matches does not depend on the order of the inventory, when no id is in it twice. */
  lemma MatchingForgetsOrder(inventory: seq<Item>, other: seq<Item>, requirement: string)
    requires multiset(inventory) == multiset(other)
    requires forall a, b :: a in inventory && b in inventory && a.id == b.id ==> a == b
    ensures Matching(inventory, requirement) == Matching(other, requirement)
  {
    OfferingIs(inventory, requirement);
    OfferingIs(other, requirement);
    var xs, ys := Offering(inventory, requirement), Offering(other, requirement);
    assert multiset(xs) == multiset(ys);
    ByKeyIsPreorder(ItemKey);
    forall a, b | a in xs && b in xs && ByKey(ItemKey)(a, b) && ByKey(ItemKey)(b, a) ensures a == b {
      ByKeyIs(ItemKey, a, b);
      ByKeyIs(ItemKey, b, a);
      StringLeAntisymmetric(a.id, b.id);
    }
    SortForgetsOrder(xs, ys, ByKey(ItemKey));
  }

  /** The candidates for a requirement are those in the inventory that offer it, in the order of their ids. */
  lemma MatchingIs(inventory: seq<Item>, requirement: string)
    ensures var candidates := Matching(inventory, requirement);
      && (forall i :: multiset(candidates)[i] == if requirement in i.offers then multiset(inventory)[i] else 0)
      && forall a, b :: 0 <= a < b < |candidates| ==> StringLe(candidates[a].id, candidates[b].id)
  {
    var offering := Offering(inventory, requirement);
    OfferingIs(inventory, requirement);
    ByKeyIsPreorder(ItemKey);
    SortSorted(offering, ByKey(ItemKey));
    SortPermutes(offering, ByKey(ItemKey));
    var candidates := Matching(inventory, requirement);
    forall a, b | 0 <= a < b < |candidates| ensures StringLe(candidates[a].id, candidates[b].id) {
      ByKeyIs(ItemKey, candidates[a], candidates[b]);
    }
  }

  /** The plan takes the requirements in their order, each with all that matches it. */
  lemma {:induction false} PlanIs(requirements: seq<string>, inventory: seq<Item>, judge: Judge, k: nat)
    requires k < |requirements|
    ensures Plan(requirements, inventory, judge) ==
      Plan(requirements[..k], inventory, judge)
      + Resolved(requirements[k], Matching(inventory, requirements[k]), judge)
      + Plan(requirements[k + 1..], inventory, judge)
  {
    hide Resolved, Matching;
    var n := |requirements| - 1;
    if k == n {
      assert requirements[k + 1..] == [];
    } else {
      PlanIs(requirements[..n], inventory, judge, k);
      assert requirements[..n][..k] == requirements[..k];
      assert requirements[k + 1..][..n - k - 1] == requirements[..n][k + 1..];
    }
  }

  /** So the whole plan does not depend on it either, nor on the order of the requirements. */
  lemma PlanForgetsOrder(requirements: seq<string>, others: seq<string>, inventory: seq<Item>, other: seq<Item>,
                         judge: Judge)
    requires multiset(requirements) == multiset(others) && multiset(inventory) == multiset(other)
    requires forall a, b :: a in inventory && b in inventory && a.id == b.id ==> a == b
    ensures Plan(Sort(requirements, IdLe), inventory, judge) == Plan(Sort(others, IdLe), other, judge)
  {
    IdLeIsOrder();
    forall x, y | x in requirements && y in requirements && IdLe(x, y) && IdLe(y, x) ensures x == y {
      StringLeAntisymmetric(x, y);
    }
    SortForgetsOrder(requirements, others, IdLe);
    PlanOfSame(Sort(requirements, IdLe), inventory, other, judge);
  }

  lemma {:induction false} PlanOfSame(requirements: seq<string>, inventory: seq<Item>, other: seq<Item>, judge: Judge)
    requires multiset(inventory) == multiset(other)
    requires forall a, b :: a in inventory && b in inventory && a.id == b.id ==> a == b
    ensures Plan(requirements, inventory, judge) == Plan(requirements, other, judge)
  {
    hide Matching, Resolved;
    if requirements != [] {
      PlanOfSame(requirements[..|requirements| - 1], inventory, other, judge);
      MatchingForgetsOrder(inventory, other, requirements[|requirements| - 1]);
    }
  }
}
