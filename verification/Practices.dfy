/** Practice packs: conflicts eliminated one after the other, requirements merged by capability. */
module Practices {
  import opened Wrappers
  import opened Ordering

  datatype Strength = Optional | Recommended | Required

  datatype Resolution = PreferSelf | PreferOther | Error

  datatype Requirement = Requirement(id: string, capability: string, strength: Strength, rationale: string)

  datatype Conflict = Conflict(pack: string, resolution: Resolution)

  /** An applicable pack: its requirements are those no exception suppresses. */
  datatype Pack = Pack(id: string, requirements: seq<Requirement>, conflicts: seq<Conflict>)

  datatype Override = Override(capability: string, enabled: bool, strength: Option<Strength>)

  datatype EvaluationError = PackConflict(source: string, target: string) | DuplicateOverride(capability: string)

  datatype Contribution = Contribution(pack: string, requirement: Requirement)

  datatype Merged = Merged(capability: string, strength: Strength, contributions: seq<Contribution>, overridden: bool)

  datatype Directive = Directive(source: string, target: string, resolution: Resolution)

  type Packs = map<string, Pack>

  // --- The applicable packs ---

  // {pack.pack_id: pack for pack in packs}
  function ById(packs: seq<Pack>): Packs {
    if packs == [] then map[] else ById(packs[..|packs| - 1])[packs[|packs| - 1].id := packs[|packs| - 1]]
  }

  ghost predicate DistinctIds(packs: seq<Pack>) {
    forall i, j :: 0 <= i < j < |packs| ==> packs[i].id != packs[j].id
  }

  lemma {:induction false} ByIdHolds(packs: seq<Pack>, i: nat)
    requires DistinctIds(packs) && i < |packs|
    ensures packs[i].id in ById(packs) && ById(packs)[packs[i].id] == packs[i]
  {
    if i < |packs| - 1 {
      ByIdHolds(packs[..|packs| - 1], i);
      assert packs[i].id != packs[|packs| - 1].id;
    }
  }

  lemma {:induction false} ByIdComesFrom(packs: seq<Pack>, id: string)
    requires id in ById(packs)
    ensures ById(packs)[id] in packs && ById(packs)[id].id == id
  {
    var front, last := packs[..|packs| - 1], packs[|packs| - 1];
    assert packs == front + [last];
    if id != last.id { ByIdComesFrom(front, id); }
  }

  /** Of several packs with one id, the last counts. */
  lemma {:induction false} LastPackCounts(packs: seq<Pack>, id: string)
    ensures id in ById(packs) <==> exists i :: 0 <= i < |packs| && packs[i].id == id
    ensures id in ById(packs) ==>
      exists i :: && 0 <= i < |packs| && packs[i].id == id && ById(packs)[id] == packs[i]
                  && forall k :: i < k < |packs| ==> packs[k].id != id
  {
    if packs != [] {
      var front, last := packs[..|packs| - 1], packs[|packs| - 1];
      LastPackCounts(front, id);
      assert forall i :: 0 <= i < |front| ==> front[i] == packs[i];
      if id != last.id && id in ById(front) {
        var i :| && 0 <= i < |front| && front[i].id == id && ById(front)[id] == front[i]
                 && forall k :: i < k < |front| ==> front[k].id != id;
        assert packs[i] == front[i];
      }
    }
  }

  lemma ByIdOf(packs: seq<Pack>, other: seq<Pack>, id: string)
    requires DistinctIds(other) && id in ById(packs) && forall p :: p in packs <==> p in other
    ensures id in ById(other) && ById(other)[id] == ById(packs)[id]
  {
    hide ById;
    ByIdComesFrom(packs, id);
    var i :| 0 <= i < |other| && other[i] == ById(packs)[id];
    ByIdHolds(other, i);
  }

  /** The order packs are given in makes no difference, when their ids are distinct. */
  lemma PackOrderIsForgotten(packs: seq<Pack>, other: seq<Pack>)
    requires DistinctIds(packs) && DistinctIds(other) && multiset(packs) == multiset(other)
    ensures ById(packs) == ById(other)
  {
    SameElements(packs, other);
    hide ById, DistinctIds;
    forall id <- ById(packs).Keys ensures id in ById(other) && ById(packs)[id] == ById(other)[id] {
      ByIdOf(packs, other, id);
    }
    forall id <- ById(other).Keys ensures id in ById(packs) { ByIdOf(other, packs, id); }
    assert ById(packs).Keys == ById(other).Keys;
  }

  // --- Conflicts ---

  function DirectivesOf(pack: Pack, applicable: Packs, n: nat): seq<Directive>
    requires n <= |pack.conflicts|
  {
    if n == 0 then []
    else
      var c := pack.conflicts[n - 1];
      DirectivesOf(pack, applicable, n - 1) + if c.pack in applicable then [Directive(pack.id, c.pack, c.resolution)]
        else []
  }

  function Directives(ids: seq<string>, applicable: Packs): seq<Directive>
    requires forall id <- ids :: id in applicable
  {
    if ids == [] then []
    else
      var pack := applicable[ids[|ids| - 1]];
      Directives(ids[..|ids| - 1], applicable) + DirectivesOf(pack.(id := ids[|ids| - 1]), applicable, |pack.conflicts|)
  }

  predicate Active(selected: Packs, d: Directive) { d.source in selected && d.target in selected }

  function Loser(d: Directive): string {
    if d.resolution.PreferSelf? then d.target else d.source
  }

  /** The packs left after the directives, or the first one that cannot be settled. */
  function Survivors(selected: Packs, directives: seq<Directive>): Result<Packs, EvaluationError> {
    if directives == [] then Ok(selected)
    else
      match Survivors(selected, directives[..|directives| - 1])
      case Err(e) => Err(e)
      case Ok(left) =>
        var d := directives[|directives| - 1];
        if !Active(left, d) then Ok(left)
        else if d.resolution.Error? then Err(PackConflict(d.source, d.target))
        else Ok(left - {Loser(d)})
  }

  method ApplyPackConflicts(applicable: Packs, ids: seq<string>) returns (r: Result<Packs, EvaluationError>)
    requires forall id :: id in ids <==> id in applicable
    ensures forall id <- Sort(ids, IdLe) :: id in applicable
    ensures r == Survivors(applicable, Directives(Sort(ids, IdLe), applicable))
  {
    hide IdLe, Sort, Survivors;
    var order := Sort(ids, IdLe);
    SortPermutes(ids, IdLe);
    var directives: seq<Directive> := [];
    for n := 0 to |order|
      invariant directives == Directives(order[..n], applicable)
    {
      assert order[..n + 1][..n] == order[..n];
      var more := DeclaredBy(applicable[order[n]].(id := order[n]), applicable);
      directives := directives + more;
    }
    assert order[..|order|] == order;
    r := Settle(applicable, directives);
  }

  method DeclaredBy(pack: Pack, applicable: Packs) returns (directives: seq<Directive>)
    ensures directives == DirectivesOf(pack, applicable, |pack.conflicts|)
  {
    directives := [];
    for k := 0 to |pack.conflicts|
      invariant directives == DirectivesOf(pack, applicable, k)
    {
      var c := pack.conflicts[k];
      if c.pack in applicable { directives := directives + [Directive(pack.id, c.pack, c.resolution)]; }
    }
  }

  method Settle(applicable: Packs, directives: seq<Directive>) returns (r: Result<Packs, EvaluationError>)
    ensures r == Survivors(applicable, directives)
  {
    var selected := applicable;
    for n := 0 to |directives|
      invariant Survivors(applicable, directives[..n]) == Ok(selected)
    {
      assert directives[..n + 1][..n] == directives[..n];
      var d := directives[n];
      if d.source !in selected || d.target !in selected { continue; }
      if d.resolution.Error? {
        ConflictIsFinal(applicable, directives, n + 1);
        return Err(PackConflict(d.source, d.target));
      }
      selected := selected - {if d.resolution.PreferSelf? then d.target else d.source};
    }
    assert directives[..|directives|] == directives;
    return Ok(selected);
  }

  lemma {:induction false} ConflictIsFinal(selected: Packs, directives: seq<Directive>, n: nat)
    requires n <= |directives| && Survivors(selected, directives[..n]).Err?
    ensures Survivors(selected, directives) == Survivors(selected, directives[..n])
    decreases |directives| - n
  {
    if n < |directives| {
      assert directives[..n + 1][..n] == directives[..n];
      ConflictIsFinal(selected, directives, n + 1);
    } else {
      assert directives[..n] == directives;
    }
  }

  /** Every pack left is unchanged, every declared conflict among them is gone, and if none was with itself, some
      pack is left. */
  lemma {:induction false} SurvivorsAgree(selected: Packs, directives: seq<Directive>)
    requires Survivors(selected, directives).Ok?
    ensures var left := Survivors(selected, directives).value;
      && left.Keys <= selected.Keys && (forall id <- left.Keys :: left[id] == selected[id])
      && (forall d <- directives :: !Active(left, d))
      && (selected != map[] && (forall d <- directives :: d.source != d.target) ==> left != map[])
  {
    if directives != [] {
      var front, d := directives[..|directives| - 1], directives[|directives| - 1];
      SurvivorsAgree(selected, front);
      assert directives == front + [d];
      var before, left := Survivors(selected, front).value, Survivors(selected, directives).value;
      assert forall e <- front :: !Active(left, e);
      if Active(before, d) && d.source != d.target {
        assert (if d.resolution.PreferSelf? then d.source else d.target) in left;
      }
    }
  }

  lemma {:induction false} DirectivesOfAre(pack: Pack, applicable: Packs, n: nat, d: Directive)
    requires n <= |pack.conflicts|
    ensures d in DirectivesOf(pack, applicable, n) <==>
      d.source == pack.id && d.target in applicable && Conflict(d.target, d.resolution) in pack.conflicts[..n]
  {
    if n > 0 {
      DirectivesOfAre(pack, applicable, n - 1, d);
      assert pack.conflicts[..n] == pack.conflicts[..n - 1] + [pack.conflicts[n - 1]];
    }
  }

  /** The directives are the conflicts that applicable packs declare with applicable packs. */
  lemma {:induction false} DirectivesAre(ids: seq<string>, applicable: Packs, d: Directive)
    requires forall id <- ids :: id in applicable
    ensures d in Directives(ids, applicable) <==>
      d.source in ids && d.target in applicable && Conflict(d.target, d.resolution) in applicable[d.source].conflicts
  {
    if ids != [] {
      var front, last := ids[..|ids| - 1], ids[|ids| - 1];
      assert ids == front + [last];
      DirectivesAre(front, applicable, d);
      var pack := applicable[last].(id := last);
      DirectivesOfAre(pack, applicable, |pack.conflicts|, d);
      assert pack.conflicts[..|pack.conflicts|] == pack.conflicts;
    }
  }

  /** No pack that is left declares a conflict with another that is left. */
  lemma NoConflictIsLeft(applicable: Packs, ids: seq<string>, a: string, c: Conflict)
    requires forall id :: id in ids <==> id in applicable
    requires forall id <- Sort(ids, IdLe) :: id in applicable
    requires Survivors(applicable, Directives(Sort(ids, IdLe), applicable)).Ok? && a in applicable
    requires a in Survivors(applicable, Directives(Sort(ids, IdLe), applicable)).value
    requires c in applicable[a].conflicts
    ensures c.pack !in Survivors(applicable, Directives(Sort(ids, IdLe), applicable)).value
  {
    hide IdLe, Sort, Survivors, Directives;
    SurvivorsAgree(applicable, Directives(Sort(ids, IdLe), applicable));
    SortPermutes(ids, IdLe);
    DirectivesAre(Sort(ids, IdLe), applicable, Directive(a, c.pack, c.resolution));
    var left := Survivors(applicable, Directives(Sort(ids, IdLe), applicable)).value;
    if c.pack in applicable { assert !Active(left, Directive(a, c.pack, c.resolution)); }
  }

  /** Every dropped pack lost to one that was still there when the directive between them came up. */
  lemma {:induction false} DroppedLost(selected: Packs, directives: seq<Directive>, id: string) returns (i: nat)
    requires Survivors(selected, directives).Ok? && id in selected && id !in Survivors(selected, directives).value
    ensures i < |directives| && Survivors(selected, directives[..i]).Ok?
    ensures var left, d := Survivors(selected, directives[..i]).value, directives[i];
      && d.source in left && d.target in left
      && (|| (d.resolution == PreferSelf && id == d.target)
          || (d.resolution == PreferOther && id == d.source))
  {
    var front := directives[..|directives| - 1];
    if id in Survivors(selected, front).value {
      i := |directives| - 1;
    } else {
      i := DroppedLost(selected, front, id);
      assert directives[..i] == front[..i];
    }
  }

  // Directive i settles nothing, and finds both its packs still there.
  ghost predicate Clash(selected: Packs, directives: seq<Directive>, i: nat)
    requires i < |directives|
  {
    && directives[i].resolution == Error && Survivors(selected, directives[..i]).Ok?
    && directives[i].source in Survivors(selected, directives[..i]).value
    && directives[i].target in Survivors(selected, directives[..i]).value
  }

  /** The evaluation fails exactly when a directive that settles nothing finds both its packs still there; and it names
      the two. */
  lemma {:induction false} FailsIff(selected: Packs, directives: seq<Directive>)
    ensures Survivors(selected, directives).Err? <==>
      exists i: nat :: i < |directives| && Clash(selected, directives, i)
    ensures forall i: nat :: i < |directives| && Clash(selected, directives, i) ==>
      Survivors(selected, directives) == Err(PackConflict(directives[i].source, directives[i].target))
  {
    if directives != [] {
      var n := |directives| - 1;
      FailsIff(selected, directives[..n]);
      ClashesBefore(selected, directives);
      hide Clash, Survivors;
      LastFails(selected, directives);
    }
  }

  lemma ClashesBefore(selected: Packs, directives: seq<Directive>)
    requires directives != []
    ensures var front := directives[..|directives| - 1];
      forall i: nat :: i < |front| ==> (Clash(selected, front, i) <==> Clash(selected, directives, i))
  {
    var front := directives[..|directives| - 1];
    forall i: nat | i < |front| ensures Clash(selected, front, i) <==> Clash(selected, directives, i) {
      assert front[..i] == directives[..i] && front[i] == directives[i];
    }
  }

  lemma LastFails(selected: Packs, directives: seq<Directive>)
    requires directives != []
    ensures var n := |directives| - 1; var d := directives[n];
      && (Survivors(selected, directives[..n]).Err? ==>
            Survivors(selected, directives) == Survivors(selected, directives[..n]) && !Clash(selected, directives, n))
      && (Survivors(selected, directives[..n]).Ok? ==>
            && (Survivors(selected, directives).Err? <==> Clash(selected, directives, n))
            && (Clash(selected, directives, n) ==>
                  Survivors(selected, directives) == Err(PackConflict(d.source, d.target))))
  {
    var n := |directives| - 1;
    assert directives[..n][..n] == directives[..n];
  }

  lemma {:induction false} DeclaredInOrder(pack: Pack, applicable: Packs, n: nat, i: nat, j: nat)
    returns (k: nat, l: nat)
    requires n <= |pack.conflicts| && i <= j < |DirectivesOf(pack, applicable, n)|
    ensures k <= l < n && (i < j ==> k < l)
    ensures DirectivesOf(pack, applicable, n)[i] ==
      Directive(pack.id, pack.conflicts[k].pack, pack.conflicts[k].resolution)
    ensures DirectivesOf(pack, applicable, n)[j] ==
      Directive(pack.id, pack.conflicts[l].pack, pack.conflicts[l].resolution)
  {
    var before := DirectivesOf(pack, applicable, n - 1);
    if j < |before| {
      k, l := DeclaredInOrder(pack, applicable, n - 1, i, j);
    } else if i < j {
      var last;
      k, last := DeclaredInOrder(pack, applicable, n - 1, i, i);
      l := n - 1;
    } else {
      k, l := n - 1, n - 1;
    }
  }

  lemma {:induction false} DirectiveSources(ids: seq<string>, applicable: Packs)
    requires forall id <- ids :: id in applicable
    ensures forall d <- Directives(ids, applicable) :: d.source in ids
  {
    forall d <- Directives(ids, applicable) ensures d.source in ids { DirectivesAre(ids, applicable, d); }
  }

  /** Directives come in the order of the packs that declare them, and those of one pack as it declares them: that is
      the order in which they are settled. */
  lemma {:induction false} DirectivesInOrder(ids: seq<string>, applicable: Packs, i: nat, j: nat)
    requires (forall id <- ids :: id in applicable) && Unique(ids) && Sorted(ids, IdLe)
    requires i < j < |Directives(ids, applicable)|
    ensures var d, e := Directives(ids, applicable)[i], Directives(ids, applicable)[j];
      && IdLe(d.source, e.source) && d.source in applicable
      && (d.source == e.source ==>
            exists k, l :: 0 <= k < l < |applicable[d.source].conflicts|
              && applicable[d.source].conflicts[k] == Conflict(d.target, d.resolution)
              && applicable[d.source].conflicts[l] == Conflict(e.target, e.resolution))
  {
    hide IdLe, DirectivesOf;
    IdLeIsOrder();
    var front, last := ids[..|ids| - 1], ids[|ids| - 1];
    var pack := applicable[last].(id := last);
    var before, own := Directives(front, applicable), DirectivesOf(pack, applicable, |pack.conflicts|);
    assert ids == front + [last] && Directives(ids, applicable) == before + own;
    DirectiveSources(front, applicable);
    if j < |before| {
      DirectivesInOrder(front, applicable, i, j);
    } else if i < |before| {
      var k, l := DeclaredInOrder(pack, applicable, |pack.conflicts|, j - |before|, j - |before|);
      var m :| 0 <= m < |front| && front[m] == before[i].source;
      assert ids[m] == before[i].source && ids[|ids| - 1] == last;
    } else {
      var k, l := DeclaredInOrder(pack, applicable, |pack.conflicts|, i - |before|, j - |before|);
      assert applicable[last].conflicts[k] == pack.conflicts[k] && applicable[last].conflicts[l] == pack.conflicts[l];
    }
  }

  // --- Requirements ---

  function Rank(s: Strength): nat {
    match s
    case Optional => 0
    case Recommended => 1
    case Required => 2
  }

  /** By pack, then by requirement. */
  predicate ContributionLe(a: Contribution, b: Contribution) {
    if a.pack != b.pack then IdLe(a.pack, b.pack) else IdLe(a.requirement.id, b.requirement.id)
  }

  lemma ContributionLeIsPreorder()
    ensures TotalPreorder(ContributionLe)
  {
    hide IdLe;
    IdLeIsOrder();
  }

  function Strongest(cs: seq<Contribution>): Strength
    requires cs != []
  {
    if |cs| == 1 then cs[0].requirement.strength
    else
      var earlier := Strongest(cs[..|cs| - 1]);
      if Rank(cs[|cs| - 1].requirement.strength) > Rank(earlier) then cs[|cs| - 1].requirement.strength else earlier
  }

  /** One capability's requirement; None if it is switched off. */
  function MergeRequirement(capability: string, cs: seq<Contribution>, override: Option<Override>): Option<Merged>
    requires cs != []
  {
    if override.Some? && !override.value.enabled then None
    else
      var ordered := Sort(cs, ContributionLe);
      SortPermutes(cs, ContributionLe);
      Some(Merged(capability,
                  if override.Some? && override.value.strength.Some? then override.value.strength.value
                    else Strongest(ordered),
                  ordered, override.Some?))
  }

  lemma {:induction false} StrongestIs(cs: seq<Contribution>)
    requires cs != []
    ensures exists c <- cs :: c.requirement.strength == Strongest(cs)
    ensures forall c <- cs :: Rank(c.requirement.strength) <= Rank(Strongest(cs))
  {
    if |cs| > 1 {
      StrongestIs(cs[..|cs| - 1]);
      assert cs == cs[..|cs| - 1] + [cs[|cs| - 1]];
    } else {
      assert cs[0] in cs;
    }
  }

  ghost predicate Listed(cs: seq<Contribution>) {
    forall i, j :: 0 <= i < j < |cs| ==>
      if cs[i].pack == cs[j].pack then StringLe(cs[i].requirement.id, cs[j].requirement.id)
      else StringLe(cs[i].pack, cs[j].pack)
  }

  lemma SortedAreListed(cs: seq<Contribution>)
    requires Sorted(cs, ContributionLe)
    ensures Listed(cs)
  {
    hide StringLe;
    forall i, j | 0 <= i < j < |cs|
      ensures if cs[i].pack == cs[j].pack then StringLe(cs[i].requirement.id, cs[j].requirement.id)
        else StringLe(cs[i].pack, cs[j].pack)
    {
      assert ContributionLe(cs[i], cs[j]);
    }
  }

  /** A merged requirement has the greatest strength contributed, from optional over recommended to required, unless an
      override sets another, whatever the order of contributions; and it lists them by pack and requirement. */
  lemma MergedIs(capability: string, cs: seq<Contribution>, other: seq<Contribution>, override: Option<Override>)
    requires cs != [] && other != [] && multiset(cs) == multiset(other)
    requires forall a, b :: a in cs && b in cs && a.pack == b.pack && a.requirement.id == b.requirement.id ==> a == b
    ensures MergeRequirement(capability, cs, override) == MergeRequirement(capability, other, override)
    ensures var m := MergeRequirement(capability, cs, override);
      && (m.None? <==> override.Some? && !override.value.enabled)
      && (m.Some? ==>
            && m.value.capability == capability && (m.value.overridden <==> override.Some?)
            && multiset(m.value.contributions) == multiset(cs) && Listed(m.value.contributions))
      && (m.Some? && (override.None? || override.value.strength.None?) ==>
            m.value.strength ==
              if exists c <- cs :: c.requirement.strength == Required then Required
              else if exists c <- cs :: c.requirement.strength == Recommended then Recommended else Optional)
      && (m.Some? && override.Some? && override.value.strength.Some? ==>
        m.value.strength == override.value.strength.value)
  {
    hide IdLe;
    IdLeIsOrder();
    ContributionLeIsPreorder();
    SortForgetsOrder(cs, other, ContributionLe);
    SortPermutes(cs, ContributionLe);
    SortSorted(cs, ContributionLe);
    SortedAreListed(Sort(cs, ContributionLe));
    StrongestIs(Sort(cs, ContributionLe));
  }

  // --- The whole evaluation ---

  // The keys of the dictionary of packs, in the order they first came.
  function PackIds(packs: seq<Pack>): (ids: seq<string>)
    ensures forall id :: id in ids <==> id in ById(packs)
  {
    if packs == [] then []
    else
      var front, last := PackIds(packs[..|packs| - 1]), packs[|packs| - 1];
      if last.id in front then front else front + [last.id]
  }

  function Left(ids: seq<string>, selected: Packs): (left: seq<string>)
    ensures forall id :: id in left <==> id in ids && id in selected
  {
    if ids == [] then []
    else if ids[0] in selected then [ids[0]] + Left(ids[1..], selected)
    else Left(ids[1..], selected)
  }

  function FromPack(pack: string, requirements: seq<Requirement>): seq<Contribution> {
    seq(|requirements|, i requires 0 <= i < |requirements| => Contribution(pack, requirements[i]))
  }

  function Contributions(ids: seq<string>, selected: Packs): seq<Contribution> {
    if ids == [] then []
    else
      var front, last := Contributions(ids[..|ids| - 1], selected), ids[|ids| - 1];
      if last in selected then front + FromPack(selected[last].id, selected[last].requirements) else front
  }

  function ForCapability(cs: seq<Contribution>, capability: string): (mine: seq<Contribution>)
    ensures forall c :: c in mine <==> c in cs && c.requirement.capability == capability
  {
    if cs == [] then []
    else
      var front, last := ForCapability(cs[..|cs| - 1], capability), cs[|cs| - 1];
      assert cs == cs[..|cs| - 1] + [last];
      if last.requirement.capability == capability then front + [last] else front
  }

  function Capabilities(cs: seq<Contribution>): (names: seq<string>)
    ensures forall n :: n in names <==> exists c <- cs :: c.requirement.capability == n
    ensures Unique(names)
  {
    if cs == [] then []
    else
      var front, last := Capabilities(cs[..|cs| - 1]), cs[|cs| - 1].requirement.capability;
      assert cs == cs[..|cs| - 1] + [cs[|cs| - 1]];
      if last in front then front else front + [last]
  }

  function OverrideFor(overrides: seq<Override>, capability: string): Option<Override> {
    if overrides == [] then None
    else if overrides[0].capability == capability then Some(overrides[0])
    else OverrideFor(overrides[1..], capability)
  }

  function RepeatedOverride(overrides: seq<Override>): Option<string> {
    if overrides == [] then None
    else
      var front, last := overrides[..|overrides| - 1], overrides[|overrides| - 1];
      if RepeatedOverride(front).Some? then RepeatedOverride(front)
      else if OverrideFor(front, last.capability).Some? then Some(last.capability)
      else None
  }

  function MergeEach(names: seq<string>, cs: seq<Contribution>, overrides: seq<Override>): seq<Merged> {
    if names == [] then []
    else
      var front, last := MergeEach(names[..|names| - 1], cs, overrides), names[|names| - 1];
      var mine := ForCapability(cs, last);
      if mine == [] then front
      else
        match MergeRequirement(last, mine, OverrideFor(overrides, last))
        case None => front
        case Some(m) => front + [m]
  }

  function Evaluated(packs: seq<Pack>, overrides: seq<Override>): Result<seq<Merged>, EvaluationError> {
    var applicable, ids := ById(packs), PackIds(packs);
    SortPermutes(ids, IdLe);
    match Survivors(applicable, Directives(Sort(ids, IdLe), applicable))
    case Err(e) => Err(e)
    case Ok(selected) =>
      var cs := Contributions(Sort(Left(ids, selected), IdLe), selected);
      if RepeatedOverride(overrides).Some? then Err(DuplicateOverride(RepeatedOverride(overrides).value))
      else Ok(MergeEach(Sort(Capabilities(cs), IdLe), cs, overrides))
  }

  method EvaluatePracticePacks(packs: seq<Pack>, overrides: seq<Override>)
    returns (r: Result<seq<Merged>, EvaluationError>)
    ensures r == Evaluated(packs, overrides)
  {
    hide IdLe, Sort, Survivors, Directives, MergeRequirement, ById;
    var applicable, ids := ById(packs), PackIds(packs);
    SortPermutes(ids, IdLe);
    var settled := ApplyPackConflicts(applicable, ids);
    if settled.Err? { return Err(settled.error); }
    var selected := settled.value;
    var order := Sort(Left(ids, selected), IdLe);
    var cs: seq<Contribution> := [];
    for n := 0 to |order|
      invariant cs == Contributions(order[..n], selected)
    {
      assert order[..n + 1][..n] == order[..n];
      if order[n] in selected { cs := cs + FromPack(selected[order[n]].id, selected[order[n]].requirements); }
    }
    assert order[..|order|] == order;
    if RepeatedOverride(overrides).Some? { return Err(DuplicateOverride(RepeatedOverride(overrides).value)); }
    var names := Sort(Capabilities(cs), IdLe);
    var merged: seq<Merged> := [];
    for n := 0 to |names|
      invariant merged == MergeEach(names[..n], cs, overrides)
    {
      assert names[..n + 1][..n] == names[..n];
      var mine := ForCapability(cs, names[n]);
      if mine == [] { continue; }
      var one := MergeRequirement(names[n], mine, OverrideFor(overrides, names[n]));
      if one.Some? { merged := merged + [one.value]; }
    }
    assert names[..|names|] == names;
    r := Ok(merged);
  }

  lemma {:induction false} PackIdsAreUnique(packs: seq<Pack>)
    ensures Unique(PackIds(packs))
  {
    if packs != [] { PackIdsAreUnique(packs[..|packs| - 1]); }
  }

  lemma {:induction false} LeftIsUnique(ids: seq<string>, selected: Packs)
    requires Unique(ids)
    ensures Unique(Left(ids, selected))
  {
    if ids != [] {
      assert forall i :: 0 <= i < |ids[1..]| ==> ids[1..][i] == ids[i + 1];
      LeftIsUnique(ids[1..], selected);
      assert ids[0] !in ids[1..];
    }
  }

  // Two lists of the same distinct strings sort alike.
  lemma SameStringsSortAlike(xs: seq<string>, ys: seq<string>)
    requires Unique(xs) && Unique(ys) && forall x :: x in xs <==> x in ys
    ensures Sort(xs, IdLe) == Sort(ys, IdLe)
  {
    hide IdLe;
    forall x ensures multiset(xs)[x] == multiset(ys)[x] {
      UniqueCount(xs, x);
      UniqueCount(ys, x);
      assert x in xs <==> x in multiset(xs);
      assert x in ys <==> x in multiset(ys);
    }
    assert multiset(xs) == multiset(ys);
    IdLeIsOrder();
    SortForgetsOrder(xs, ys, IdLe);
  }

  /** The whole evaluation does not depend on the order of the packs, when their ids are distinct. */
  lemma EvaluationForgetsOrder(packs: seq<Pack>, other: seq<Pack>, overrides: seq<Override>)
    requires DistinctIds(packs) && DistinctIds(other) && multiset(packs) == multiset(other)
    ensures Evaluated(packs, overrides) == Evaluated(other, overrides)
  {
    hide IdLe, Sort, Survivors, Directives, ById, PackIds, Left, DistinctIds, Contributions, MergeEach;
    PackOrderIsForgotten(packs, other);
    PackIdsAreUnique(packs);
    PackIdsAreUnique(other);
    SameStringsSortAlike(PackIds(packs), PackIds(other));
    var applicable, ids := ById(packs), PackIds(packs);
    SortPermutes(ids, IdLe);
    var settled := Survivors(applicable, Directives(Sort(ids, IdLe), applicable));
    if settled.Ok? {
      LeftIsUnique(ids, settled.value);
      LeftIsUnique(PackIds(other), settled.value);
      SameStringsSortAlike(Left(ids, settled.value), Left(PackIds(other), settled.value));
    }
  }

  lemma {:induction false} MergedOnce(names: seq<string>, cs: seq<Contribution>, overrides: seq<Override>, m: Merged)
    requires Unique(names) && forall n <- names :: ForCapability(cs, n) != []
    ensures m in MergeEach(names, cs, overrides) <==>
      m.capability in names
        && Some(m) ==
          MergeRequirement(m.capability, ForCapability(cs, m.capability), OverrideFor(overrides, m.capability))
    ensures |MergeEach(names, cs, overrides)| <= |names|
  {
    hide OverrideFor, ForCapability;
    if names != [] {
      var front, last := names[..|names| - 1], names[|names| - 1];
      assert names == front + [last];
      MergedOnce(front, cs, overrides, m);
    }
  }

  /** The override for a capability is the first that names it, if any does. */
  lemma {:induction false} OverrideForIs(overrides: seq<Override>, capability: string)
    ensures match OverrideFor(overrides, capability)
      case None => forall o <- overrides :: o.capability != capability
      case Some(o) =>
        exists i :: && 0 <= i < |overrides| && overrides[i] == o && o.capability == capability
                    && forall k :: 0 <= k < i ==> overrides[k].capability != capability
  {
    if overrides != [] && overrides[0].capability != capability {
      OverrideForIs(overrides[1..], capability);
      var o := OverrideFor(overrides[1..], capability);
      if o.Some? {
        var i :| 0 <= i < |overrides[1..]| && overrides[1..][i] == o.value
          && forall k :: 0 <= k < i ==> overrides[1..][k].capability != capability;
        assert overrides[i + 1] == o.value;
        assert forall k :: 0 < k < i + 1 ==> overrides[k] == overrides[1..][k - 1];
      }
    }
  }

  /** Overrides are refused if and only if two of them name the same capability. */
  lemma {:induction false} RepeatedIff(overrides: seq<Override>)
    ensures RepeatedOverride(overrides).Some? <==>
      exists i, j :: 0 <= i < j < |overrides| && overrides[i].capability == overrides[j].capability
    ensures RepeatedOverride(overrides).Some? ==>
      exists i, j :: 0 <= i < j < |overrides| && overrides[i].capability == overrides[j].capability
        == RepeatedOverride(overrides).value
  {
    if overrides != [] {
      var front, last := overrides[..|overrides| - 1], overrides[|overrides| - 1];
      RepeatedIff(front);
      OverrideForIs(front, last.capability);
      assert forall i :: 0 <= i < |front| ==> front[i] == overrides[i] && front[i] in front;
    }
  }

  /** An evaluation that fails does so over two packs that clash, or else over a repeated override. */
  lemma EvaluationFailsIff(packs: seq<Pack>, overrides: seq<Override>)
    ensures (SortPermutes(PackIds(packs), IdLe);
      var settled := Survivors(ById(packs), Directives(Sort(PackIds(packs), IdLe), ById(packs)));
      && (settled.Err? ==> Evaluated(packs, overrides) == Err(settled.error))
      && (Evaluated(packs, overrides).Err? <==>
            || settled.Err?
            || exists i, j :: 0 <= i < j < |overrides| && overrides[i].capability == overrides[j].capability))
  {
    hide Survivors, Directives, MergeEach, IdLe, Sort;
    RepeatedIff(overrides);
    SortPermutes(PackIds(packs), IdLe);
  }

  /** The result has one requirement for each capability contributed and not switched off, merged from all its
      contributions. */
  lemma EvaluatedIs(packs: seq<Pack>, overrides: seq<Override>, m: Merged) returns (cs: seq<Contribution>)
    requires Evaluated(packs, overrides).Ok?
    ensures m in Evaluated(packs, overrides).value <==>
      ForCapability(cs, m.capability) != []
      && Some(m) ==
        MergeRequirement(m.capability, ForCapability(cs, m.capability), OverrideFor(overrides, m.capability))
    ensures (SortPermutes(PackIds(packs), IdLe);
      var left := Survivors(ById(packs), Directives(Sort(PackIds(packs), IdLe), ById(packs)));
      && left.Ok?
      && (forall id <- left.value.Keys :: left.value[id] in packs && left.value[id].id == id)
      && (forall id <- left.value.Keys, q <- left.value[id].requirements :: Contribution(id, q) in cs)
      && (forall c <- cs :: c.pack in left.value && c.requirement in left.value[c.pack].requirements))
  {
    hide IdLe, Sort, Survivors, Directives, MergeRequirement, OverrideFor, ById, PackIds, Left, MergeEach;
    var applicable, ids := ById(packs), PackIds(packs);
    SortPermutes(ids, IdLe);
    var directives := Directives(Sort(ids, IdLe), applicable);
    var selected := Survivors(applicable, directives).value;
    SurvivorsAgree(applicable, directives);
    var order := Sort(Left(ids, selected), IdLe);
    cs := Contributions(order, selected);
    SortPermutes(Capabilities(cs), IdLe);
    SortUnique(Capabilities(cs), Sort(Capabilities(cs), IdLe));
    MergedOnce(Sort(Capabilities(cs), IdLe), cs, overrides, m);
    NamesAreContributed(cs, m.capability);
    SortPermutes(Left(ids, selected), IdLe);
    forall id <- selected.Keys ensures selected[id] in packs && selected[id].id == id { ByIdComesFrom(packs, id); }
    forall id <- selected.Keys, q <- selected[id].requirements ensures Contribution(id, q) in cs {
      assert id in ids && id in order;
      AllAreContributed(order, selected, id, q);
    }
    forall c <- cs ensures c.pack in selected && c.requirement in selected[c.pack].requirements {
      var id := ContributedBy(order, selected, c);
    }
  }

  // Requirements in the order of their capabilities, each of which has one.
  ghost predicate InOrder(merged: seq<Merged>) {
    forall i, j :: 0 <= i < j < |merged| ==>
      IdLe(merged[i].capability, merged[j].capability) && merged[i].capability != merged[j].capability
  }

  /** The result is in order, and no capability has two requirements in it. */
  lemma EvaluatedInOrder(packs: seq<Pack>, overrides: seq<Override>)
    requires Evaluated(packs, overrides).Ok?
    ensures InOrder(Evaluated(packs, overrides).value)
  {
    hide IdLe, Sort, Survivors, Directives, OverrideFor, ById, PackIds, Left, MergeEach;
    var applicable, ids := ById(packs), PackIds(packs);
    SortPermutes(ids, IdLe);
    var selected := Survivors(applicable, Directives(Sort(ids, IdLe), applicable)).value;
    var cs := Contributions(Sort(Left(ids, selected), IdLe), selected);
    var names := Capabilities(cs);
    IdLeIsOrder();
    SortSorted(names, IdLe);
    SortPermutes(names, IdLe);
    SortUnique(names, Sort(names, IdLe));
    MergedInOrder(Sort(names, IdLe), cs, overrides);
  }

  lemma {:induction false} MergedInOrder(names: seq<string>, cs: seq<Contribution>, overrides: seq<Override>)
    requires Unique(names) && Sorted(names, IdLe)
    ensures InOrder(MergeEach(names, cs, overrides))
    ensures forall m <- MergeEach(names, cs, overrides) :: m.capability in names
  {
    hide OverrideFor, ForCapability, IdLe;
    if names != [] {
      var front, last := names[..|names| - 1], names[|names| - 1];
      assert names == front + [last];
      MergedInOrder(front, cs, overrides);
      var merged := MergeEach(front, cs, overrides);
      forall i | 0 <= i < |merged|
        ensures merged[i].capability in front && IdLe(merged[i].capability, last) && merged[i].capability != last
      {
        assert merged[i] in merged;
        var k :| 0 <= k < |front| && front[k] == merged[i].capability;
        assert names[k] == front[k] && names[|names| - 1] == last;
      }
    }
  }

  lemma {:induction false} AllAreContributed(ids: seq<string>, selected: Packs, id: string, q: Requirement)
    requires id in ids && id in selected && q in selected[id].requirements
    ensures Contribution(selected[id].id, q) in Contributions(ids, selected)
  {
    var front, last := ids[..|ids| - 1], ids[|ids| - 1];
    assert ids == front + [last];
    if id == last {
      var i :| 0 <= i < |selected[id].requirements| && selected[id].requirements[i] == q;
      assert FromPack(selected[id].id, selected[id].requirements)[i] == Contribution(selected[id].id, q);
    } else {
      AllAreContributed(front, selected, id, q);
    }
  }

  lemma NamesAreContributed(cs: seq<Contribution>, name: string)
    ensures name in Capabilities(cs) <==> ForCapability(cs, name) != []
  {
    var mine := ForCapability(cs, name);
    if mine != [] { assert mine[0] in mine; }
    if name in Capabilities(cs) { var c :| c in cs && c.requirement.capability == name; assert c in mine; }
  }

  lemma {:induction false} ContributedBy(ids: seq<string>, selected: Packs, c: Contribution) returns (id: string)
    requires c in Contributions(ids, selected)
    ensures id in selected && c.pack == selected[id].id && c.requirement in selected[id].requirements
  {
    var front, last := ids[..|ids| - 1], ids[|ids| - 1];
    if c in Contributions(front, selected) {
      id := ContributedBy(front, selected, c);
    } else {
      id := last;
      var i :| 0 <= i < |selected[last].requirements|
        && FromPack(selected[last].id, selected[last].requirements)[i] == c;
    }
  }
}
