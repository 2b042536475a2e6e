/** The local inventory: what adapters report, each capability accepted at most once. */
module Inventory {
  import opened Wrappers
  import opened Ordering

  datatype Scope = Project | User | OtherScope

  /** A scanned capability. functional is its normalised manifest without scope and source. */
  datatype Item = Item(id: string, scope: Scope, adapter: string, locator: string, functional: string,
    offers: set<string>, permissions: nat)

  /** A discovery; its scan gives an item or raises. */
  datatype Find = Find(locator: string, item: Option<Item>)

  /** An adapter; its discovery gives a list or raises. */
  datatype Adapter = Adapter(id: string, finds: Option<seq<Find>>)

  datatype Diagnostic =
    | DiscoveryFailed(adapter: string)
    | ScanFailed(adapter: string, locator: string)
    | DuplicateId(id: string, adapters: seq<string>)

  function AdapterKey(a: Adapter): string { a.id }

  function FindKey(f: Find): string { f.locator }

  function ItemKey(i: Item): string { i.id }

  // --- The order of what comes out ---

  /** By id, then adapter, then locator. */
  predicate ItemLe(a: Item, b: Item) {
    if a.id != b.id then IdLe(a.id, b.id)
    else if a.adapter != b.adapter then IdLe(a.adapter, b.adapter)
    else IdLe(a.locator, b.locator)
  }

  // Tuples of strings: the first difference decides, and a prefix comes first.
  predicate AllLe(a: seq<string>, b: seq<string>) {
    a == [] || (b != [] && if a[0] != b[0] then IdLe(a[0], b[0]) else AllLe(a[1..], b[1..]))
  }

  // The adapter a diagnostic is filed under, its code, and the capability and locator it names.
  function DiagnosticKey(d: Diagnostic): seq<string> {
    match d
    case DiscoveryFailed(adapter) => [adapter, "adapter_discovery_failed", "", ""]
    case ScanFailed(adapter, locator) => [adapter, "adapter_scan_failed", "", locator]
    case DuplicateId(id, adapters) => [if adapters == [] then "" else adapters[0], "duplicate_capability_id", id, ""]
  }

  function OtherAdapters(d: Diagnostic): seq<string> {
    if d.DuplicateId? then d.adapters else []
  }

  predicate DiagnosticLe(a: Diagnostic, b: Diagnostic) {
    if DiagnosticKey(a) != DiagnosticKey(b) then AllLe(DiagnosticKey(a), DiagnosticKey(b))
    else AllLe(OtherAdapters(a), OtherAdapters(b))
  }

  // --- Scanning ---

  function ScanFinds(adapter: string, finds: seq<Find>): (seq<Item>, seq<Diagnostic>) {
    if finds == [] then ([], [])
    else
      var (items, diagnostics) := ScanFinds(adapter, finds[..|finds| - 1]);
      var last := finds[|finds| - 1];
      if last.item.Some? then (items + [last.item.value], diagnostics)
      else (items, diagnostics + [ScanFailed(adapter, last.locator)])
  }

  function ScanAll(adapters: seq<Adapter>): (seq<Item>, seq<Diagnostic>) {
    if adapters == [] then ([], [])
    else
      var (items, diagnostics) := ScanAll(adapters[..|adapters| - 1]);
      var last := adapters[|adapters| - 1];
      if last.finds.None? then (items, diagnostics + [DiscoveryFailed(last.id)])
      else
        var (more, failed) := ScanFinds(last.id, Sort(last.finds.value, ByKey(FindKey)));
        (items + more, diagnostics + failed)
  }

  // --- Accepting ---

  /** All items of one id, in the order they were scanned. */
  function Group(scanned: seq<Item>, id: string): seq<Item> {
    if scanned == [] then []
    else
      var front, last := scanned[..|scanned| - 1], scanned[|scanned| - 1];
      if last.id == id then Group(front, id) + [last] else Group(front, id)
  }

  function ProjectItems(items: seq<Item>): seq<Item> {
    if items == [] then []
    else
      var front, last := items[..|items| - 1], items[|items| - 1];
      if last.scope.Project? then ProjectItems(front) + [last] else ProjectItems(front)
  }

  // The project's own copy of what a user has too, if all copies do the same.
  function ProjectShadow(items: seq<Item>): Option<Item> {
    var project := ProjectItems(items);
    if |project| != 1 || !(exists i <- items :: i.scope.User?) then None
    else if exists i <- items :: i.functional != project[0].functional then None
    else Some(project[0])
  }

  /** The item a group is accepted as; None if its id is reported as a duplicate. */
  function Accepted(items: seq<Item>): Option<Item>
    requires items != []
  {
    if |items| == 1 then Some(items[0]) else ProjectShadow(items)
  }

  function Ids(scanned: seq<Item>): seq<string> {
    if scanned == [] then []
    else
      var front, last := Ids(scanned[..|scanned| - 1]), scanned[|scanned| - 1];
      if last.id in front then front else front + [last.id]
  }

  function Adapters(items: seq<Item>): seq<string> {
    seq(|items|, i requires 0 <= i < |items| => items[i].adapter)
  }

  /** The diagnostic of a group that is not accepted. */
  function Duplicate(id: string, items: seq<Item>): Diagnostic {
    DuplicateId(id, Sort(Adapters(items), IdLe))
  }

  // Items accepted and ids reported, id by id.
  function Judged(scanned: seq<Item>, ids: seq<string>): (seq<Item>, seq<Diagnostic>) {
    if ids == [] then ([], [])
    else
      var (accepted, reported) := Judged(scanned, ids[..|ids| - 1]);
      var items := Group(scanned, ids[|ids| - 1]);
      if items == [] then (accepted, reported)
      else
        match Accepted(items)
        case Some(item) => (accepted + [item], reported)
        case None => (accepted, reported + [Duplicate(ids[|ids| - 1], items)])
  }

  /** The whole scan: what is accepted and what is reported, each in its order. */
  function Scanned(adapters: seq<Adapter>): (seq<Item>, seq<Diagnostic>) {
    var (scanned, failed) := ScanAll(Sort(adapters, ByKey(AdapterKey)));
    var (taken, reported) := Judged(scanned, Sort(Ids(scanned), IdLe));
    (Sort(taken, ItemLe), Sort(failed + reported, DiagnosticLe))
  }

  method Scan(adapters: seq<Adapter>) returns (accepted: seq<Item>, diagnostics: seq<Diagnostic>)
    ensures (accepted, diagnostics) == Scanned(adapters)
  {
    hide DiagnosticLe, ItemLe, Judged, Sort;
    var scanned: seq<Item> := [];
    diagnostics := [];
    var order := Sort(adapters, ByKey(AdapterKey));
    for n := 0 to |order|
      invariant ScanAll(order[..n]) == (scanned, diagnostics)
    {
      assert order[..n + 1][..n] == order[..n];
      if order[n].finds.None? {
        diagnostics := diagnostics + [DiscoveryFailed(order[n].id)];
        continue;
      }
      var items, failed := ScanDiscoveries(order[n].id, Sort(order[n].finds.value, ByKey(FindKey)));
      scanned, diagnostics := scanned + items, diagnostics + failed;
    }
    assert order[..|order|] == order;
    var reported;
    accepted, reported := Judge(scanned);
    accepted := Sort(accepted, ItemLe);
    diagnostics := Sort(diagnostics + reported, DiagnosticLe);
  }

  method ScanDiscoveries(adapter: string, finds: seq<Find>) returns (items: seq<Item>, failed: seq<Diagnostic>)
    ensures (items, failed) == ScanFinds(adapter, finds)
  {
    items, failed := [], [];
    for n := 0 to |finds|
      invariant (items, failed) == ScanFinds(adapter, finds[..n])
    {
      assert finds[..n + 1][..n] == finds[..n];
      if finds[n].item.Some? { items := items + [finds[n].item.value]; }
      else { failed := failed + [ScanFailed(adapter, finds[n].locator)]; }
    }
    assert finds[..|finds|] == finds;
  }

  method GroupById(scanned: seq<Item>) returns (byId: map<string, seq<Item>>, keys: seq<string>)
    ensures keys == Ids(scanned) && forall id :: id in byId <==> id in keys
    ensures forall id <- byId.Keys :: byId[id] == Group(scanned, id) && byId[id] != []
  {
    byId, keys := map[], [];
    for n := 0 to |scanned|
      invariant keys == Ids(scanned[..n])
      invariant forall id :: id in byId <==> id in keys
      invariant forall id <- byId.Keys :: byId[id] == Group(scanned[..n], id) && byId[id] != []
      invariant forall id :: id !in byId ==> Group(scanned[..n], id) == []
    {
      assert scanned[..n + 1][..n] == scanned[..n];
      var item := scanned[n];
      if item.id !in byId { keys := keys + [item.id]; }
      byId := byId[item.id := (if item.id in byId then byId[item.id] else []) + [item]];
    }
    assert scanned[..|scanned|] == scanned;
  }

  // Grouping into a dictionary, then one decision for each id.
  method Judge(scanned: seq<Item>) returns (accepted: seq<Item>, reported: seq<Diagnostic>)
    ensures (accepted, reported) == Judged(scanned, Sort(Ids(scanned), IdLe))
  {
    hide Accepted, IdLe, Group, Ids, Sort, Duplicate;
    var byId, keys := GroupById(scanned);
    var order := Sort(keys, IdLe);
    SortPermutes(keys, IdLe);
    accepted, reported := [], [];
    for n := 0 to |order|
      invariant (accepted, reported) == Judged(scanned, order[..n])
    {
      assert order[..n + 1][..n] == order[..n];
      assert order[n] in keys;
      var decision := Accepted(byId[order[n]]);
      if decision.Some? { accepted := accepted + [decision.value]; }
      else { reported := reported + [Duplicate(order[n], byId[order[n]])]; }
    }
    assert order[..|order|] == order;
  }

  lemma {:induction false} GroupOfId(scanned: seq<Item>, id: string)
    ensures id in Ids(scanned) <==> Group(scanned, id) != []
    ensures forall i :: i in Group(scanned, id) <==> i in scanned && i.id == id
  {
    if scanned != [] {
      GroupOfId(scanned[..|scanned| - 1], id);
      assert scanned == scanned[..|scanned| - 1] + [scanned[|scanned| - 1]];
    }
  }

  // --- What is accepted ---

  lemma {:induction false} ProjectItemsAre(items: seq<Item>)
    ensures forall i :: i in ProjectItems(items) <==> i in items && i.scope.Project?
    ensures multiset(ProjectItems(items)) <= multiset(items)
  {
    if items != [] {
      ProjectItemsAre(items[..|items| - 1]);
      assert items == items[..|items| - 1] + [items[|items| - 1]];
    }
  }

  /** A group is accepted as its only member, or as the one project copy among copies that all do the same. */
  lemma AcceptedIs(items: seq<Item>)
    requires items != [] && Accepted(items).Some?
    ensures var a := Accepted(items).value;
      && a in items
      && (|items| > 1 ==>
        a.scope.Project? && (exists i <- items :: i.scope.User?)
        && forall i <- items :: i.functional == a.functional)
      && (|items| > 1 ==> forall i <- items :: i.scope.Project? ==> i == a)
  {
    ProjectItemsAre(items);
    if |items| > 1 {
      assert ProjectItems(items)[0] in ProjectItems(items);
      forall i <- items | i.scope.Project? ensures i == Accepted(items).value { assert i in ProjectItems(items); }
    }
  }

  /** And every such group is accepted. */
  lemma AcceptedIff(items: seq<Item>, a: Item)
    requires items != []
    ensures Accepted(items) == Some(a) <==>
      || items == [a]
      || (&& |items| > 1 && a.scope.Project? && multiset(items)[a] == 1
          && (forall i <- items :: i.scope.Project? ==> i == a) && (exists i <- items :: i.scope.User?)
          && forall i <- items :: i.functional == a.functional)
  {
    hide ProjectShadow;
    if |items| == 1 { assert items == [items[0]]; } else { ShadowIff(items, a); }
  }

  lemma ShadowIff(items: seq<Item>, a: Item)
    ensures ProjectShadow(items) == Some(a) <==>
      (&& a.scope.Project? && multiset(items)[a] == 1
       && (forall i <- items :: i.scope.Project? ==> i == a) && (exists i <- items :: i.scope.User?)
       && forall i <- items :: i.functional == a.functional)
  {
    var project := ProjectItems(items);
    ProjectItemsAre(items);
    if a.scope.Project? {
      ProjectCount(items, a);
      if multiset(items)[a] == 1 && forall i <- items :: i.scope.Project? ==> i == a {
        OnlyOne(project, a);
        assert a in multiset(items);
        assert a in items;
      }
    }
    if |project| == 1 {
      assert project == [project[0]] && project[0] in project;
      if project[0] == a { assert multiset(project)[a] == 1; }
    }
  }

  lemma {:induction false} ProjectCount(items: seq<Item>, a: Item)
    requires a.scope.Project?
    ensures multiset(ProjectItems(items))[a] == multiset(items)[a]
  {
    if items != [] {
      ProjectCount(items[..|items| - 1], a);
      assert items == items[..|items| - 1] + [items[|items| - 1]];
    }
  }

  lemma OnlyOne(xs: seq<Item>, a: Item)
    requires (forall x <- xs :: x == a) && multiset(xs)[a] == 1
    ensures xs == [a]
  {
    assert a in multiset(xs);
    assert xs[0] in xs;
    if |xs| > 1 {
      assert xs[0] == xs[1] == a by { assert xs[1] in xs; }
      TwiceCounted(xs, 0, 1);
    }
  }

  // --- What is scanned ---

  /** Every discovery of every adapter gives its item or a diagnostic, every adapter that cannot discover gives one, and
      there is nothing else. */
  lemma {:induction false} ScannedIs(adapters: seq<Adapter>)
    ensures forall item :: item in ScanAll(adapters).0 <==> exists a <- adapters :: Finds(a, item)
    ensures forall d :: d in ScanAll(adapters).1 <==> exists a <- adapters :: FailsWith(a, d)
  {
    if adapters != [] {
      var front, a := adapters[..|adapters| - 1], adapters[|adapters| - 1];
      ScannedIs(front);
      assert adapters == front + [a] && a in adapters;
      OneScanned(a);
      hide Finds, FailsWith, ScanFinds, Sort;
      forall item ensures item in ScanAll(adapters).0 <==> item in ScanAll(front).0 || Finds(a, item) {}
      forall d ensures d in ScanAll(adapters).1 <==> d in ScanAll(front).1 || FailsWith(a, d) {}
    }
  }

  lemma OneScanned(a: Adapter)
    ensures a.finds.Some? ==>
      var (items, failed) := ScanFinds(a.id, Sort(a.finds.value, ByKey(FindKey)));
      && (forall item :: item in items <==> Finds(a, item)) && forall d :: d in failed <==> FailsWith(a, d)
    ensures a.finds.None? ==>
      (forall item :: !Finds(a, item)) && forall d :: FailsWith(a, d) <==> d == DiscoveryFailed(a.id)
  {
    hide Sort, ByKey;
    if a.finds.Some? {
      SortPermutes(a.finds.value, ByKey(FindKey));
      FoundIs(a.id, Sort(a.finds.value, ByKey(FindKey)));
    }
  }

  ghost predicate Finds(a: Adapter, item: Item) {
    a.finds.Some? && exists f <- a.finds.value :: f.item == Some(item)
  }

  ghost predicate FailsWith(a: Adapter, d: Diagnostic) {
    if a.finds.None? then d == DiscoveryFailed(a.id)
    else exists f <- a.finds.value :: f.item == None && d == ScanFailed(a.id, f.locator)
  }

  lemma {:induction false} FoundIs(adapter: string, finds: seq<Find>)
    ensures forall item :: item in ScanFinds(adapter, finds).0 <==> exists f <- finds :: f.item == Some(item)
    ensures forall d :: d in ScanFinds(adapter, finds).1 <==>
      exists f <- finds :: f.item == None && d == ScanFailed(adapter, f.locator)
    ensures |ScanFinds(adapter, finds).0| + |ScanFinds(adapter, finds).1| == |finds|
  {
    if finds != [] {
      var front, last := finds[..|finds| - 1], finds[|finds| - 1];
      FoundIs(adapter, front);
      assert finds == front + [last] && last in finds;
    }
  }

  /** A duplicate names its id and the adapters that reported it, in order. */
  lemma DuplicateIs(id: string, items: seq<Item>)
    ensures var d := Duplicate(id, items);
      && d.DuplicateId? && d.id == id && Sorted(d.adapters, IdLe)
      && |d.adapters| == |items| && forall a :: a in d.adapters <==> exists i <- items :: i.adapter == a
  {
    hide IdLe;
    IdLeIsOrder();
    SortSorted(Adapters(items), IdLe);
    SortPermutes(Adapters(items), IdLe);
    forall a ensures a in Adapters(items) <==> exists i <- items :: i.adapter == a {
      if i :| i in items && i.adapter == a {
        var k :| 0 <= k < |items| && items[k] == i;
        assert Adapters(items)[k] == a;
      }
    }
  }

  /** The id is reported. */
  ghost predicate Reported(diagnostics: seq<Diagnostic>, id: string) {
    exists d <- diagnostics :: d.DuplicateId? && d.id == id
  }

  lemma ReportedMore(diagnostics: seq<Diagnostic>, d: Diagnostic, id: string)
    ensures Reported(diagnostics + [d], id) <==> Reported(diagnostics, id) || (d.DuplicateId? && d.id == id)
  {
    if Reported(diagnostics, id) {
      var e :| e in diagnostics && e.DuplicateId? && e.id == id;
      assert e in diagnostics + [d];
    }
    assert d in diagnostics + [d];
  }

  lemma {:induction false} JudgedOne(scanned: seq<Item>, ids: seq<string>, id: string)
    requires Unique(ids) && forall i <- ids :: Group(scanned, i) != []
    ensures var (accepted, reported) := Judged(scanned, ids);
      && (forall a <- accepted :: a.id in ids && Accepted(Group(scanned, a.id)) == Some(a))
      && (id in ids && Accepted(Group(scanned, id)).Some? ==> Accepted(Group(scanned, id)).value in accepted)
      && (Reported(reported, id) <==> id in ids && Accepted(Group(scanned, id)).None?)
      && (forall d <- reported :: d.DuplicateId? && d == Duplicate(d.id, Group(scanned, d.id)))
      && |accepted| <= |ids| && forall i, j :: 0 <= i < j < |accepted| ==> accepted[i].id != accepted[j].id
  {
    hide Accepted, Reported;
    if ids == [] {
      NothingReported(id);
    } else {
      var front, last := ids[..|ids| - 1], ids[|ids| - 1];
      assert ids == front + [last];
      JudgedOne(scanned, front, id);
      ReportedMore(Judged(scanned, front).1, Duplicate(last, Group(scanned, last)), id);
      GroupOfId(scanned, last);
      if Accepted(Group(scanned, last)).Some? { AcceptedIs(Group(scanned, last)); }
    }
  }

  lemma NothingReported(id: string)
    ensures !Reported([], id)
  {
  }

  lemma {:induction false} IdsAreUnique(scanned: seq<Item>)
    ensures Unique(Ids(scanned))
  {
    if scanned != [] { IdsAreUnique(scanned[..|scanned| - 1]); }
  }

  lemma OrderedIds(scanned: seq<Item>)
    ensures var ids := Sort(Ids(scanned), IdLe);
      Unique(ids) && (forall i <- ids :: Group(scanned, i) != []) && forall i :: i in ids <==> Group(scanned, i) != []
  {
    IdsAreUnique(scanned);
    SortPermutes(Ids(scanned), IdLe);
    SortUnique(Ids(scanned), Sort(Ids(scanned), IdLe));
    forall i ensures i in Ids(scanned) <==> Group(scanned, i) != [] { GroupOfId(scanned, i); }
  }

  /** a is the project's copy of what item is elsewhere. */
  predicate Shadows(a: Item, item: Item) {
    a.id == item.id && a.scope.Project? && !item.scope.Project? && a.functional == item.functional
  }

  /** Each id is accepted at most once, and every scanned item is accepted, stands behind an equal project copy, or
      is reported. */
  lemma EveryItemIsAccountedFor(scanned: seq<Item>, item: Item)
    requires item in scanned
    ensures var (accepted, reported) := Judged(scanned, Sort(Ids(scanned), IdLe));
      && (forall i, j :: 0 <= i < j < |accepted| ==> accepted[i].id != accepted[j].id)
      && (forall a <- accepted :: a in scanned)
      && (Reported(reported, item.id) ==> forall a <- accepted :: a.id != item.id)
      && (!Reported(reported, item.id) ==> exists a <- accepted :: a == item || Shadows(a, item))
  {
    hide Accepted, IdLe, Reported, Judged, Ids, Shadows, Sort;
    var ids := Sort(Ids(scanned), IdLe);
    OrderedIds(scanned);
    JudgedOne(scanned, ids, item.id);
    GroupOfId(scanned, item.id);
    var items := Group(scanned, item.id);
    if Accepted(items).Some? { AcceptedStandsFor(items, item); }
    forall a <- Judged(scanned, ids).0 ensures a in scanned {
      GroupOfId(scanned, a.id);
      AcceptedIs(Group(scanned, a.id));
    }
  }

  // What a group is accepted as stands for every member of it.
  lemma AcceptedStandsFor(items: seq<Item>, item: Item)
    requires item in items && Accepted(items).Some? && forall i <- items :: i.id == item.id
    ensures Accepted(items).value == item || Shadows(Accepted(items).value, item)
  {
    AcceptedIs(items);
    if |items| == 1 { assert items[0] == item; }
  }

  lemma {:induction false} JudgedInOrder(scanned: seq<Item>, ids: seq<string>)
    requires Sorted(ids, IdLe) && forall i <- ids :: Group(scanned, i) != []
    ensures Sorted(Judged(scanned, ids).0, ByKey(ItemKey))
    ensures forall a <- Judged(scanned, ids).0 :: a.id in ids
  {
    hide Accepted, StringLe;
    if ids != [] {
      var front, last := ids[..|ids| - 1], ids[|ids| - 1];
      assert ids == front + [last];
      JudgedInOrder(scanned, front);
      var before := Judged(scanned, front).0;
      if Accepted(Group(scanned, last)).Some? {
        var item := Accepted(Group(scanned, last)).value;
        AcceptedIs(Group(scanned, last));
        GroupOfId(scanned, last);
        forall a <- before ensures ByKey(ItemKey)(a, item) {
          var k :| 0 <= k < |front| && front[k] == a.id;
          assert IdLe(ids[k], ids[|ids| - 1]);
          ByKeyIs(ItemKey, a, item);
        }
      }
    }
  }

  lemma DistinctlyAccepted(scanned: seq<Item>)
    ensures var accepted := Judged(scanned, Sort(Ids(scanned), IdLe)).0;
      forall i, j :: 0 <= i < j < |accepted| ==> accepted[i].id != accepted[j].id
  {
    hide Accepted, IdLe;
    OrderedIds(scanned);
    JudgedOne(scanned, Sort(Ids(scanned), IdLe), "");
  }

  /** What is accepted comes out in the order of ids, so that sorting it once more makes no difference. */
  lemma AcceptedAreInOrder(scanned: seq<Item>)
    ensures var accepted := Judged(scanned, Sort(Ids(scanned), IdLe)).0;
      Sorted(accepted, ByKey(ItemKey)) && Sort(accepted, ItemLe) == accepted
  {
    hide Judged, Accepted, IdLe, Ids, Sort;
    IdLeIsOrder();
    SortSorted(Ids(scanned), IdLe);
    OrderedIds(scanned);
    var accepted := Judged(scanned, Sort(Ids(scanned), IdLe)).0;
    JudgedInOrder(scanned, Sort(Ids(scanned), IdLe));
    DistinctlyAccepted(scanned);
    forall i, j | 0 <= i < j < |accepted| ensures ItemLe(accepted[i], accepted[j]) {
      assert ByKey(ItemKey)(accepted[i], accepted[j]);
      ByKeyIs(ItemKey, accepted[i], accepted[j]);
      IdLeIs(accepted[i].id, accepted[j].id);
    }
    forall a, b | a in accepted && b in accepted && ItemLe(a, b) && ItemLe(b, a) ensures a == b {
      TiesAreOne(accepted, a, b);
    }
    ItemLeIsPreorder();
    SortSorted(accepted, ItemLe);
    SortPermutes(accepted, ItemLe);
    SortedArrangementIsUnique(accepted, Sort(accepted, ItemLe), ItemLe);
  }

  lemma IdLeIs(a: string, b: string)
    ensures IdLe(a, b) == StringLe(a, b)
  {
  }

  lemma TiesAreOne(accepted: seq<Item>, a: Item, b: Item)
    requires forall i, j :: 0 <= i < j < |accepted| ==> accepted[i].id != accepted[j].id
    requires a in accepted && b in accepted && ItemLe(a, b) && ItemLe(b, a)
    ensures a == b
  {
    hide IdLe;
    IdLeIsOrder();
    var i :| 0 <= i < |accepted| && accepted[i] == a;
    var j :| 0 <= j < |accepted| && accepted[j] == b;
    assert a.id == b.id;
  }

  lemma ItemLeIsPreorder()
    ensures TotalPreorder(ItemLe)
  {
    hide IdLe;
    IdLeIsOrder();
  }

  // --- Diagnostics ---

  lemma {:induction false} AllLeTotal(a: seq<string>, b: seq<string>)
    ensures AllLe(a, b) || AllLe(b, a)
  {
    hide IdLe;
    IdLeIsOrder();
    if a != [] && b != [] { AllLeTotal(a[1..], b[1..]); }
  }

  lemma {:induction false} AllLeTransitive(a: seq<string>, b: seq<string>, c: seq<string>)
    requires AllLe(a, b) && AllLe(b, c)
    ensures AllLe(a, c)
  {
    hide IdLe;
    IdLeIsOrder();
    if a != [] && a[0] == b[0] == c[0] { AllLeTransitive(a[1..], b[1..], c[1..]); }
  }

  lemma {:induction false} AllLeAntisymmetric(a: seq<string>, b: seq<string>)
    requires AllLe(a, b) && AllLe(b, a)
    ensures a == b
  {
    hide IdLe;
    IdLeIsOrder();
    if a != [] {
      AllLeAntisymmetric(a[1..], b[1..]);
      assert a == [a[0]] + a[1..] && b == [b[0]] + b[1..];
    }
  }

  lemma DiagnosticLeIsPreorder()
    ensures TotalPreorder(DiagnosticLe)
  {
    hide AllLe, DiagnosticKey, OtherAdapters;
    forall a, b ensures DiagnosticLe(a, b) || DiagnosticLe(b, a) {
      AllLeTotal(DiagnosticKey(a), DiagnosticKey(b));
      AllLeTotal(OtherAdapters(a), OtherAdapters(b));
    }
    forall a, b, c | DiagnosticLe(a, b) && DiagnosticLe(b, c) ensures DiagnosticLe(a, c) {
      DiagnosticLeTransitive(a, b, c);
    }
  }

  lemma DiagnosticLeTransitive(a: Diagnostic, b: Diagnostic, c: Diagnostic)
    requires DiagnosticLe(a, b) && DiagnosticLe(b, c)
    ensures DiagnosticLe(a, c)
  {
    hide AllLe, DiagnosticKey, OtherAdapters;
    if DiagnosticKey(a) == DiagnosticKey(b) == DiagnosticKey(c) {
      AllLeTransitive(OtherAdapters(a), OtherAdapters(b), OtherAdapters(c));
    } else if DiagnosticKey(a) != DiagnosticKey(b) && DiagnosticKey(b) != DiagnosticKey(c) {
      AllLeTransitive(DiagnosticKey(a), DiagnosticKey(b), DiagnosticKey(c));
      if DiagnosticKey(a) == DiagnosticKey(c) { AllLeAntisymmetric(DiagnosticKey(a), DiagnosticKey(b)); }
    }
  }

  function FiledUnder(d: Diagnostic): string {
    match d
    case DiscoveryFailed(adapter) => adapter
    case ScanFailed(adapter, _) => adapter
    case DuplicateId(_, adapters) => if adapters == [] then "" else adapters[0]
  }

  /** The order of diagnostics: by adapter; for one adapter failed discoveries first, then failed scans by locator, then
      duplicates by id. */
  lemma DiagnosticOrderIs(a: Diagnostic, b: Diagnostic)
    requires DiagnosticLe(a, b)
    ensures StringLe(FiledUnder(a), FiledUnder(b))
    ensures FiledUnder(a) == FiledUnder(b) ==>
      match (a, b)
      case (DiscoveryFailed(_), _) => true
      case (ScanFailed(_, l), ScanFailed(_, m)) => StringLe(l, m)
      case (ScanFailed(_, _), DuplicateId(_, _)) => true
      case (DuplicateId(i, _), DuplicateId(j, _)) => StringLe(i, j)
      case _ => false
  {
    hide StringLe;
    CodesAreOrdered();
    IdLeIsOrder();
    var x, y := DiagnosticKey(a), DiagnosticKey(b);
    assert FiledUnder(a) == x[0] && FiledUnder(b) == y[0];
    if x != y {
      AllLeAt(x, y, if x[0] != y[0] then 0 else if x[1] != y[1] then 1 else if x[2] != y[2] then 2 else 3);
    }
    IdLeIs(x[0], y[0]);
    IdLeIs(x[1], y[1]);
    IdLeIs(x[2], y[2]);
    IdLeIs(x[3], y[3]);
  }

  lemma CodesAreOrdered()
    ensures var d, s, c := "adapter_discovery_failed", "adapter_scan_failed", "duplicate_capability_id";
      && !IdLe(s, d) && !IdLe(c, d) && !IdLe(c, s)
  {
    hide IdLe;
    var d, s, c := "adapter_discovery_failed", "adapter_scan_failed", "duplicate_capability_id";
    assert d[0] == s[0] == 'a' && d[1] == s[1] == 'd' && d[2] == s[2] == 'a' && d[3] == s[3] == 'p';
    assert d[4] == s[4] == 't' && d[5] == s[5] == 'e' && d[6] == s[6] == 'r' && d[7] == s[7] == '_';
    DiffersAt(d, s, 8);
    DiffersAt(d, c, 0);
    DiffersAt(s, c, 0);
  }

  lemma {:induction false} DiffersAt(a: string, b: string, k: nat)
    requires k < |a| && k < |b| && (forall i :: 0 <= i < k ==> a[i] == b[i]) && a[k] < b[k]
    ensures !IdLe(b, a)
  {
    if k > 0 {
      assert forall i :: 0 <= i < k - 1 ==> a[1..][i] == a[i + 1] && b[1..][i] == b[i + 1];
      DiffersAt(a[1..], b[1..], k - 1);
    }
  }

  // The first difference decides.
  lemma {:induction false} AllLeAt(x: seq<string>, y: seq<string>, k: nat)
    requires k < |x| && k < |y| && x[..k] == y[..k] && x[k] != y[k]
    ensures AllLe(x, y) <==> IdLe(x[k], y[k])
  {
    hide IdLe;
    if k > 0 {
      assert x[0] == x[..k][0] && y[0] == y[..k][0];
      assert x[1..][..k - 1] == x[..k][1..] && y[1..][..k - 1] == y[..k][1..];
      AllLeAt(x[1..], y[1..], k - 1);
    }
  }

  /** Nothing is lost and nothing added by the final sort, and diagnostics come out in order. */
  lemma DiagnosticsAreInOrder(adapters: seq<Adapter>)
    ensures var (scanned, failed) := ScanAll(Sort(adapters, ByKey(AdapterKey)));
      var reported := Judged(scanned, Sort(Ids(scanned), IdLe)).1;
      Sorted(Scanned(adapters).1, DiagnosticLe)
        && multiset(Scanned(adapters).1) == multiset(failed) + multiset(reported)
  {
    hide Judged, Ids, IdLe, DiagnosticLe, ScanAll, Sort;
    var (scanned, failed) := ScanAll(Sort(adapters, ByKey(AdapterKey)));
    var reported := Judged(scanned, Sort(Ids(scanned), IdLe)).1;
    DiagnosticLeIsPreorder();
    SortSorted(failed + reported, DiagnosticLe);
    SortPermutes(failed + reported, DiagnosticLe);
  }

  /** The scan does not depend on the order of the adapters, when their ids are distinct. */
  lemma ScanForgetsOrder(adapters: seq<Adapter>, other: seq<Adapter>)
    requires multiset(adapters) == multiset(other)
    requires forall a, b :: a in adapters && b in adapters && a.id == b.id ==> a == b
    ensures Scanned(adapters) == Scanned(other)
  {
    hide Judged, Ids, IdLe, DiagnosticLe, ItemLe, ScanAll;
    ByKeyIsPreorder(AdapterKey);
    forall a, b | a in adapters && b in adapters && ByKey(AdapterKey)(a, b) && ByKey(AdapterKey)(b, a) ensures a == b {
      ByKeyIs(AdapterKey, a, b);
      ByKeyIs(AdapterKey, b, a);
      StringLeAntisymmetric(a.id, b.id);
    }
    SortForgetsOrder(adapters, other, ByKey(AdapterKey));
  }
}
