/** Python's `sorted`: a stable sort by a total preorder, and the code-point order of strings. */
module Ordering {

  ghost predicate TotalPreorder<T(!new)>(le: (T, T) -> bool) {
    && (forall x, y :: le(x, y) || le(y, x))
    && (forall x, y, z :: le(x, y) && le(y, z) ==> le(x, z))
  }

  ghost predicate Sorted<T>(xs: seq<T>, le: (T, T) -> bool) {
    forall i, j :: 0 <= i < j < |xs| ==> le(xs[i], xs[j])
  }

  ghost predicate Unique<T>(xs: seq<T>) {
    forall i, j :: 0 <= i < j < |xs| ==> xs[i] != xs[j]
  }

  // Puts x before the first element that is not smaller than it.
  function Insert<T>(x: T, xs: seq<T>, le: (T, T) -> bool): seq<T> {
    if xs == [] then [x]
    else if le(x, xs[0]) then [x] + xs
    else [xs[0]] + Insert(x, xs[1..], le)
  }

  function Sort<T>(xs: seq<T>, le: (T, T) -> bool): seq<T> {
    if xs == [] then [] else Insert(xs[0], Sort(xs[1..], le), le)
  }

  lemma {:induction false} InsertPermutes<T>(x: T, xs: seq<T>, le: (T, T) -> bool)
    ensures multiset(Insert(x, xs, le)) == multiset{x} + multiset(xs)
    ensures |Insert(x, xs, le)| == |xs| + 1
  {
    if xs != [] {
      assert xs == [xs[0]] + xs[1..];
      InsertPermutes(x, xs[1..], le);
    }
  }

  lemma {:induction false} SortPermutes<T>(xs: seq<T>, le: (T, T) -> bool)
    ensures multiset(Sort(xs, le)) == multiset(xs)
    ensures |Sort(xs, le)| == |xs|
    ensures forall x :: x in Sort(xs, le) <==> x in xs
  {
    if xs != [] {
      assert xs == [xs[0]] + xs[1..];
      SortPermutes(xs[1..], le);
      InsertPermutes(xs[0], Sort(xs[1..], le), le);
    }
    SameElements(xs, Sort(xs, le));
  }

  lemma SameElements<T>(xs: seq<T>, ys: seq<T>)
    requires multiset(xs) == multiset(ys)
    ensures forall x :: x in xs <==> x in ys
  {
    forall x ensures x in xs <==> x in ys {
      assert x in xs <==> x in multiset(xs);
      assert x in ys <==> x in multiset(ys);
    }
  }

  lemma {:induction false} InsertSorted<T(!new)>(x: T, xs: seq<T>, le: (T, T) -> bool)
    requires TotalPreorder(le) && Sorted(xs, le)
    ensures Sorted(Insert(x, xs, le), le)
  {
    if xs == [] {
    } else if le(x, xs[0]) {
      forall j | 0 <= j < |xs| ensures le(x, xs[j]) {
        if j > 0 { assert le(xs[0], xs[j]); }
      }
    } else {
      InsertSorted(x, xs[1..], le);
      InsertPermutes(x, xs[1..], le);
      var tail := Insert(x, xs[1..], le);
      assert xs == [xs[0]] + xs[1..];
      forall j | 0 <= j < |tail| ensures le(xs[0], tail[j]) {
        assert tail[j] in multiset(tail);
        if tail[j] != x {
          assert tail[j] in multiset(xs[1..]);
          var k :| 0 <= k < |xs[1..]| && xs[1..][k] == tail[j];
          assert le(xs[0], xs[k + 1]);
        }
      }
    }
  }

  lemma {:induction false} SortSorted<T(!new)>(xs: seq<T>, le: (T, T) -> bool)
    requires TotalPreorder(le)
    ensures Sorted(Sort(xs, le), le)
  {
    if xs != [] {
      SortSorted(xs[1..], le);
      InsertSorted(xs[0], Sort(xs[1..], le), le);
    }
  }

  /** Sorting keeps elements distinct. */
  lemma SortUnique<T(!new)>(xs: seq<T>, ys: seq<T>)
    requires multiset(xs) == multiset(ys) && Unique(xs)
    ensures Unique(ys)
  {
    forall i, j | 0 <= i < j < |ys| ensures ys[i] != ys[j] {
      if ys[i] == ys[j] {
        TwiceCounted(ys, i, j);
        UniqueCount(xs, ys[i]);
        assert false;
      }
    }
  }

  lemma TwiceCounted<T>(ys: seq<T>, i: int, j: int)
    requires 0 <= i < j < |ys| && ys[i] == ys[j]
    ensures multiset(ys)[ys[i]] >= 2
  {
    assert ys == ys[..i] + [ys[i]] + ys[i + 1..j] + [ys[j]] + ys[j + 1..];
  }

  lemma {:induction false} UniqueCount<T>(xs: seq<T>, x: T)
    requires Unique(xs)
    ensures multiset(xs)[x] <= 1
  {
    if xs != [] {
      assert xs == [xs[0]] + xs[1..];
      UniqueCount(xs[1..], x);
      assert forall k :: 0 <= k < |xs[1..]| ==> xs[1..][k] == xs[k + 1];
      assert xs[0] !in xs[1..];
    }
  }

  lemma LeastIsFirst<T(!new)>(xs: seq<T>, x: T, le: (T, T) -> bool)
    requires TotalPreorder(le) && Sorted(xs, le) && x in xs
    ensures le(xs[0], x)
  {
    var i :| 0 <= i < |xs| && xs[i] == x;
    assert le(xs[0], xs[i]) || i == 0;
    assert le(x, x);
  }

  lemma TailElements<T>(xs: seq<T>)
    requires xs != []
    ensures multiset(xs[1..]) == multiset(xs) - multiset{xs[0]}
    ensures forall x :: x in xs[1..] ==> x in xs
  {
    assert xs == [xs[0]] + xs[1..];
  }

  // The first elements of two such arrangements agree, and so do the elements of the tails.
  lemma SameFirst<T(!new)>(xs: seq<T>, ys: seq<T>, le: (T, T) -> bool)
    requires TotalPreorder(le) && multiset(xs) == multiset(ys) && xs != [] && ys != []
    requires Sorted(xs, le) && Sorted(ys, le)
    requires forall x, y :: x in xs && y in xs && le(x, y) && le(y, x) ==> x == y
    ensures xs[0] == ys[0] && multiset(xs[1..]) == multiset(ys[1..])
  {
    SameElements(xs, ys);
    assert ys[0] in ys && xs[0] in xs;
    LeastIsFirst(xs, ys[0], le);
    LeastIsFirst(ys, xs[0], le);
    TailElements(xs);
    TailElements(ys);
  }

  lemma TailIsSorted<T(!new)>(xs: seq<T>, le: (T, T) -> bool)
    requires Sorted(xs, le) && xs != []
    ensures Sorted(xs[1..], le) && forall x <- xs[1..] :: x in xs
  {
    assert forall i :: 0 <= i < |xs[1..]| ==> xs[1..][i] == xs[i + 1];
  }

  /** Two sorted arrangements of the same elements agree when no two distinct elements tie. */
  lemma {:induction false} SortedArrangementIsUnique<T(!new)>(xs: seq<T>, ys: seq<T>, le: (T, T) -> bool)
    requires TotalPreorder(le) && multiset(xs) == multiset(ys)
    requires Sorted(xs, le) && Sorted(ys, le)
    requires forall x, y :: x in xs && y in xs && le(x, y) && le(y, x) ==> x == y
    ensures xs == ys
  {
    hide TotalPreorder, Sorted;
    assert |xs| == |multiset(xs)| == |multiset(ys)| == |ys|;
    if xs != [] {
      SameFirst(xs, ys, le);
      TailIsSorted(xs, le);
      TailIsSorted(ys, le);
      SortedArrangementIsUnique(xs[1..], ys[1..], le);
      assert xs == [xs[0]] + xs[1..] && ys == [ys[0]] + ys[1..];
    }
  }

  /** Sorting forgets the order of its input when no two distinct elements tie. */
  lemma SortForgetsOrder<T(!new)>(xs: seq<T>, ys: seq<T>, le: (T, T) -> bool)
    requires TotalPreorder(le) && multiset(xs) == multiset(ys)
    requires forall x, y :: x in xs && y in xs && le(x, y) && le(y, x) ==> x == y
    ensures Sort(xs, le) == Sort(ys, le)
  {
    SortSorted(xs, le);
    SortSorted(ys, le);
    SortPermutes(xs, le);
    SortPermutes(ys, le);
    SortedArrangementIsUnique(Sort(xs, le), Sort(ys, le), le);
  }

  // --- Strings, compared code point by code point ---

  predicate StringLe(a: string, b: string) {
    a == [] || (b != [] && (a[0] < b[0] || (a[0] == b[0] && StringLe(a[1..], b[1..]))))
  }

  lemma {:induction false} StringLeTotal(a: string, b: string)
    ensures StringLe(a, b) || StringLe(b, a)
  {
    if a != [] && b != [] && a[0] == b[0] { StringLeTotal(a[1..], b[1..]); }
  }

  lemma {:induction false} StringLeTransitive(a: string, b: string, c: string)
    requires StringLe(a, b) && StringLe(b, c)
    ensures StringLe(a, c)
  {
    if a != [] && a[0] == b[0] && b[0] == c[0] { StringLeTransitive(a[1..], b[1..], c[1..]); }
  }

  lemma {:induction false} StringLeAntisymmetric(a: string, b: string)
    requires StringLe(a, b) && StringLe(b, a)
    ensures a == b
  {
    if a != [] {
      StringLeAntisymmetric(a[1..], b[1..]);
      assert a == [a[0]] + a[1..] && b == [b[0]] + b[1..];
    }
  }

  /** A prefix comes first. */
  lemma {:induction false} StringLePrefix(a: string, b: string)
    requires a <= b
    ensures StringLe(a, b)
  {
    if a != [] { StringLePrefix(a[1..], b[1..]); }
  }

  /** Behind a common beginning, the smaller character comes first. */
  lemma {:induction false} StringLeAt(front: string, c: char, s: string, d: char, t: string)
    requires c < d
    ensures StringLe(front + [c] + s, front + [d] + t) && !StringLe(front + [d] + t, front + [c] + s)
  {
    var x, y := front + [c] + s, front + [d] + t;
    if front == "" {
      assert x[0] == c && y[0] == d;
    } else {
      StringLeAt(front[1..], c, s, d, t);
      assert x[1..] == front[1..] + [c] + s && y[1..] == front[1..] + [d] + t;
    }
  }

  /** The order of ids and names. */
  predicate IdLe(a: string, b: string) { StringLe(a, b) }

  lemma IdLeIsOrder()
    ensures TotalPreorder(IdLe) && forall a, b :: IdLe(a, b) && IdLe(b, a) ==> a == b
  {
    forall a, b ensures IdLe(a, b) || IdLe(b, a) { StringLeTotal(a, b); }
    forall a, b, c | IdLe(a, b) && IdLe(b, c) ensures IdLe(a, c) { StringLeTransitive(a, b, c); }
    forall a, b | IdLe(a, b) && IdLe(b, a) ensures a == b { StringLeAntisymmetric(a, b); }
  }

  /** Ordering records by a string key. */
  function ByKey<T>(key: T -> string): (T, T) -> bool {
    (x, y) => StringLe(key(x), key(y))
  }

  lemma ByKeyIs<T>(key: T -> string, x: T, y: T)
    ensures ByKey(key)(x, y) == StringLe(key(x), key(y))
  {
  }

  lemma ByKeyIsPreorder<T(!new)>(key: T -> string)
    ensures TotalPreorder(ByKey(key))
  {
    forall x, y ensures ByKey(key)(x, y) || ByKey(key)(y, x) { StringLeTotal(key(x), key(y)); }
    forall x, y, z | ByKey(key)(x, y) && ByKey(key)(y, z) ensures ByKey(key)(x, z) {
      StringLeTransitive(key(x), key(y), key(z));
    }
  }
}
