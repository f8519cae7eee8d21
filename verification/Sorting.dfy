/** sort.Ints and sort.Strings: what sorting makes of a list, and that it depends on no order the list came in. */
module Sorting {
  import opened Basics

  ghost predicate TotalOrder<T(!new)>(leq: (T, T) -> bool) {
    && (forall x, y :: leq(x, y) || leq(y, x))
    && (forall x, y :: leq(x, y) && leq(y, x) ==> x == y)
    && (forall x, y, z :: leq(x, y) && leq(y, z) ==> leq(x, z))
  }

  predicate Ordered<T>(s: seq<T>, leq: (T, T) -> bool) { forall i, j :: 0 <= i < j < |s| ==> leq(s[i], s[j]) }

  function Insert<T>(s: seq<T>, v: T, leq: (T, T) -> bool): seq<T> {
    if s == [] || leq(v, s[0]) then [v] + s else [s[0]] + Insert(s[1..], v, leq)
  }

  function Sort<T>(s: seq<T>, leq: (T, T) -> bool): seq<T> {
    if s == [] then [] else Insert(Sort(s[..|s| - 1], leq), s[|s| - 1], leq)
  }

  lemma {:induction false} InsertKeeps<T(!new)>(s: seq<T>, v: T, leq: (T, T) -> bool)
    ensures multiset(Insert(s, v, leq)) == multiset(s) + multiset{v}
  {
    if s != [] && !leq(v, s[0]) {
      InsertKeeps(s[1..], v, leq);
      assert s == [s[0]] + s[1..];
    }
  }

  lemma {:induction false} InsertOrders<T(!new)>(s: seq<T>, v: T, leq: (T, T) -> bool)
    requires TotalOrder(leq) && Ordered(s, leq)
    ensures Ordered(Insert(s, v, leq), leq)
  {
    if s != [] && !leq(v, s[0]) {
      var rest := Insert(s[1..], v, leq);
      InsertOrders(s[1..], v, leq);
      InsertKeeps(s[1..], v, leq);
      forall i | 0 <= i < |rest| ensures leq(s[0], rest[i]) {
        assert rest[i] in multiset(rest);
        if rest[i] != v { assert rest[i] in s[1..]; }
      }
    }
  }

  /** Sorting orders a list and keeps what is in it, as often as it is. */
  lemma {:induction false} SortMeaning<T(!new)>(s: seq<T>, leq: (T, T) -> bool)
    requires TotalOrder(leq)
    ensures Ordered(Sort(s, leq), leq) && multiset(Sort(s, leq)) == multiset(s)
  {
    if s != [] {
      hide TotalOrder, Ordered, Insert;
      var n := |s| - 1;
      SortMeaning(s[..n], leq);
      InsertOrders(Sort(s[..n], leq), s[n], leq);
      InsertKeeps(Sort(s[..n], leq), s[n], leq);
      assert s == s[..n] + [s[n]];
    }
  }

  lemma SplitFirst<T>(s: seq<T>)
    requires s != []
    ensures s == [s[0]] + s[1..] && multiset(s) - multiset{s[0]} == multiset(s[1..])
  {
    assert s == [s[0]] + s[1..];
  }

  lemma FirstIsLeast<T(!new)>(s: seq<T>, x: T, leq: (T, T) -> bool)
    requires TotalOrder(leq) && Ordered(s, leq) && x in s
    ensures s != [] && leq(s[0], x)
  {
    var i :| 0 <= i < |s| && s[i] == x;
    assert leq(s[0], s[0]);
  }

  lemma SameFirst<T(!new)>(a: seq<T>, b: seq<T>, leq: (T, T) -> bool)
    requires TotalOrder(leq) && Ordered(a, leq) && Ordered(b, leq) && multiset(a) == multiset(b) && a != []
    ensures b != [] && a[0] == b[0]
  {
    assert a[0] in multiset(b);
    assert b != [] && b[0] in multiset(a);
    FirstIsLeast(b, a[0], leq);
    FirstIsLeast(a, b[0], leq);
  }

  /** There is only one ordered list of given elements. */
  lemma {:induction false} OrderedIsUnique<T(!new)>(a: seq<T>, b: seq<T>, leq: (T, T) -> bool)
    requires TotalOrder(leq) && Ordered(a, leq) && Ordered(b, leq) && multiset(a) == multiset(b)
    ensures a == b
  {
    if a == [] {
      assert |b| == |multiset(b)| == 0;
    } else {
      SameFirst(a, b, leq);
      SplitFirst(a);
      SplitFirst(b);
      OrderedIsUnique(a[1..], b[1..], leq);
    }
  }

  /** Lists of the same elements sort alike. */
  lemma SortIgnoresOrder<T(!new)>(a: seq<T>, b: seq<T>, leq: (T, T) -> bool)
    requires TotalOrder(leq) && multiset(a) == multiset(b)
    ensures Sort(a, leq) == Sort(b, leq)
  {
    SortMeaning(a, leq);
    SortMeaning(b, leq);
    OrderedIsUnique(Sort(a, leq), Sort(b, leq), leq);
  }

  // ---------- Sets in order ----------

  /** Every element of s once, in order: what sorting the keys of a Go map yields. */
  ghost predicate Arranges<T(!new)>(order: seq<T>, s: set<T>, leq: (T, T) -> bool) {
    Enumerates(order, s) && Ordered(order, leq)
  }

  lemma {:induction false} EnumerationMultiset<T(!new)>(order: seq<T>, s: set<T>)
    requires Enumerates(order, s)
    ensures multiset(order) == multiset(s)
    decreases |order|
  {
    if order == [] {
      assert s == {};
    } else {
      var n := |order| - 1;
      assert forall x :: x in s - {order[n]} <==> x in order[..n];
      EnumerationMultiset(order[..n], s - {order[n]});
      assert order == order[..n] + [order[n]];
    }
  }

  /** A list with the elements of a list that has each of them once has each of them once. */
  lemma PermutedEnumeration<T(!new)>(order: seq<T>, sorted: seq<T>, s: set<T>)
    requires Enumerates(order, s) && multiset(sorted) == multiset(order)
    ensures Enumerates(sorted, s)
  {
    EnumerationMultiset(order, s);
    forall x ensures x in s <==> x in sorted { assert x in sorted <==> x in multiset(sorted); }
    forall i, j | 0 <= i < j < |sorted| ensures sorted[i] != sorted[j] {
      if sorted[i] == sorted[j] { TwiceCounted(sorted, i, j); }
    }
  }

  lemma TwiceCounted<T>(s: seq<T>, i: nat, j: nat)
    requires i < j < |s| && s[i] == s[j]
    ensures multiset(s)[s[i]] >= 2
  {
    assert s == s[..j] + [s[j]] + s[j + 1..];
    assert s[i] in s[..j];
  }

  /** Ranging over a set in any order and sorting arranges it. */
  lemma SortArranges<T(!new)>(order: seq<T>, s: set<T>, leq: (T, T) -> bool)
    requires TotalOrder(leq) && Enumerates(order, s)
    ensures Arranges(Sort(order, leq), s, leq)
  {
    SortMeaning(order, leq);
    PermutedEnumeration(order, Sort(order, leq), s);
  }

  lemma ArrangesOneWay<T(!new)>(a: seq<T>, b: seq<T>, s: set<T>, leq: (T, T) -> bool)
    requires TotalOrder(leq) && Arranges(a, s, leq) && Arranges(b, s, leq)
    ensures a == b
  {
    EnumerationMultiset(a, s);
    EnumerationMultiset(b, s);
    OrderedIsUnique(a, b, leq);
  }

  // ---------- The two orders ----------

  predicate IntLeq(a: int, b: int) { a <= b }

  lemma ArrangementExists(s: set<string>)
    ensures exists order :: Arranges(order, s, TextLeq)
  {
    TextsAreOrdered();
    var order := SomeOrder(s);
    SortArranges(order, s, TextLeq);
  }

  /** The elements of a set of texts, each once, in order. */
  ghost function InOrder(s: set<string>): (order: seq<string>)
    ensures Arranges(order, s, TextLeq)
  {
    ArrangementExists(s);
    var order :| Arranges(order, s, TextLeq);
    order
  }

  /** Ranging over a set in any order and sorting gives its elements in order. */
  lemma SortedInOrder(order: seq<string>, s: set<string>)
    requires Enumerates(order, s)
    ensures Sort(order, TextLeq) == InOrder(s)
  {
    TextsAreOrdered();
    SortArranges(order, s, TextLeq);
    ArrangesOneWay(Sort(order, TextLeq), InOrder(s), s, TextLeq);
  }

  lemma IntsAreOrdered()
    ensures TotalOrder(IntLeq)
  {
  }

  /** Texts compare as sort.Strings has them: by the first character that differs, a shorter text first. */
  predicate TextLeq(a: string, b: string) {
    a == "" || (b != "" && (a[0] < b[0] || (a[0] == b[0] && TextLeq(a[1..], b[1..]))))
  }

  lemma {:induction false} TextLeqTotal(a: string, b: string)
    ensures TextLeq(a, b) || TextLeq(b, a)
    ensures TextLeq(a, b) && TextLeq(b, a) ==> a == b
  {
    if a != "" && b != "" && a[0] == b[0] {
      TextLeqTotal(a[1..], b[1..]);
      assert a == [a[0]] + a[1..] && b == [b[0]] + b[1..];
    }
  }

  lemma {:induction false} TextLeqTransitive(a: string, b: string, c: string)
    requires TextLeq(a, b) && TextLeq(b, c)
    ensures TextLeq(a, c)
  {
    if a != "" && a[0] == b[0] && b[0] == c[0] { TextLeqTransitive(a[1..], b[1..], c[1..]); }
  }

  lemma TextsAreOrdered()
    ensures TotalOrder(TextLeq)
  {
    forall a, b
      ensures TextLeq(a, b) || TextLeq(b, a)
      ensures TextLeq(a, b) && TextLeq(b, a) ==> a == b
    {
      TextLeqTotal(a, b);
    }
    forall a, b, c | TextLeq(a, b) && TextLeq(b, c) ensures TextLeq(a, c) { TextLeqTransitive(a, b, c); }
  }
}
