/** Option and Result, and the few facts about sequences the other modules share. */
module Basics {
  datatype Option<+T> = None | Some(value: T)

  datatype Result<+T, +E> = Ok(value: T) | Err(error: E)

  /** Every element of s exactly once, in some order: what ranging over a Go map yields. */
  ghost predicate Enumerates<T(!new)>(order: seq<T>, s: set<T>) {
    && (forall i, j :: 0 <= i < j < |order| ==> order[i] != order[j])
    && (forall x :: x in s <==> x in order)
  }

  /** The keys of a Go map in the order one range over it happens to produce. */
  method RangeOver<T(==, !new)>(s: set<T>) returns (order: seq<T>)
    ensures Enumerates(order, s)
  {
    order := [];
    var todo := s;
    while todo != {}
      invariant todo <= s
      invariant forall i, j :: 0 <= i < j < |order| ==> order[i] != order[j]
      invariant forall x :: x in order <==> x in s && x !in todo
      decreases todo
    {
      var x :| x in todo;
      order := order + [x];
      todo := todo - {x};
    }
  }

  lemma TakeNext<T>(s: seq<T>, i: nat)
    requires i < |s|
    ensures s[..i + 1] == s[..i] + [s[i]]
  {
  }

  lemma {:induction false} SomeOrder<T(!new)>(s: set<T>) returns (order: seq<T>)
    ensures Enumerates(order, s)
    decreases s
  {
    order := [];
    if s != {} {
      var x :| x in s;
      var rest := SomeOrder(s - {x});
      order := rest + [x];
    }
  }
}
