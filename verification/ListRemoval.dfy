/** Python's list.remove, and what it does to a list without repetitions. */
module ListRemoval {
  predicate Unique(q: seq<nat>) {
    forall j, k :: 0 <= j < k < |q| ==> q[j] != q[k]
  }

  /** The first equal entry goes. */
  function RemoveFirst(q: seq<nat>, x: nat): seq<nat> {
    if q == [] then [] else if q[0] == x then q[1..] else [q[0]] + RemoveFirst(q[1..], x)
  }

  lemma {:induction false} RemoveFirstRemoves(q: seq<nat>, x: nat)
    requires Unique(q)
    ensures Unique(RemoveFirst(q, x)) && forall y :: y in RemoveFirst(q, x) <==> y in q && y != x
  {
    if q != [] {
      var rest := RemoveFirst(q[1..], x);
      RemoveFirstRemoves(q[1..], x);
      assert forall y :: y in q <==> y == q[0] || y in q[1..];
      assert q[0] !in q[1..] && forall k :: 0 <= k < |rest| ==> rest[k] in rest;
    }
  }

  /** The elements that are not gone, in order. */
  function Outside(q: seq<nat>, gone: set<nat>): seq<nat> {
    if q == [] then [] else (if q[0] in gone then [] else [q[0]]) + Outside(q[1..], gone)
  }

  lemma {:induction false} NoneGone(q: seq<nat>, gone: set<nat>)
    requires forall x :: x in q ==> x !in gone
    ensures Outside(q, gone) == q
  {
    if q != [] {
      NoneGone(q[1..], gone);
    }
  }

  lemma {:induction false} OutsideAppend(a: seq<nat>, b: seq<nat>, gone: set<nat>)
    ensures Outside(a + b, gone) == Outside(a, gone) + Outside(b, gone)
  {
    if a == [] {
      assert a + b == b;
    } else {
      assert (a + b)[1..] == a[1..] + b;
      OutsideAppend(a[1..], b, gone);
    }
  }

  lemma {:induction false} MoreGone(q: seq<nat>, gone: set<nat>, more: set<nat>)
    requires gone <= more
    ensures Outside(Outside(q, gone), more) == Outside(q, more)
  {
    if q != [] {
      MoreGone(q[1..], gone, more);
      OutsideAppend(if q[0] in gone then [] else [q[0]], Outside(q[1..], gone), more);
    }
  }

  /** Taking out what is gone before and after more is appended is taking it out in the end. */
  lemma OutsideChain(a: seq<nat>, b: seq<nat>, c: seq<nat>, gone: set<nat>, more: set<nat>)
    requires gone <= more
    ensures Outside(Outside(a + b, gone) + c, more) == Outside(a + (b + c), more)
  {
    OutsideAppend(Outside(a + b, gone), c, more);
    MoreGone(a + b, gone, more);
    OutsideAppend(a + b, c, more);
    assert a + (b + c) == a + b + c;
  }

  /** Removing the one element that is gone keeps the order of the others. */
  lemma {:induction false} RemoveIsOutside(q: seq<nat>, x: nat, gone: set<nat>)
    requires Unique(q) && x in gone && forall y :: y in q && y != x ==> y !in gone
    ensures RemoveFirst(q, x) == Outside(q, gone)
  {
    if q != [] {
      assert forall y :: y in q[1..] ==> y in q && y != q[0];
      if q[0] == x {
        NoneGone(q[1..], gone);
      } else {
        RemoveIsOutside(q[1..], x, gone);
      }
    }
  }
}
