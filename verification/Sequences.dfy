/** Lists of lists: their elements in order, and the elements of some of them in another order. */
module Sequences {

  /** The elements of a list of lists, in order. */
  function Flatten<T>(xss: seq<seq<T>>): seq<T> {
    if xss == [] then [] else Flatten(xss[..|xss| - 1]) + xss[|xss| - 1]
  }

  lemma FlattenSnoc<T>(xss: seq<seq<T>>, xs: seq<T>)
    ensures Flatten(xss + [xs]) == Flatten(xss) + xs
  {
    assert (xss + [xs])[..|xss|] == xss;
  }

  lemma {:induction false} FlattenAppend<T>(a: seq<seq<T>>, b: seq<seq<T>>)
    ensures Flatten(a + b) == Flatten(a) + Flatten(b)
    decreases |b|
  {
    if b == [] {
      assert a + b == a;
    } else {
      var c, x := b[..|b| - 1], b[|b| - 1];
      FlattenAppend(a, c);
      FlattenAppendStep(a, c, x);
      assert b == c + [x];
    }
  }

  lemma FlattenAppendStep<T>(a: seq<seq<T>>, c: seq<seq<T>>, x: seq<T>)
    requires Flatten(a + c) == Flatten(a) + Flatten(c)
    ensures Flatten(a + (c + [x])) == Flatten(a) + Flatten(c + [x])
  {
    Associate(a, c, [x]);
    FlattenSnoc(a + c, x);
    FlattenSnoc(c, x);
    Associate(Flatten(a), Flatten(c), x);
  }

  lemma Associate<T>(a: seq<T>, b: seq<T>, c: seq<T>)
    ensures a + (b + c) == (a + b) + c
  {
  }

  lemma {:induction false} FlattenMember<T>(xss: seq<seq<T>>, x: T) returns (i: nat)
    requires x in Flatten(xss)
    ensures i < |xss| && x in xss[i]
  {
    i := |xss| - 1;
    if x !in xss[i] {
      i := FlattenMember(xss[..i], x);
    }
  }

  lemma {:induction false} FlattenHas<T>(xss: seq<seq<T>>, i: nat, x: T)
    requires i < |xss| && x in xss[i]
    ensures x in Flatten(xss)
  {
    if i < |xss| - 1 {
      FlattenHas(xss[..|xss| - 1], i, x);
    }
  }

  /** Where an element of one of the lists stands among all of them. */
  lemma FlattenAt<T>(xss: seq<seq<T>>, i: nat, k: nat)
    requires i < |xss| && k < |xss[i]|
    ensures |Flatten(xss[..i])| + k < |Flatten(xss)| && Flatten(xss)[|Flatten(xss[..i])| + k] == xss[i][k]
  {
    var a, x, b := xss[..i], xss[i], xss[i + 1..];
    assert xss == (a + [x]) + b;
    FlattenAppend(a + [x], b);
    FlattenSnoc(a, x);
  }

  /** Taking one list out takes exactly its elements out. */
  lemma FlattenRemove<T>(a: seq<seq<T>>, x: seq<T>, b: seq<seq<T>>)
    ensures multiset(Flatten(a + [x] + b)) == multiset(Flatten(a + b)) + multiset(x)
  {
    FlattenAppend(a + [x], b);
    FlattenSnoc(a, x);
    FlattenAppend(a, b);
  }

  // ---- some of the lists, in some order ----

  /** An order in which some of `n` things are done, none of them twice. */
  ghost predicate IsOrder(order: seq<nat>, n: nat) {
    && (forall i :: 0 <= i < |order| ==> order[i] < n)
    && (forall i, j :: 0 <= i < j < |order| ==> order[i] != order[j])
  }

  /** All of them are done. */
  ghost predicate IsComplete(order: seq<nat>, n: nat) {
    forall i: nat :: i < n ==> i in order
  }

  ghost function Picked<T>(xss: seq<seq<T>>, order: seq<nat>): (ps: seq<seq<T>>)
    requires forall i :: 0 <= i < |order| ==> order[i] < |xss|
    ensures |ps| == |order|
  {
    seq(|order|, i requires 0 <= i < |order| => xss[order[i]])
  }

  lemma PickOneMore<T>(xss: seq<seq<T>>, order: seq<nat>, i: nat)
    requires IsOrder(order, |xss|) && i < |xss| && i !in order
    ensures IsOrder(order + [i], |xss|)
    ensures Flatten(Picked(xss, order + [i])) == Flatten(Picked(xss, order)) + xss[i]
  {
    assert Picked(xss, order + [i]) == Picked(xss, order) + [xss[i]];
    FlattenSnoc(Picked(xss, order), xss[i]);
  }

  lemma PickedStays<T>(xss: seq<seq<T>>, order: seq<nat>, xs: seq<T>)
    requires IsOrder(order, |xss|)
    ensures IsOrder(order, |xss + [xs]|) && Picked(xss + [xs], order) == Picked(xss, order)
  {
  }

  lemma PickedUnchanged<T>(xss: seq<seq<T>>, order: seq<nat>, i: nat, xs: seq<T>)
    requires IsOrder(order, |xss|) && i < |xss| && i !in order
    ensures Picked(xss[i := xs], order) == Picked(xss, order)
  {
  }

  lemma PickedAround<T>(xss: seq<seq<T>>, order: seq<nat>, k: nat)
    requires k < |order| && IsOrder(order, |xss|)
    ensures IsOrder(order[..k] + order[k + 1..], |xss|)
    ensures multiset(Flatten(Picked(xss, order)))
            == multiset(Flatten(Picked(xss, order[..k] + order[k + 1..]))) + multiset(xss[order[k]])
  {
    var a, x, b := order[..k], order[k], order[k + 1..];
    assert order == (a + [x]) + b;
    PickedAppend(xss, a + [x], b);
    PickedAppend(xss, a, [x]);
    PickedAppend(xss, a, b);
    assert Picked(xss, [x]) == [xss[x]];
    FlattenRemove(Picked(xss, a), xss[x], Picked(xss, b));
  }

  lemma PickedAppend<T>(xss: seq<seq<T>>, a: seq<nat>, b: seq<nat>)
    requires forall i :: 0 <= i < |a| ==> a[i] < |xss|
    requires forall i :: 0 <= i < |b| ==> b[i] < |xss|
    ensures forall i :: 0 <= i < |a + b| ==> (a + b)[i] < |xss|
    ensures Picked(xss, a + b) == Picked(xss, a) + Picked(xss, b)
  {
  }

  lemma IndexOf(order: seq<nat>, x: nat) returns (j: nat)
    requires x in order
    ensures j < |order| && order[j] == x
  {
    j :| j < |order| && order[j] == x;
  }

  lemma WithoutLast(order: seq<nat>, n: nat, k: nat)
    requires n > 0 && IsOrder(order, n) && IsComplete(order, n) && k < |order| && order[k] == n - 1
    ensures IsOrder(order[..k] + order[k + 1..], n - 1) && IsComplete(order[..k] + order[k + 1..], n - 1)
  {
    var rest := order[..k] + order[k + 1..];
    forall i: nat | i < n - 1 ensures i in rest {
      var j := IndexOf(order, i);
      assert rest[if j < k then j else j - 1] == i;
    }
  }

  lemma NothingToDo(order: seq<nat>, n: nat)
    requires IsOrder(order, n)
    ensures order != [] ==> n > 0
  {
    if order != [] {
      assert order[0] < n;
    }
  }

  /** The lists picked have the elements of all lists, each as often as it occurs. */
  ghost predicate PicksAll<T>(xss: seq<seq<T>>, order: seq<nat>) {
    IsOrder(order, |xss|) && multiset(Flatten(Picked(xss, order))) == multiset(Flatten(xss))
  }

  /** Done in any order, all of them do. */
  lemma {:induction false} AllPicked<T>(xss: seq<seq<T>>, order: seq<nat>)
    requires IsOrder(order, |xss|) && IsComplete(order, |xss|)
    ensures PicksAll(xss, order)
    decreases |xss|
  {
    if xss == [] {
      NothingToDo(order, 0);
    } else {
      var before, last := xss[..|xss| - 1], xss[|xss| - 1];
      assert xss == before + [last];
      var rest := PickLast(before, last, order);
      AllPicked(before, rest);
      LastPicked(before, last, order, rest);
    }
  }

  /** The order without the last of the lists. */
  lemma PickLast<T>(before: seq<seq<T>>, last: seq<T>, order: seq<nat>) returns (rest: seq<nat>)
    requires IsOrder(order, |before| + 1) && IsComplete(order, |before| + 1)
    ensures IsOrder(rest, |before|) && IsComplete(rest, |before|) && PicksLast(before, last, order, rest)
  {
    var k := IndexOf(order, |before|);
    rest := order[..k] + order[k + 1..];
    WithoutLast(order, |before| + 1, k);
    PickedAround(before + [last], order, k);
  }

  /** The first order picks what the second does, and the last list. */
  ghost predicate PicksLast<T>(before: seq<seq<T>>, last: seq<T>, order: seq<nat>, rest: seq<nat>) {
    var xss := before + [last];
    && IsOrder(order, |xss|) && IsOrder(rest, |xss|)
    && multiset(Flatten(Picked(xss, order))) == multiset(Flatten(Picked(xss, rest))) + multiset(last)
  }

  lemma LastPicked<T>(before: seq<seq<T>>, last: seq<T>, order: seq<nat>, rest: seq<nat>)
    requires PicksAll(before, rest) && PicksLast(before, last, order, rest)
    ensures PicksAll(before + [last], order)
  {
    PickedStays(before, rest, last);
    FlattenSnoc(before, last);
  }
}
