/** Small datatypes and sequence facts shared by the other modules. */
module Basics {

  datatype Option<+T> = None | Some(value: T)

  datatype Result<+T, +E> = Ok(value: T) | Err(error: E)

  /** `s` has no repeated element. */
  ghost predicate NoDup<T>(s: seq<T>) {
    forall i, j :: 0 <= i < j < |s| ==> s[i] != s[j]
  }

  /** A schedule: every index below `n`, each exactly once, in any order. */
  ghost predicate IsSchedule(order: seq<nat>, n: nat) {
    && NoDup(order)
    && (forall k :: 0 <= k < |order| ==> order[k] < n)
    && (forall i: nat {:trigger i in order} :: i < n ==> i in order)
  }

  /** Dropping the place of the last index leaves a schedule of the others. */
  lemma DropLast(order: seq<nat>, n: nat, k: nat)
    requires IsSchedule(order, n) && k < |order| && order[k] + 1 == n
    ensures IsSchedule(order[..k] + order[k + 1..], n - 1)
  {
    var rest := order[..k] + order[k + 1..];
    forall i: nat | i < n - 1
      ensures i in rest
    {
      assert i in order;
      var j :| 0 <= j < |order| && order[j] == i;
      assert rest[if j < k then j else j - 1] == i;
    }
  }

  /** Listing 0..n-1 without repetition takes exactly n entries. */
  lemma {:induction false} ScheduleLength(order: seq<nat>, n: nat)
    requires IsSchedule(order, n)
    ensures |order| == n
  {
    assert order == [] || order[0] < n;
    if n > 0 {
      var last: nat := n - 1;
      assert last in order;
      var k :| 0 <= k < |order| && order[k] == last;
      DropLast(order, n, k);
      ScheduleLength(order[..k] + order[k + 1..], n - 1);
    }
  }

  function Sum(weights: seq<nat>): nat {
    if weights == [] then 0 else Sum(weights[..|weights| - 1]) + weights[|weights| - 1]
  }

  /** The weights added up in the order of a schedule. */
  ghost function Total(weights: seq<nat>, order: seq<nat>): nat
    requires forall k :: 0 <= k < |order| ==> order[k] < |weights|
  {
    if order == [] then 0
    else Total(weights, order[..|order| - 1]) + weights[order[|order| - 1]]
  }

  lemma {:induction false} TotalConcat(weights: seq<nat>, a: seq<nat>, b: seq<nat>)
    requires forall k :: 0 <= k < |a| ==> a[k] < |weights|
    requires forall k :: 0 <= k < |b| ==> b[k] < |weights|
    ensures Total(weights, a + b) == Total(weights, a) + Total(weights, b)
  {
    if b == [] {
      assert a + b == a;
    } else {
      TotalConcat(weights, a, b[..|b| - 1]);
      assert (a + b)[..|a + b| - 1] == a + b[..|b| - 1];
    }
  }

  lemma {:induction false} TotalPrefix(weights: seq<nat>, n: nat, order: seq<nat>)
    requires n <= |weights| && forall k :: 0 <= k < |order| ==> order[k] < n
    ensures Total(weights[..n], order) == Total(weights, order)
  {
    if order != [] {
      TotalPrefix(weights, n, order[..|order| - 1]);
    }
  }

  lemma TotalAround(weights: seq<nat>, front: seq<nat>, i: nat, back: seq<nat>)
    requires i < |weights|
    requires forall k :: 0 <= k < |front| ==> front[k] < |weights|
    requires forall k :: 0 <= k < |back| ==> back[k] < |weights|
    ensures Total(weights, front + [i] + back) == Total(weights, front + back) + weights[i]
  {
    TotalConcat(weights, front + [i], back);
    TotalConcat(weights, front, [i]);
    TotalConcat(weights, front, back);
    assert [i][..0] == [];
  }

  /** The order of the workers does not change a sum. */
  lemma {:induction false} TotalOfSchedule(weights: seq<nat>, order: seq<nat>)
    requires IsSchedule(order, |weights|)
    ensures Total(weights, order) == Sum(weights)
    decreases |weights|
  {
    if weights == [] {
      ScheduleLength(order, 0);
    } else {
      var last: nat := |weights| - 1;
      assert last in order;
      var k :| 0 <= k < |order| && order[k] == last;
      var front, back := order[..k], order[k + 1..];
      DropLast(order, |weights|, k);
      TotalOfSchedule(weights[..last], front + back);
      TotalPrefix(weights, last, front + back);
      TotalAround(weights, front, last, back);
      assert order == front + [last] + back;
    }
  }
}
