/**
  The metric cards label a number with an if-cascade `if (x >= b0) return l0;
  if (x >= b1) return l1; ... return fallback`. Such a cascade is the
  first-match lookup in an ordered table of (lower bound, label) rows; this
  module states that lookup once and proves what every cascade inherits
  from it.
 */
module Thresholds {

  datatype Tier = Tier(bound: real, name: string)

  /** Index of the first row whose bound x reaches, or |table| when none does. */
  function TierIndex(table: seq<Tier>, x: real): (r: nat)
    ensures r <= |table|
    ensures forall i :: 0 <= i < r ==> x < table[i].bound
    ensures r < |table| ==> x >= table[r].bound
  {
    if table == [] then 0
    else if x >= table[0].bound then 0
    else 1 + TierIndex(table[1..], x)
  }

  /** The label the cascade returns for x. */
  function Classify(table: seq<Tier>, fallback: string, x: real): string
  {
    var i := TierIndex(table, x);
    if i < |table| then table[i].name else fallback
  }

  /** Rows ordered by strictly decreasing bound, as every cascade here is. */
  ghost predicate Descending(table: seq<Tier>)
  {
    forall i, j :: 0 <= i < j < |table| ==> table[i].bound > table[j].bound
  }

  /** A larger value never gets a later (worse) row. */
  lemma TierIndexMonotone(table: seq<Tier>, x: real, y: real)
    requires x <= y
    ensures TierIndex(table, y) <= TierIndex(table, x)
  {
    var ix := TierIndex(table, x);
    if ix < |table| {
      assert y >= table[ix].bound;
    }
  }

  /** In a descending table, row i is chosen exactly on [bound i, bound i-1). */
  lemma {:induction false} TierIndexInterval(table: seq<Tier>, x: real, i: nat)
    requires Descending(table) && i <= |table|
    ensures TierIndex(table, x) == i <==>
      (i < |table| ==> x >= table[i].bound) && (i > 0 ==> x < table[i - 1].bound)
  {
    if i > 0 && x < table[i - 1].bound {
      forall j | 0 <= j < i ensures x < table[j].bound {
        if j < i - 1 {
          assert table[j].bound > table[i - 1].bound;
        }
      }
    }
  }

  /** Every bound multiplied by m (the age multiplier of the velocity card). */
  function Scale(table: seq<Tier>, m: real): (r: seq<Tier>)
    ensures |r| == |table|
    ensures forall i :: 0 <= i < |r| ==> r[i] == Tier(table[i].bound * m, table[i].name)
  {
    seq(|table|, i requires 0 <= i < |table| => Tier(table[i].bound * m, table[i].name))
  }

  /** Lowering the bounds row by row never moves a value to a later row. */
  lemma LowerBoundsNoWorse(low: seq<Tier>, high: seq<Tier>, x: real)
    requires |low| == |high|
    requires forall i :: 0 <= i < |low| ==> low[i].bound <= high[i].bound
    ensures TierIndex(low, x) <= TierIndex(high, x)
  {
    var ih := TierIndex(high, x);
    if ih < |high| {
      assert x >= low[ih].bound;
    }
  }
}
