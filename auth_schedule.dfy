/**
 * The staggered schedule of the two authentication animations: step `k`
 * of a sequence is shown after a cumulative delay, each step adding a fixed
 * minimum plus a random share of a spread (`delay += min + random * spread`).
 */
module AuthSchedule {

  predicate ValidDraws(rs: seq<real>)
  {
    forall k :: 0 <= k < |rs| ==> 0.0 <= rs[k] < 1.0
  }

  /** The delay after all draws of `rs`: each adds `min + spread * draw`. */
  function Total(rs: seq<real>, min: real, spread: real): real
  {
    if rs == [] then 0.0 else Total(rs[..|rs| - 1], min, spread) + min + spread * rs[|rs| - 1]
  }

  /** The cumulative delay of each step. */
  function Cumulative(rs: seq<real>, min: real, spread: real): (c: seq<real>)
    ensures |c| == |rs|
  {
    seq(|rs|, k requires 0 <= k < |rs| => Total(rs[..k + 1], min, spread))
  }

  /** Drawing one more adds one step to the total. */
  lemma TotalStep(rs: seq<real>, k: nat, min: real, spread: real)
    requires k < |rs|
    ensures Total(rs[..k + 1], min, spread) == Total(rs[..k], min, spread) + min + spread * rs[k]
  {
    assert rs[..k + 1][..k] == rs[..k];
  }

  /**
   * Every delay is at least `min` and at most `min + spread` after the
   * previous one (the first after 0).
   */
  lemma CumulativeGaps(rs: seq<real>, min: real, spread: real)
    requires ValidDraws(rs) && spread >= 0.0
    ensures |rs| > 0 ==> min <= Cumulative(rs, min, spread)[0] <= min + spread
    ensures forall k :: 0 < k < |rs| ==>
      min <= Cumulative(rs, min, spread)[k] - Cumulative(rs, min, spread)[k - 1] <= min + spread
  {
    var c := Cumulative(rs, min, spread);
    if |rs| > 0 {
      TotalStep(rs, 0, min, spread);
      assert rs[..0] == [];
      assert Total(rs[..0], min, spread) == 0.0;
      assert c[0] == Total(rs[..1], min, spread);
      Scale(spread, rs[0]);
      assert c[0] == min + spread * rs[0];
      assert 0.0 <= spread * rs[0] <= spread;
      assert min <= c[0] <= min + spread;
    }
    forall k | 0 < k < |rs|
      ensures min <= c[k] - c[k - 1] <= min + spread
    {
      TotalStep(rs, k, min, spread);
      Scale(spread, rs[k]);
    }
  }

  /** Positive gaps make a sequence strictly increasing. */
  lemma {:induction false} GapsIncrease(c: seq<real>)
    requires forall k :: 0 < k < |c| ==> c[k - 1] < c[k]
    ensures forall i, j :: 0 <= i < j < |c| ==> c[i] < c[j]
  {
    if |c| > 1 {
      var init := c[..|c| - 1];
      GapsIncrease(init);
      assert forall i :: 0 <= i < |init| ==> init[i] == c[i];
      assert forall i :: 0 <= i < |c| - 1 ==> c[i] <= c[|c| - 2];
    }
  }

  /**
   * With a positive minimum the delays strictly increase, so the steps are
   * shown in their declared order whatever the random draws.
   */
  lemma CumulativeIncreasing(rs: seq<real>, min: real, spread: real)
    requires ValidDraws(rs) && spread >= 0.0 && min > 0.0
    ensures forall i, j :: 0 <= i < j < |rs| ==> Cumulative(rs, min, spread)[i] < Cumulative(rs, min, spread)[j]
    ensures |rs| > 0 ==> Cumulative(rs, min, spread)[0] > 0.0
  {
    CumulativeGaps(rs, min, spread);
    GapsIncrease(Cumulative(rs, min, spread));
  }

  lemma Scale(spread: real, r: real)
    requires spread >= 0.0 && 0.0 <= r < 1.0
    ensures 0.0 <= spread * r <= spread
  {
  }

  /**
   * The `forEach` that schedules the steps: the due time of each step,
   * counted from `now`.
   */
  method ScheduleDues(now: real, rs: seq<real>, min: real, spread: real) returns (dues: seq<real>)
    ensures |dues| == |rs|
    ensures forall k :: 0 <= k < |rs| ==> dues[k] == now + Cumulative(rs, min, spread)[k]
  {
    var delay := 0.0;
    dues := [];
    var k := 0;
    while k < |rs|
      invariant 0 <= k <= |rs| && |dues| == k
      invariant forall j :: 0 <= j < k ==> dues[j] == now + Total(rs[..j + 1], min, spread)
      invariant delay == Total(rs[..k], min, spread)
    {
      TotalStep(rs, k, min, spread);
      delay := delay + min + spread * rs[k];
      dues := dues + [now + delay];
      k := k + 1;
    }
  }
}
