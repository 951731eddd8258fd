/**
 * `GetLinearPointBetweenTwoPoints` and `GetPosInDirectionByDistance`: the
 * sampler that fills the caller's point list with points from `startPos` to
 * `endPos`, `interval` apart, before each of them is stamped.
 *
 * Points are modelled as exact reals on the line through the two end points
 * (a 1-D coordinate), so normalising a direction gives -1, 0 or 1 and no
 * square root is needed; the squared distances the loop compares are kept.
 */
module PathSampler {

  /** Distance between two points on the line. */
  function Dist(a: real, b: real): real
  {
    if a <= b then b - a else a - b
  }

  /** `sqrMagnitude` of a displacement. */
  function SqrMagnitude(d: real): real
  {
    d * d
  }

  /** `normalized`: the unit vector along `d`, or the zero vector for a zero `d`. */
  function Normalized(d: real): real
  {
    if d > 0.0 then 1.0 else if d < 0.0 then -1.0 else 0.0
  }

  /** Moving along a unit direction preserves distances. */
  lemma DistAlong(s: real, u: real, a: real, b: real)
    requires u == 1.0 || u == -1.0
    ensures Dist(s + u * a, s + u * b) == Dist(a, b)
  {
    if u == 1.0 {
      assert s + u * a == s + a && s + u * b == s + b;
    } else {
      assert s + u * a == s - a && s + u * b == s - b;
    }
  }

  /** `pos + direc.normalized * interval`: one step of length `interval` from `pos` towards `direc`. */
  function GetPosInDirectionByDistance(pos: real, direc: real, interval: real): (r: real)
    ensures direc != 0.0 ==> Dist(pos, r) == Dist(0.0, interval)
    ensures interval >= 0.0 ==> (r - pos) * direc >= 0.0
    ensures direc == 0.0 ==> r == pos
  {
    pos + Normalized(direc) * interval
  }

  /** A product of a positive and a non-negative number is non-negative, and positive if both are. */
  lemma MulPositive(x: real, y: real)
    requires x > 0.0 && y >= 0.0
    ensures x * y >= 0.0
    ensures y > 0.0 ==> x * y > 0.0
  {
  }

  /** Dividing by a positive number: one more `interval` is one more in the quotient. */
  lemma QuotientStep(d: real, interval: real)
    requires interval > 0.0
    ensures (d - interval) / interval == d / interval - 1.0
  {
    var q, q' := d / interval, (d - interval) / interval;
    assert q * interval == d;
    assert q' * interval == d - interval;
    var z := q' - (q - 1.0);
    assert z * interval == q' * interval - q * interval + interval;
    if z > 0.0 {
      MulPositive(interval, z);
    } else if z < 0.0 {
      MulPositive(interval, -z);
    }
  }

  /** Squares of non-negative numbers compare as the numbers do. */
  lemma SquareLess(a: real, b: real)
    requires a >= 0.0 && b >= 0.0
    ensures a * a > b * b <==> a > b
  {
    var diff, sum := a - b, a + b;
    assert a * a - b * b == diff * sum;
    if a > b {
      MulPositive(diff, sum);
      assert a * a - b * b > 0.0;
    } else if sum > 0.0 {
      MulPositive(sum, -diff);
      assert a * a - b * b <= 0.0;
    }
  }

  /** How many whole steps of length `interval` the loop takes on a segment of length `d`. */
  function StepCount(d: real, interval: real): nat
    requires d >= 0.0 && interval > 0.0
    decreases d / interval
  {
    if d <= interval then 0
    else
      QuotientStep(d, interval);
      1 + StepCount(d - interval, interval)
  }

  /**
   * `StepCount` is the number of steps after which at most `interval` is
   * left: the leg that remains is in (0, interval], or all of `d` when no
   * step is taken.
   */
  lemma {:induction false} StepCountLeavesOneLeg(d: real, interval: real)
    requires d >= 0.0 && interval > 0.0
    ensures 0.0 <= d - (StepCount(d, interval) as real) * interval <= interval
    ensures StepCount(d, interval) > 0 ==> d - (StepCount(d, interval) as real) * interval > 0.0
    decreases d / interval
  {
    if d > interval {
      QuotientStep(d, interval);
      var m := StepCount(d - interval, interval);
      StepCountLeavesOneLeg(d - interval, interval);
      NextMultiple(m, interval);
    }
  }

  /** The `k` intermediate points `start + u * (j * interval)`, j = 1..k. */
  function Steps(start: real, u: real, interval: real, k: nat): seq<real>
  {
    seq(k, j requires 0 <= j < k => start + u * (((j + 1) as real) * interval))
  }

  /**
   * The list the sampler leaves behind for a positive interval: the start,
   * the whole steps towards the end, and the end.
   */
  function Samples(start: real, end: real, interval: real): (r: seq<real>)
    requires interval > 0.0
    ensures |r| >= 2 && r[0] == start && r[|r| - 1] == end
    ensures start == end ==> r == [start, end]
  {
    var n := StepCount(Dist(start, end), interval);
    [start] + Steps(start, Normalized(end - start), interval, n) + [end]
  }

  /** Whole multiples of a positive `interval` grow with the count. */
  lemma MultipleMono(k: nat, n: nat, interval: real)
    requires k <= n && interval > 0.0
    ensures (k as real) * interval <= (n as real) * interval
  {
    var gap := ((n - k) as real) * interval;
    assert gap == (n as real) * interval - (k as real) * interval;
    if n > k {
      MulPositive((n - k) as real, interval);
    }
  }

  /** The first `k` whole steps, for `k` up to the count, stay on the segment. */
  lemma StepsWithin(d: real, interval: real, k: nat)
    requires d >= 0.0 && interval > 0.0
    requires k <= StepCount(d, interval)
    ensures (k as real) * interval <= d
    ensures k > 0 ==> (k as real) * interval < d
  {
    var n := StepCount(d, interval);
    StepCountLeavesOneLeg(d, interval);
    MultipleMono(k, n, interval);
  }

  /** A point of `Samples` before the end lies `k` steps from the start, on the segment. */
  lemma SampleAt(start: real, end: real, interval: real, k: nat)
    requires interval > 0.0
    requires k < |Samples(start, end, interval)| - 1
    ensures Samples(start, end, interval)[k] == start + Normalized(end - start) * ((k as real) * interval)
    ensures (k as real) * interval <= Dist(start, end)
    ensures k > 0 ==> (k as real) * interval < Dist(start, end)
  {
    StepsWithin(Dist(start, end), interval, k);
  }

  /** The (k+1)-th multiple of `interval` is one `interval` past the k-th. */
  lemma NextMultiple(k: nat, interval: real)
    ensures ((k + 1) as real) * interval == (k as real) * interval + interval
  {
  }

  /** The leg from point `k` to point `k + 1`, both before the end, is one whole step. */
  lemma LegAt(start: real, end: real, interval: real, k: nat)
    requires interval > 0.0
    requires k + 2 < |Samples(start, end, interval)|
    ensures Dist(Samples(start, end, interval)[k], Samples(start, end, interval)[k + 1]) == interval
  {
    var u := Normalized(end - start);
    SampleAt(start, end, interval, k);
    SampleAt(start, end, interval, k + 1);
    assert u == 1.0 || u == -1.0;
    NextMultiple(k, interval);
    DistAlong(start, u, (k as real) * interval, ((k + 1) as real) * interval);
  }

  /** Point `k` splits the segment: its distances to the two ends add up to the length. */
  lemma OnSegmentAt(start: real, end: real, interval: real, k: nat)
    requires interval > 0.0
    requires k < |Samples(start, end, interval)|
    ensures var p := Samples(start, end, interval)[k];
      Dist(start, p) + Dist(p, end) == Dist(start, end)
  {
    var r := Samples(start, end, interval);
    var d := Dist(start, end);
    if start == end {
      assert r == [start, end];
    } else {
      var u := Normalized(end - start);
      assert u == 1.0 || u == -1.0;
      assert start == start + u * 0.0 && end == start + u * d;
      DistAlong(start, u, 0.0, d);
      if k < |r| - 1 {
        SampleAt(start, end, interval, k);
        var a := (k as real) * interval;
        DistAlong(start, u, 0.0, a);
        DistAlong(start, u, a, d);
      }
    }
  }

  /** The last leg, into the end point, is at most one step, and empty only when the segment is. */
  lemma LastLeg(start: real, end: real, interval: real)
    requires interval > 0.0
    ensures var r := Samples(start, end, interval);
      Dist(r[|r| - 2], end) <= interval && (start != end ==> Dist(r[|r| - 2], end) > 0.0)
  {
    var r := Samples(start, end, interval);
    var d := Dist(start, end);
    var n := StepCount(d, interval);
    if start == end {
      assert r == [start, end];
    } else {
      var u := Normalized(end - start);
      assert u == 1.0 || u == -1.0;
      assert end == start + u * d;
      StepCountLeavesOneLeg(d, interval);
      SampleAt(start, end, interval, n);
      DistAlong(start, u, (n as real) * interval, d);
    }
  }

  /**
   * The spacing the sampler promises: consecutive points before the last are
   * exactly `interval` apart, the last leg is at most `interval` (and not
   * empty unless the segment is), and every point lies on the segment.
   */
  lemma SamplesSpacing(start: real, end: real, interval: real)
    requires interval > 0.0
    ensures var r := Samples(start, end, interval);
      forall k :: 0 <= k < |r| - 2 ==> Dist(r[k], r[k + 1]) == interval
    ensures var r := Samples(start, end, interval);
      Dist(r[|r| - 2], r[|r| - 1]) <= interval && (start != end ==> Dist(r[|r| - 2], r[|r| - 1]) > 0.0)
    ensures var r := Samples(start, end, interval);
      forall k :: 0 <= k < |r| ==> Dist(start, r[k]) + Dist(r[k], end) == Dist(start, end)
  {
    var r := Samples(start, end, interval);
    forall k | 0 <= k < |r| - 2
      ensures Dist(r[k], r[k + 1]) == interval
    {
      LegAt(start, end, interval, k);
    }
    LastLeg(start, end, interval);
    forall k | 0 <= k < |r|
      ensures Dist(start, r[k]) + Dist(r[k], end) == Dist(start, end)
    {
      OnSegmentAt(start, end, interval, k);
    }
  }

  /** Squared distance to the end from the point `t` along the segment. */
  lemma RemainingSqr(start: real, end: real, t: real)
    requires 0.0 <= t <= Dist(start, end)
    ensures SqrMagnitude(end - (start + Normalized(end - start) * t))
         == (Dist(start, end) - t) * (Dist(start, end) - t)
  {
    var left := Dist(start, end) - t;
    if end > start {
      assert end - (start + Normalized(end - start) * t) == left;
    } else if end < start {
      assert end - (start + Normalized(end - start) * t) == -left;
    }
  }

  /** Appending the next intermediate point. */
  lemma StepsSnoc(start: real, u: real, interval: real, k: nat)
    ensures Steps(start, u, interval, k + 1)
         == Steps(start, u, interval, k) + [start + u * ((k as real) * interval + interval)]
  {
    var longer := Steps(start, u, interval, k + 1);
    var appended := Steps(start, u, interval, k) + [start + u * ((k as real) * interval + interval)];
    forall j | 0 <= j < k + 1
      ensures longer[j] == appended[j]
    {
      if j == k {
        NextMultiple(k, interval);
      }
    }
    assert longer == appended;
  }

  /**
   * One turn of the sampler's loop, `t` along the segment: while more than
   * one interval is left, the step lands `t + interval` along, still on the
   * segment, and the squared distance to the end is that of what is left.
   */
  lemma LoopStepPosition(startPos: real, endPos: real, interval: real, t: real)
    requires interval > 0.0 && 0.0 <= t
    requires 0.0 <= Dist(startPos, endPos) - t
    requires SqrMagnitude(Dist(startPos, endPos) - t) > interval * interval
    ensures var u := Normalized(endPos - startPos);
      GetPosInDirectionByDistance(startPos + u * t, endPos - startPos, interval) == startPos + u * (t + interval)
    ensures interval < Dist(startPos, endPos) - t
    ensures SqrMagnitude(endPos - (startPos + Normalized(endPos - startPos) * (t + interval)))
         == SqrMagnitude(Dist(startPos, endPos) - (t + interval))
  {
    SquareLess(Dist(startPos, endPos) - t, interval);
    RemainingSqr(startPos, endPos, t + interval);
  }

  /** The same turn seen from the list: one more point, one step of the count used up. */
  lemma LoopStepCount(startPos: real, endPos: real, interval: real, k: nat, t: real)
    requires interval > 0.0
    requires t == (k as real) * interval
    requires interval < Dist(startPos, endPos) - t
    ensures t + interval == ((k + 1) as real) * interval
    ensures StepCount(Dist(startPos, endPos) - t, interval)
         == 1 + StepCount(Dist(startPos, endPos) - (t + interval), interval)
    ensures Steps(startPos, Normalized(endPos - startPos), interval, k + 1)
         == Steps(startPos, Normalized(endPos - startPos), interval, k) + [startPos + Normalized(endPos - startPos) * (t + interval)]
  {
    var d := Dist(startPos, endPos);
    NextMultiple(k, interval);
    assert (d - t) - interval == d - (t + interval);
    StepsSnoc(startPos, Normalized(endPos - startPos), interval, k);
  }

  /**
   * When the loop stops, at most one interval is left, so every whole step
   * has been taken and the list only lacks its end point.
   */
  lemma LoopExit(startPos: real, endPos: real, interval: real, k: nat, t: real)
    requires interval > 0.0
    requires 0.0 <= Dist(startPos, endPos) - t
    requires !(SqrMagnitude(Dist(startPos, endPos) - t) > interval * interval)
    requires StepCount(Dist(startPos, endPos), interval) == k + StepCount(Dist(startPos, endPos) - t, interval)
    ensures [startPos] + Steps(startPos, Normalized(endPos - startPos), interval, k) + [endPos]
         == Samples(startPos, endPos, interval)
  {
    SquareLess(Dist(startPos, endPos) - t, interval);
  }

  /** Sampling from 0 to 10 every 3 units gives 0, 3, 6, 9 and then the end, 10. */
  lemma SamplesExample()
    ensures Samples(0.0, 10.0, 3.0) == [0.0, 3.0, 6.0, 9.0, 10.0]
  {
    assert StepCount(1.0, 3.0) == 0;
    assert StepCount(4.0, 3.0) == 1;
    assert StepCount(7.0, 3.0) == 2;
    assert StepCount(10.0, 3.0) == 3;
    assert Steps(0.0, 1.0, 3.0, 3) == [3.0, 6.0, 9.0];
  }

  /** The caller-owned `List<Vector3>` the sampler clears and appends to. */
  class PosList {
    var items: seq<real>

    constructor ()
      ensures items == []
    {
      items := [];
    }

    method Clear()
      modifies this
      ensures items == []
    {
      items := [];
    }

    method Add(p: real)
      modifies this
      ensures items == old(items) + [p]
    {
      items := items + [p];
    }
  }

  /**
   * `GetLinearPointBetweenTwoPoints`: on a non-positive interval it reports
   * the error (`logged`) and leaves the list exactly as it was; otherwise the
   * list is replaced by the samples from `startPos` to `endPos`.
   */
  method GetLinearPointBetweenTwoPoints(startPos: real, endPos: real, interval: real, posList: PosList)
    returns (logged: bool)
    modifies posList
    ensures logged <==> interval <= 0.0
    ensures interval <= 0.0 ==> posList.items == old(posList.items)
    ensures interval > 0.0 ==> posList.items == Samples(startPos, endPos, interval)
  {
    if interval <= 0.0 {
      logged := true;
      return;
    }
    logged := false;
    posList.Clear();
    posList.Add(startPos);
    var direc := endPos - startPos;
    var dirSqr := SqrMagnitude(direc);
    var intervalSqr := interval * interval;
    var posA := startPos;
    ghost var d := Dist(startPos, endPos);
    ghost var u := Normalized(direc);
    ghost var k: nat := 0;
    ghost var travelled := 0.0;
    RemainingSqr(startPos, endPos, 0.0);
    while dirSqr > intervalSqr
      invariant travelled == (k as real) * interval
      invariant 0.0 <= travelled
      invariant 0.0 <= d - travelled
      invariant posA == startPos + u * travelled
      invariant dirSqr == SqrMagnitude(d - travelled)
      invariant posList.items == [startPos] + Steps(startPos, u, interval, k)
      invariant StepCount(d, interval) == k + StepCount(d - travelled, interval)
      decreases StepCount(d, interval) - k
    {
      LoopStepPosition(startPos, endPos, interval, travelled);
      LoopStepCount(startPos, endPos, interval, k, travelled);
      var temp := GetPosInDirectionByDistance(posA, direc, interval);
      posList.Add(temp);
      dirSqr := SqrMagnitude(endPos - temp);
      posA := temp;
      k := k + 1;
      travelled := travelled + interval;
    }
    LoopExit(startPos, endPos, interval, k, travelled);
    posList.Add(endPos);
  }

}
