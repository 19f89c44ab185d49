/** The phi-accrual failure detector. */
module Accrual {

  const SPAN: int := 0x1_0000_0000_0000_0000
  const LOG10_E: real := 0.4342944819

  /** uint64_t, a time or an interval in microseconds. */
  type u64 = x: int | 0 <= x < 0x1_0000_0000_0000_0000

  /** The cast `(uint64_t)x` of a sum or a difference. */
  function Wrap(x: int): u64 {
    x % SPAN
  }

  lemma WrapAdds(a: int, b: int)
    ensures Wrap(Wrap(a) + b) == Wrap(a + b)
  {
  }

  /** The difference of two times, in unsigned arithmetic. */
  function Minus(a: int, b: int): u64 {
    Wrap(a - b)
  }

  // ---- the window

  datatype Window = Window(slots: seq<u64>, index: nat, num: nat, last: u64)

  predicate Shaped(w: Window) {
    w.index < |w.slots| && w.num <= |w.slots|
  }

  function Empty(size: nat): Window {
    Window(seq(size, i => 0), 0, 0, 0)
  }

  /** One heartbeat. A last time of 0 means that none has been seen. */
  function Recorded(w: Window, t: u64): (r: Window)
    requires Shaped(w)
    ensures Shaped(r) && |r.slots| == |w.slots|
  {
    if w.last == 0 then w.(last := t)
    else
      Window(w.slots[w.index := Minus(t, w.last)], (w.index + 1) % |w.slots|,
             if w.num < |w.slots| then w.num + 1 else w.num, t)
  }

  /** The window after these heartbeats, the first of them after a reset. */
  function Heard(size: nat, beats: seq<u64>): (w: Window)
    requires size > 0
    ensures Shaped(w) && |w.slots| == size
    decreases |beats|
  {
    if beats == [] then Empty(size) else Recorded(Heard(size, beats[..|beats| - 1]), beats[|beats| - 1])
  }

  /** What the accumulating loop of the mean makes of these intervals. */
  function Sum(s: seq<u64>): u64
    decreases |s|
  {
    if s == [] then 0 else Wrap(Sum(s[..|s| - 1]) + s[|s| - 1])
  }

  function Mean(w: Window): real
    requires Shaped(w)
  {
    if w.num == 0 then 0.0 else Sum(w.slots[..w.num]) as real / w.num as real
  }

  function Suspects(w: Window, threshold: real, now: u64): bool
    requires Shaped(w)
  {
    var mean := Mean(w);
    mean > 0.0 && 1.0 / mean * Minus(now, w.last) as real * LOG10_E > threshold
  }

  // ---- what the window means

  predicate Positive(beats: seq<u64>) {
    forall k | 0 <= k < |beats| :: beats[k] > 0
  }

  predicate Increasing(beats: seq<u64>) {
    forall j, k | 0 <= j < k < |beats| :: beats[j] < beats[k]
  }

  /** How many gaps there are between these heartbeats. */
  function Gaps(beats: seq<u64>): nat {
    if beats == [] then 0 else |beats| - 1
  }

  function Gap(beats: seq<u64>, j: nat): u64
    requires j < Gaps(beats)
  {
    Minus(beats[j + 1], beats[j])
  }

  /** How many of the gaps a window of this size keeps. */
  function Counted(size: nat, beats: seq<u64>): (n: nat)
    ensures n <= Gaps(beats) && n <= size
  {
    if Gaps(beats) < size then Gaps(beats) else size
  }

  /** The slots hold the last gaps, each where its number falls in the ring, and nothing else is counted. */
  predicate HoldsLastGaps(w: Window, size: nat, beats: seq<u64>)
    requires size > 0
  {
    var g := Gaps(beats);
    && |w.slots| == size && w.num == Counted(size, beats) && w.index == g % size
    && w.last == (if beats == [] then 0 else beats[|beats| - 1])
    && forall j: nat | g - w.num <= j < g :: w.slots[j % size] == Gap(beats, j)
  }

  lemma {:induction false} Multiples(a: int, b: int, size: nat)
    requires a < b
    ensures a * size + size <= b * size
    decreases b - a
  {
    assert (b - 1) * size + size == b * size;
    if a < b - 1 {
      Multiples(a, b - 1, size);
    }
  }

  lemma PlaceIs(x: nat, q: nat, r: nat, size: nat)
    requires size > 0 && r < size && x == q * size + r
    ensures x % size == r
  {
    var k, m := x / size, x % size;
    assert x == k * size + m;
    if k < q {
      Multiples(k, q, size);
    } else if q < k {
      Multiples(q, k, size);
    }
  }

  lemma SamePlace(j: nat, g: nat, size: nat)
    requires size > 0 && g - size < j < g
    ensures j % size != g % size
  {
    var p, q := j / size, g / size;
    assert j == p * size + j % size && g == q * size + g % size;
    if p < q {
      Multiples(p, q, size);
    } else if q < p {
      Multiples(q, p, size);
    }
  }

  lemma NextPlace(g: nat, size: nat)
    requires size > 0
    ensures (g % size + 1) % size == (g + 1) % size
  {
    var q, r := g / size, g % size;
    assert g == q * size + r;
    if r + 1 < size {
      PlaceIs(g + 1, q, r + 1, size);
      PlaceIs(r + 1, 0, r + 1, size);
    } else {
      assert (q + 1) * size == q * size + size;
      PlaceIs(g + 1, q + 1, 0, size);
      PlaceIs(r + 1, 1, 0, size);
    }
  }

  lemma SmallPlace(j: nat, size: nat)
    requires j < size
    ensures j % size == j
  {
  }

  /** After any heartbeats at positive times the slots hold exactly the last gaps between them. */
  lemma {:induction false} WindowHoldsLastGaps(size: nat, beats: seq<u64>)
    requires size > 0 && Positive(beats)
    ensures HoldsLastGaps(Heard(size, beats), size, beats)
    decreases |beats|
  {
    if |beats| > 0 {
      var earlier := beats[..|beats| - 1];
      WindowHoldsLastGaps(size, earlier);
      if |beats| > 1 {
        OneMoreGap(Heard(size, earlier), size, earlier, beats);
      }
    }
  }

  lemma OneMoreGap(w: Window, size: nat, earlier: seq<u64>, beats: seq<u64>)
    requires size > 0 && Positive(beats) && |beats| > 1 && earlier == beats[..|beats| - 1]
    requires HoldsLastGaps(w, size, earlier)
    ensures Shaped(w) && HoldsLastGaps(Recorded(w, beats[|beats| - 1]), size, beats)
  {
    var g := Gaps(earlier);
    var r := Recorded(w, beats[|beats| - 1]);
    NextPlace(g, size);
    forall j: nat | g + 1 - r.num <= j < g + 1
      ensures r.slots[j % size] == Gap(beats, j)
    {
      if j < g {
        SamePlace(j, g, size);
        assert Gap(beats, j) == Gap(earlier, j);
      }
    }
  }

  // ---- the sum telescopes

  /** The sum without wrapping. */
  function Total(s: seq<u64>): int
    decreases |s|
  {
    if s == [] then 0 else Total(s[..|s| - 1]) + s[|s| - 1]
  }

  lemma {:induction false} SumIsTotal(s: seq<u64>)
    ensures Sum(s) == Wrap(Total(s))
    decreases |s|
  {
    if s != [] {
      SumIsTotal(s[..|s| - 1]);
      WrapAdds(Total(s[..|s| - 1]), s[|s| - 1]);
    }
  }

  lemma {:induction false} TotalReplaced(s: seq<u64>, i: nat, v: u64)
    requires i < |s|
    ensures Total(s[i := v]) == Total(s) - s[i] + v
    decreases |s|
  {
    var n := |s| - 1;
    if i == n {
      assert s[i := v][..n] == s[..n];
    } else {
      TotalReplaced(s[..n], i, v);
      assert s[i := v][..n] == s[..n][i := v];
    }
  }

  lemma {:induction false} SumReplaced(s: seq<u64>, i: nat, v: u64)
    requires i < |s|
    ensures Sum(s[i := v]) == Wrap(Sum(s) - s[i] + v)
  {
    SumIsTotal(s);
    SumIsTotal(s[i := v]);
    TotalReplaced(s, i, v);
    WrapAdds(Total(s), v - s[i]);
  }

  function Earlier(size: nat, beats: seq<u64>): u64
    requires beats != []
  {
    beats[|beats| - 1 - Counted(size, beats)]
  }

  /** The sum of the counted intervals is the time from the heartbeat before the first of them to the last one. */
  lemma {:induction false} WindowTelescopes(size: nat, beats: seq<u64>)
    requires size > 0 && Positive(beats) && beats != []
    ensures var w := Heard(size, beats);
            Sum(w.slots[..w.num]) == Minus(beats[|beats| - 1], Earlier(size, beats))
    decreases |beats|
  {
    if |beats| > 1 {
      var earlier := beats[..|beats| - 1];
      WindowTelescopes(size, earlier);
      WindowHoldsLastGaps(size, earlier);
      if Gaps(earlier) < size {
        GrowingTelescopes(Heard(size, earlier), size, earlier, beats);
      } else {
        FullTelescopes(Heard(size, earlier), size, earlier, beats);
      }
    }
  }

  lemma GrowingTelescopes(w: Window, size: nat, earlier: seq<u64>, beats: seq<u64>)
    requires Positive(beats) && |beats| > 1 && earlier == beats[..|beats| - 1]
    requires Gaps(earlier) < size && HoldsLastGaps(w, size, earlier)
    requires Sum(w.slots[..w.num]) == Minus(w.last, Earlier(size, earlier))
    ensures var r := Recorded(w, beats[|beats| - 1]);
            Sum(r.slots[..r.num]) == Minus(beats[|beats| - 1], Earlier(size, beats))
  {
    var g, t := Gaps(earlier), beats[|beats| - 1];
    SmallPlace(g, size);
    var r := Recorded(w, t);
    assert r.slots[..r.num][..g] == w.slots[..g];
    assert r.slots[..r.num][g] == Minus(t, w.last);
    var so: int := Sum(w.slots[..g]);
    WrapAdds(t - w.last, so);
    WrapAdds(w.last - beats[0], t - w.last);
  }

  lemma {:induction false} FullTelescopes(w: Window, size: nat, earlier: seq<u64>, beats: seq<u64>)
    requires Positive(beats) && |beats| > 1 && earlier == beats[..|beats| - 1]
    requires 0 < size <= Gaps(earlier) && HoldsLastGaps(w, size, earlier)
    requires Sum(w.slots[..w.num]) == Minus(w.last, Earlier(size, earlier))
    ensures var r := Recorded(w, beats[|beats| - 1]);
            Sum(r.slots[..r.num]) == Minus(beats[|beats| - 1], Earlier(size, beats))
  {
    var g, t := Gaps(earlier), beats[|beats| - 1];
    FullSum(w, size, earlier, t);
    EarlierMoves(size, earlier, beats);
    OldestGap(w, size, earlier);
    Telescope(earlier[g - size], earlier[g - size + 1], w.last, t);
  }

  lemma EarlierMoves(size: nat, earlier: seq<u64>, beats: seq<u64>)
    requires |beats| > 1 && earlier == beats[..|beats| - 1] && 0 < size <= Gaps(earlier)
    ensures var g := Gaps(earlier);
            Earlier(size, earlier) == earlier[g - size] && Earlier(size, beats) == earlier[g - size + 1]
  {
  }

  /** A full ring takes the new interval in place of the oldest. */
  lemma {:induction false} FullSum(w: Window, size: nat, earlier: seq<u64>, t: u64)
    requires earlier != [] && earlier[|earlier| - 1] > 0
    requires 0 < size <= Gaps(earlier) && HoldsLastGaps(w, size, earlier)
    ensures var r := Recorded(w, t);
            Sum(r.slots[..r.num]) == Wrap(Sum(w.slots[..w.num]) - w.slots[w.index] + Minus(t, w.last))
  {
    var r := Recorded(w, t);
    assert r.slots == w.slots[w.index := Minus(t, w.last)] && r.num == w.num == size;
    assert w.slots[..size] == w.slots && r.slots[..size] == r.slots;
    SumReplaced(w.slots, w.index, Minus(t, w.last));
  }

  lemma OldestGap(w: Window, size: nat, beats: seq<u64>)
    requires 0 < size <= Gaps(beats) && HoldsLastGaps(w, size, beats)
    ensures w.slots[w.index] == Gap(beats, Gaps(beats) - size)
  {
    var g := Gaps(beats);
    OldestPlace(g, size);
    assert w.slots[(g - size) % size] == Gap(beats, g - size);
  }

  lemma OldestPlace(g: nat, size: nat)
    requires 0 < size <= g
    ensures (g - size) % size == g % size
  {
    var q, r := (g - size) / size, (g - size) % size;
    assert g - size == q * size + r;
    assert (q + 1) * size == q * size + size;
    PlaceIs(g, q + 1, r, size);
  }

  /** Dropping the interval from a to b and adding the one from c to d moves a sum from a..c to b..d. */
  lemma Telescope(a: int, b: int, c: int, d: int)
    ensures Wrap(Wrap(c - a) - Wrap(b - a) + Wrap(d - c)) == Wrap(d - b)
  {
  }

  // ---- the decision

  lemma Scale(a: real, b: real, k: real)
    requires k > 0.0
    ensures a > b <==> a * k > b * k
  {
  }

  lemma PhiExceeds(sum: real, num: real, elapsed: real, threshold: real)
    requires sum > 0.0 && num > 0.0
    ensures sum / num > 0.0
    ensures 1.0 / (sum / num) * elapsed * LOG10_E > threshold <==> elapsed * LOG10_E * num > threshold * sum
  {
    var mean := sum / num;
    assert mean * num == sum;
    assert mean > 0.0 by {
      if mean <= 0.0 {
        Scale(sum, 0.0, num);
      }
    }
    Scale(1.0 / mean * elapsed * LOG10_E, threshold, mean);
    assert 1.0 / mean * elapsed * LOG10_E * mean == elapsed * LOG10_E;
    Scale(elapsed * LOG10_E, threshold * mean, num);
    assert threshold * mean * num == threshold * sum;
  }

  /** Elapsed time times log10(e) times the number of intervals, against the threshold times their total. */
  predicate Exceeds(elapsed: nat, n: nat, total: nat, threshold: real) {
    n > 0 && total > 0 && elapsed as real * LOG10_E * n as real > threshold * total as real
  }

  lemma SuspectsByTotal(w: Window, threshold: real, now: u64, total: u64)
    requires Shaped(w) && total == Sum(w.slots[..w.num])
    ensures Suspects(w, threshold, now) <==> Exceeds(Minus(now, w.last), w.num, total, threshold)
  {
    if w.num > 0 && total > 0 {
      PhiExceeds(total as real, w.num as real, Minus(now, w.last) as real, threshold);
    }
  }

  /** The decision on a window that has heard these heartbeats, in terms of their times. */
  predicate Overdue(size: nat, beats: seq<u64>, threshold: real, now: u64)
    requires beats != []
  {
    Exceeds(Minus(now, beats[|beats| - 1]), Counted(size, beats), Minus(beats[|beats| - 1], Earlier(size, beats)),
            threshold)
  }

  /**
   The detector suspects the leader exactly when, over the kept intervals, elapsed time times
   log10(e) times their number exceeds the threshold times their total; and never on a total of 0.
   */
  lemma SuspectsIff(size: nat, beats: seq<u64>, threshold: real, now: u64)
    requires size > 0 && Positive(beats) && beats != []
    ensures Suspects(Heard(size, beats), threshold, now) <==> Overdue(size, beats, threshold, now)
  {
    var w := Heard(size, beats);
    WindowHoldsLastGaps(size, beats);
    WindowTelescopes(size, beats);
    SuspectsByTotal(w, threshold, now, Sum(w.slots[..w.num]));
  }

  /** Whatever the times are, no more gaps are counted than were heard. */
  lemma {:induction false} CountsAtMost(size: nat, beats: seq<u64>)
    requires size > 0
    ensures Heard(size, beats).num <= Gaps(beats)
    ensures beats == [] ==> Heard(size, beats).last == 0
    ensures |beats| == 1 ==> Heard(size, beats).num == 0
    decreases |beats|
  {
    if |beats| > 0 {
      CountsAtMost(size, beats[..|beats| - 1]);
    }
  }

  /** With increasing times nothing wraps: the total is the plain difference, and it is positive. */
  lemma IncreasingTotal(size: nat, beats: seq<u64>)
    requires size > 0 && Positive(beats) && Increasing(beats) && |beats| > 1
    ensures Counted(size, beats) > 0
    ensures Minus(beats[|beats| - 1], Earlier(size, beats)) == beats[|beats| - 1] - Earlier(size, beats) > 0
  {
  }

  // ---- the detector

  class Telemetry {
    const size: nat
    const threshold: real
    const intervals: array<u64>
    var index: nat
    var num: nat
    var last: u64
    /** The heartbeats since the last reset. */
    ghost var beats: seq<u64>

    ghost predicate Valid()
      reads this, intervals
    {
      size > 0 && intervals.Length == size && Now() == Heard(size, beats)
    }

    ghost function Now(): Window
      reads this, intervals
    {
      Window(intervals[..], index, num, last)
    }

    /** heartbeat_telemetry_init; the record divides by the window size, so it must not be 0. */
    constructor (limit: real, windowSize: nat)
      requires windowSize > 0
      ensures Valid() && beats == [] && size == windowSize && threshold == limit
    {
      size, threshold := windowSize, limit;
      intervals := new u64[windowSize](i => 0);
      index, num, last := 0, 0, 0;
      beats := [];
      new;
      assert intervals[..] == seq(windowSize, i => 0);
    }

    /** heartbeat_telemetry_reset */
    method Reset()
      requires Valid()
      modifies this, intervals
      ensures Valid() && beats == []
    {
      for i := 0 to size
        invariant forall k | 0 <= k < i :: intervals[k] == 0
      {
        intervals[i] := 0;
      }
      index, num, last := 0, 0, 0;
      beats := [];
      assert intervals[..] == seq(size, i => 0);
    }

    /** heartbeat_telemetry_record_interval */
    method RecordInterval(now: u64)
      requires Valid()
      modifies this, intervals
      ensures Valid() && beats == old(beats) + [now]
      ensures Positive(beats) ==> HoldsLastGaps(Now(), size, beats)
    {
      ghost var heard := beats + [now];
      assert heard[..|beats|] == beats;
      if Positive(heard) {
        WindowHoldsLastGaps(size, heard);
      }
      beats := heard;
      if last == 0 {
        last := now;
        return;
      }
      var interval := Minus(now, last);
      last := now;
      intervals[index] := interval;
      index := (index + 1) % size;
      if num < size {
        num := num + 1;
      }
    }

    /** compute_mean_interval */
    method ComputeMean() returns (mean: real)
      requires Valid()
      ensures mean == Mean(Now())
    {
      if num == 0 {
        return 0.0;
      }
      var sum: u64 := 0;
      for i := 0 to num
        invariant sum == Sum(intervals[..i])
      {
        assert intervals[..i + 1][..i] == intervals[..i];
        sum := Wrap(sum + intervals[i]);
      }
      assert intervals[..num] == intervals[..][..num];
      mean := sum as real / num as real;
    }

    /** heartbeat_telemetry_check_leader_failure at time `now`. */
    method CheckLeaderFailure(now: u64) returns (failed: bool)
      requires Valid()
      ensures failed == Suspects(Now(), threshold, now)
      ensures beats == [] ==> !failed
      ensures beats != [] && Positive(beats) ==> (failed <==> Overdue(size, beats, threshold, now))
    {
      if beats != [] && Positive(beats) {
        SuspectsIff(size, beats, threshold, now);
      }
      failed := Decide(now);
    }

    method Decide(now: u64) returns (failed: bool)
      requires Valid()
      ensures failed == Suspects(Now(), threshold, now)
    {
      var current := Minus(now, last);
      var mean := ComputeMean();
      if mean <= 0.0 {
        return false;
      }
      var lambda := 1.0 / mean;
      var phi := lambda * current as real * LOG10_E;
      failed := phi > threshold;
    }
  }
}
