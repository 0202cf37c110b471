/** The circular boxcar applied to a load profile (profiler.py). */
module Profiler {
  import opened Options
  import opened Reals

  /** A slot number wrapped around the day. */
  function Wrap(x: int, n: nat): (k: nat)
    requires 0 < n
    ensures k < n
  {
    x % n
  }

  /** What slot `i` adds up before dividing: the first `m` slots of the window around it, wrapped around the day. */
  function WindowSum(slots: seq<real>, i: nat, half: nat, m: nat): real
    requires |slots| > 0
  {
    if m == 0 then 0.0 else WindowSum(slots, i, half, m - 1) + slots[Wrap(i + (m - 1) - half, |slots|)]
  }

  function Scaled(k: real, x: real): real { k * x }

  function Average(total: real, window: nat): (r: real)
    requires 0 < window
    ensures Scaled(window as real, r) == total
  {
    total / window as real
  }

  function Smoothed(slots: seq<real>, window: nat): (out: seq<real>)
    requires |slots| > 0 && 0 < window <= |slots|
    ensures |out| == |slots|
    ensures forall i :: 0 <= i < |out| ==> out[i] == Average(WindowSum(slots, i, window / 2, window), window)
  {
    seq(|slots|, i requires 0 <= i < |slots| => Average(WindowSum(slots, i, window / 2, window), window))
  }

  /** `smooth_slots`: the profile itself for a window of at most 1, an error for an even or oversized one. */
  method SmoothSlots(slots: seq<real>, window: int) returns (r: Result<seq<real>>)
    ensures window <= 1 ==> r == Ok(slots)
    ensures window > 1 && (window % 2 == 0 || window > |slots|) ==> r.Err?
    ensures window > 1 && window % 2 == 1 && window <= |slots| ==> r == Ok(Smoothed(slots, window))
  {
    if window <= 1 {
      return Ok(slots);
    }
    if window % 2 == 0 {
      return Err("window must be odd");
    }
    var n := |slots|;
    if window > n {
      return Err("window exceeds slot count");
    }
    var half := window / 2;
    var out: seq<real> := [];
    for i := 0 to n
      invariant |out| == i
      invariant forall k :: 0 <= k < i ==> out[k] == Average(WindowSum(slots, k, half, window), window)
    {
      var total := 0.0;
      for offset: int := -half to half + 1
        invariant total == WindowSum(slots, i, half, offset + half)
      {
        total := total + slots[Wrap(i + offset, n)];
      }
      out := out + [Average(total, window)];
    }
    assert out == Smoothed(slots, window);
    r := Ok(out);
  }

  // ---------------------------------------------------------------- each window position is a rotation

  lemma TimesMonotone(a: int, b: int, n: nat)
    requires a <= b
    ensures a * n <= b * n
  {
  }

  lemma WrapNear(x: int, n: nat)
    requires 0 < n && -(n as int) <= x < 2 * n
    ensures Wrap(x, n) == if x < 0 then x + n else if x < n then x else x - n
  {
    var q := if x < 0 then -1 else if x < n then 0 else 1;
    assert x == (x / n) * n + Wrap(x, n);
    if x / n > q {
      TimesMonotone(q + 1, x / n, n);
    } else if x / n < q {
      TimesMonotone(x / n, q - 1, n);
    }
  }

  /** The profile as window position `j` sees it. */
  function Rotated(slots: seq<real>, j: nat, half: nat): (r: seq<real>)
    requires |slots| > 0
    ensures |r| == |slots| && forall i :: 0 <= i < |r| ==> r[i] == slots[Wrap(i + j - half, |slots|)]
  {
    seq(|slots|, i requires 0 <= i < |slots| => slots[Wrap(i + j - half, |slots|)])
  }

  lemma {:induction false} RotationSum(slots: seq<real>, j: nat, half: nat)
    requires |slots| > 0 && half <= |slots| && j < |slots|
    ensures Sum(Rotated(slots, j, half)) == Sum(slots)
  {
    hide Wrap;
    var n := |slots|;
    var shift := if j < half then j + n - half else j - half;
    var left, right := slots[..shift], slots[shift..];
    IsRotation(slots, j, half, shift);
    SumConcat(right, left);
    SumConcat(left, right);
    assert left + right == slots;
  }

  lemma {:induction false} IsRotation(slots: seq<real>, j: nat, half: nat, shift: nat)
    requires |slots| > 0 && half <= |slots| && j < |slots|
    requires shift == if j < half then j + |slots| - half else j - half
    ensures Rotated(slots, j, half) == slots[shift..] + slots[..shift]
  {
    hide Wrap;
    var n, r, t := |slots|, Rotated(slots, j, half), slots[shift..] + slots[..shift];
    forall i | 0 <= i < n ensures r[i] == t[i] {
      WrapNear(i + j - half, n);
    }
  }

  function WindowSums(slots: seq<real>, half: nat, m: nat): (s: seq<real>)
    requires |slots| > 0
    ensures |s| == |slots| && forall i :: 0 <= i < |s| ==> s[i] == WindowSum(slots, i, half, m)
  {
    seq(|slots|, i requires 0 <= i < |slots| => WindowSum(slots, i, half, m))
  }

  lemma {:induction false} SumOfZeros(s: seq<real>)
    requires forall i :: 0 <= i < |s| ==> s[i] == 0.0
    ensures Sum(s) == 0.0
  {
    if s == [] {
    } else {
      SumOfZeros(s[..|s| - 1]);
    }
  }

  lemma EmptyWindow(slots: seq<real>, half: nat)
    requires |slots| > 0
    ensures forall i :: 0 <= i < |slots| ==> WindowSums(slots, half, 0)[i] == 0.0
  {
  }

  lemma ZeroTimes(x: real)
    ensures Scaled(0.0, x) == 0.0
  {
  }

  lemma OneMore(m: nat, total: real)
    requires m > 0
    ensures Scaled((m - 1) as real, total) + total == Scaled(m as real, total)
  {
  }

  lemma {:induction false} WindowSumsNext(slots: seq<real>, half: nat, m: nat)
    requires |slots| > 0 && half <= |slots| && 0 < m <= |slots|
    ensures Sum(WindowSums(slots, half, m)) == Sum(WindowSums(slots, half, m - 1)) + Sum(slots)
  {
    hide Wrap;
    RotationSum(slots, m - 1, half);
    SumAdd(WindowSums(slots, half, m - 1), Rotated(slots, m - 1, half), WindowSums(slots, half, m));
  }

  lemma {:induction false} WindowSumsTotal(slots: seq<real>, half: nat, m: nat)
    requires |slots| > 0 && half <= |slots| && m <= |slots|
    ensures Sum(WindowSums(slots, half, m)) == Scaled(m as real, Sum(slots))
  {
    hide Wrap, Rotated, Scaled, WindowSum;
    ZeroTimes(Sum(slots));
    if m == 0 {
      EmptyWindow(slots, half);
      SumOfZeros(WindowSums(slots, half, 0));
    } else {
      WindowSumsTotal(slots, half, m - 1);
      WindowSumsNext(slots, half, m);
      OneMore(m, Sum(slots));
    }
  }

  lemma SameFactor(w: real, a: real, b: real)
    requires 0.0 < w
    ensures Scaled(w, a) == Scaled(w, b) ==> a == b
    ensures Scaled(w, a) <= Scaled(w, b) ==> a <= b
  {
  }

  /** Smoothing conserves the day's energy exactly. */
  lemma {:induction false} SmoothingConserves(slots: seq<real>, window: nat)
    requires 0 < window <= |slots|
    ensures Sum(Smoothed(slots, window)) == Sum(slots)
  {
    hide Average, Wrap, WindowSum, Smoothed, WindowSums, Scaled;
    var half := window / 2;
    AveragesTotal(slots, window, half);
    WindowSumsTotal(slots, half, window);
    SameFactor(window as real, Sum(Smoothed(slots, window)), Sum(slots));
  }

  lemma AveragesTotal(slots: seq<real>, window: nat, half: nat)
    requires 0 < window <= |slots| && half == window / 2
    ensures Scaled(window as real, Sum(Smoothed(slots, window))) == Sum(WindowSums(slots, half, window))
  {
    hide Average, Wrap, WindowSum;
    SumScale(Smoothed(slots, window), WindowSums(slots, half, window), window as real);
  }

  lemma {:induction false} WindowSumBetween(slots: seq<real>, i: nat, half: nat, m: nat, lo: real, hi: real)
    requires |slots| > 0
    requires forall k :: 0 <= k < |slots| ==> lo <= slots[k] <= hi
    ensures Scaled(m as real, lo) <= WindowSum(slots, i, half, m) <= Scaled(m as real, hi)
  {
    hide Scaled, Wrap;
    ZeroTimes(lo);
    ZeroTimes(hi);
    if m == 0 {
    } else {
      WindowSumBetween(slots, i, half, m - 1, lo, hi);
      OneMore(m, lo);
      OneMore(m, hi);
    }
  }

  /** And no smoothed slot leaves the range of the profile. */
  lemma SmoothingStaysInRange(slots: seq<real>, window: nat, lo: real, hi: real, i: nat)
    requires 0 < window <= |slots| && i < |slots|
    requires forall k :: 0 <= k < |slots| ==> lo <= slots[k] <= hi
    ensures lo <= Smoothed(slots, window)[i] <= hi
  {
    hide Average, Wrap, Scaled;
    WindowSumBetween(slots, i, window / 2, window, lo, hi);
    SameFactor(window as real, lo, Smoothed(slots, window)[i]);
    SameFactor(window as real, Smoothed(slots, window)[i], hi);
  }

  // ---------------------------------------------------------------- where a spike goes

  /** A profile that is zero but for one slot. */
  function Spike(n: nat, at: nat, height: real): (s: seq<real>)
    requires at < n
    ensures |s| == n && forall i :: 0 <= i < n ==> s[i] == (if i == at then height else 0.0)
  {
    seq(n, i => if i == at then height else 0.0)
  }

  /** Slots this far apart, going round the day the shorter way. */
  function Apart(i: nat, j: nat, n: nat): int
    requires i < n && j < n
  {
    var d := if i <= j then j - i else i - j;
    if d <= n - d then d else n - d
  }

  /** The window position, if any, at which slot `i` sees slot `at`. */
  function Seen(i: nat, at: nat, half: nat, n: nat): int
    requires i < n && at < n
  {
    var d := at - i + half;
    if d < 0 then d + n else if d < n then d else d - n
  }

  lemma SeenOnce(i: nat, at: nat, half: nat, n: nat, j: nat)
    requires i < n && at < n && half <= n && j < n
    ensures Wrap(i + j - half, n) == at <==> j == Seen(i, at, half, n)
    ensures 0 <= Seen(i, at, half, n) < n
  {
    hide Wrap;
    WrapNear(i + j - half, n);
  }

  lemma {:induction false} SpikeSum(n: nat, at: nat, height: real, i: nat, half: nat, m: nat)
    requires i < n && at < n && half <= n && m <= n
    ensures WindowSum(Spike(n, at, height), i, half, m) == if Seen(i, at, half, n) < m then height else 0.0
  {
    hide Wrap, Seen;
    if m == 0 {
      SeenOnce(i, at, half, n, 0);
    } else {
      SpikeSum(n, at, height, i, half, m - 1);
      SeenOnce(i, at, half, n, m - 1);
    }
  }

  /** With an odd window the positions that see the spike are those no more than half a window away. */
  lemma SeenWhenNear(i: nat, at: nat, n: nat, window: nat)
    requires i < n && at < n && 0 < window <= n && window % 2 == 1
    ensures Seen(i, at, window / 2, n) < window <==> Apart(i, at, n) <= window / 2
  {
  }

  /** A spike spreads evenly over the slots within half a window on either side, and nowhere else. */
  lemma SpikeSpreads(n: nat, at: nat, height: real, window: nat, i: nat)
    requires i < n && at < n && 0 < window <= n && window % 2 == 1
    ensures Smoothed(Spike(n, at, height), window)[i]
      == if Apart(i, at, n) <= window / 2 then height / window as real else 0.0
  {
    hide Seen, Apart, WindowSum;
    SpikeSum(n, at, height, i, window / 2, window);
    SeenWhenNear(i, at, n, window);
  }
}
