/** Exact real arithmetic over sequences. The source's floats are modelled by reals. */
module Reals {

  function Min(a: real, b: real): real { if a <= b then a else b }

  function Max(a: real, b: real): real { if a >= b then a else b }

  function Sum(s: seq<real>): real
  {
    if s == [] then 0.0 else Sum(s[..|s| - 1]) + s[|s| - 1]
  }

  /** The entries of `s` at the given indices, added up. */
  function SumAt(s: seq<real>, at: seq<nat>): real
    requires forall i :: 0 <= i < |at| ==> at[i] < |s|
  {
    if at == [] then 0.0 else SumAt(s, at[..|at| - 1]) + s[at[|at| - 1]]
  }

  function Range(lo: nat, hi: nat): (r: seq<nat>)
    requires lo <= hi
    ensures |r| == hi - lo
    ensures forall i :: 0 <= i < |r| ==> r[i] == lo + i
  {
    seq(hi - lo, i requires 0 <= i < hi - lo => lo + i)
  }

  lemma SumAppend(s: seq<real>, x: real)
    ensures Sum(s + [x]) == Sum(s) + x
  {
    assert (s + [x])[..|s|] == s;
  }

  lemma {:induction false} SumConcat(a: seq<real>, b: seq<real>)
    ensures Sum(a + b) == Sum(a) + Sum(b)
  {
    if b == [] {
      assert a + b == a;
    } else {
      var c := b[..|b| - 1];
      SumConcat(a, c);
      assert a + b == (a + c) + [b[|b| - 1]];
      SumAppend(a + c, b[|b| - 1]);
    }
  }

  lemma {:induction false} SumScale(s: seq<real>, t: seq<real>, k: real)
    requires |s| == |t|
    requires forall i :: 0 <= i < |s| ==> t[i] == k * s[i]
    ensures Sum(t) == k * Sum(s)
  {
    if s == [] {
    } else {
      var n := |s| - 1;
      SumScale(s[..n], t[..n], k);
      assert k * (Sum(s[..n]) + s[n]) == k * Sum(s[..n]) + k * s[n];
    }
  }

  lemma {:induction false} SumAdd(s: seq<real>, t: seq<real>, u: seq<real>)
    requires |s| == |t| == |u|
    requires forall i :: 0 <= i < |s| ==> u[i] == s[i] + t[i]
    ensures Sum(u) == Sum(s) + Sum(t)
  {
    if s == [] {
    } else {
      var n := |s| - 1;
      SumAdd(s[..n], t[..n], u[..n]);
    }
  }

  lemma {:induction false} SumMonotone(s: seq<real>, t: seq<real>)
    requires |s| == |t|
    requires forall i :: 0 <= i < |s| ==> s[i] <= t[i]
    ensures Sum(s) <= Sum(t)
  {
    if s == [] {
    } else {
      SumMonotone(s[..|s| - 1], t[..|t| - 1]);
    }
  }

  lemma {:induction false} SumUpdate(s: seq<real>, i: nat, x: real)
    requires i < |s|
    ensures Sum(s[i := x]) == Sum(s) - s[i] + x
  {
    var n := |s| - 1;
    if i < n {
      SumUpdate(s[..n], i, x);
      assert s[i := x][..n] == s[..n][i := x];
    } else {
      assert s[i := x][..n] == s[..n];
    }
  }

  /** A 0/1 vector adds up to at most the number of indices, and reaches it only when all are 1. */
  lemma {:induction false} SumAtBinary(s: seq<real>, at: seq<nat>)
    requires forall i :: 0 <= i < |at| ==> at[i] < |s| && 0.0 <= s[at[i]] <= 1.0
    ensures 0.0 <= SumAt(s, at) <= |at| as real
    ensures SumAt(s, at) == |at| as real <==> (forall i :: 0 <= i < |at| ==> s[at[i]] == 1.0)
    ensures SumAt(s, at) == 0.0 <==> (forall i :: 0 <= i < |at| ==> s[at[i]] == 0.0)
  {
    if at == [] {
    } else {
      var n := |at| - 1;
      SumAtBinary(s, at[..n]);
      assert forall i :: 0 <= i < n ==> at[..n][i] == at[i];
    }
  }

  lemma {:induction false} SumAtMonotone(s: seq<real>, t: seq<real>, at: seq<nat>)
    requires |s| == |t|
    requires forall i :: 0 <= i < |at| ==> at[i] < |s| && s[at[i]] <= t[at[i]]
    ensures SumAt(s, at) <= SumAt(t, at)
  {
    if at == [] {
    } else {
      SumAtMonotone(s, t, at[..|at| - 1]);
    }
  }

  function Dot(w: seq<real>, c: seq<real>): real
    requires |w| == |c|
  {
    if w == [] then 0.0 else Dot(w[..|w| - 1], c[..|c| - 1]) + w[|w| - 1] * c[|c| - 1]
  }

  lemma DotAppend(w: seq<real>, c: seq<real>, u: real, v: real)
    requires |w| == |c|
    ensures Dot(w + [u], c + [v]) == Dot(w, c) + u * v
  {
    hide Dot;
    DotLast(w + [u], c + [v]);
    assert (w + [u])[..|w|] == w && (c + [v])[..|c|] == c;
  }

  lemma DotLast(w: seq<real>, c: seq<real>)
    requires 0 < |w| == |c|
    ensures Dot(w, c) == Dot(w[..|w| - 1], c[..|c| - 1]) + w[|w| - 1] * c[|c| - 1]
  {
  }

  lemma {:induction false} DotUpdate(w: seq<real>, c: seq<real>, i: nat, v: real)
    requires |w| == |c| && i < |c|
    ensures Dot(w, c[i := v]) == Dot(w, c) + w[i] * (v - c[i])
  {
    var n := |c| - 1;
    if i < n {
      DotUpdate(w[..n], c[..n], i, v);
      assert c[i := v][..n] == c[..n][i := v];
    } else {
      assert c[i := v][..n] == c[..n];
      assert w[n] * v == w[n] * c[n] + w[n] * (v - c[n]);
    }
  }

  lemma {:induction false} DotMonotone(w: seq<real>, c: seq<real>, d: seq<real>)
    requires |w| == |c| == |d|
    requires forall i :: 0 <= i < |w| ==> 0.0 <= w[i] && c[i] <= d[i]
    ensures Dot(w, c) <= Dot(w, d)
  {
    if w == [] {
    } else {
      var n := |w| - 1;
      DotMonotone(w[..n], c[..n], d[..n]);
      assert w[n] * (d[n] - c[n]) >= 0.0;
    }
  }

  lemma {:induction false} DotConstant(w: seq<real>, c: seq<real>, v: real)
    requires |w| == |c| && forall i :: 0 <= i < |c| ==> c[i] == v
    ensures Dot(w, c) == Sum(w) * v
  {
    if w == [] {
    } else {
      DotConstant(w[..|w| - 1], c[..|c| - 1], v);
    }
  }

  lemma {:induction false} DotCombine(w: seq<real>, a: seq<real>, b: seq<real>, c: seq<real>, d: seq<real>)
    requires |w| == |a| == |b| == |c| == |d|
    requires forall i :: 0 <= i < |w| ==> d[i] == a[i] - b[i] + c[i]
    ensures Dot(w, d) == Dot(w, a) - Dot(w, b) + Dot(w, c)
  {
    if w == [] {
    } else {
      var n := |w| - 1;
      DotCombine(w[..n], a[..n], b[..n], c[..n], d[..n]);
      assert w[n] * d[n] == w[n] * a[n] - w[n] * b[n] + w[n] * c[n];
    }
  }

  lemma DotTake(w: seq<real>, c: seq<real>, k: nat)
    requires |w| == |c| && k < |w|
    ensures Dot(w[..k + 1], c[..k + 1]) == Dot(w[..k], c[..k]) + w[k] * c[k]
  {
    assert w[..k + 1][..k] == w[..k] && c[..k + 1][..k] == c[..k];
  }
}
