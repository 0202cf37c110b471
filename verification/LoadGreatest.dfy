/**
  The greatest schedule a relay load's constraints leave room for (lp/loads.py), whatever the
  overrides and whatever block is unfinished: the load can be planned exactly when that schedule
  meets its daily targets.
 */
module LoadGreatest {
  import opened Options
  import opened Reals
  import opened Loads
  import opened LoadLedger
  import opened LoadFeasibility

  /** The first slot from `t` on in one of the wanted states, or the horizon end. */
  function Seek(ld: Load, t: nat, want: set<DayState>): (k: nat)
    requires ld.config.Relayed? && t <= |ld.slots|
    ensures t <= k <= |ld.slots|
    ensures forall u :: t <= u < k ==> ld.SlotState(u) !in want
    ensures k < |ld.slots| ==> ld.SlotState(k) in want
    decreases |ld.slots| - t
  {
    if t == |ld.slots| || ld.SlotState(t) in want then t else Seek(ld, t + 1, want)
  }

  function LongestBlock(ld: Load): nat
    requires ld.config.Relayed? && ld.config.blocks.Some?
  {
    MaxInt(ld.config.blocks.value.minOn, ld.config.blocks.value.minOff)
  }

  /** A state that begins inside the horizon lasts at least a block of either kind, or to its end. */
  predicate StatesLast(ld: Load)
    requires ld.config.Relayed?
  {
    ld.config.blocks.Some? ==>
      forall t, k :: 1 <= t <= k < |ld.slots| && k - t < LongestBlock(ld) ==>
        ld.SlotState(t) != ld.SlotState(t - 1) ==> ld.SlotState(k) == ld.SlotState(t)
  }

  /** Blocks no longer than a local day see to that: overrides are for whole days. */
  lemma DaysLast(ld: Load)
    requires CalendarOK(ld) && GridOK(ld) && BlocksFitDays(ld) && ld.config.Relayed?
    ensures StatesLast(ld)
  {
    if ld.config.blocks.Some? {
      forall t, k | 1 <= t <= k < |ld.slots| && k - t < LongestBlock(ld) && ld.SlotState(t) != ld.SlotState(t - 1)
        ensures ld.SlotState(k) == ld.SlotState(t)
      {
        OpensDay(ld, t);
        BlockStaysInDay(ld, t, k, LongestBlock(ld));
      }
    }
  }

  // ---------------------------------------------------------------- the stretch an off-block keeps off

  predicate Held(ld: Load) {
    ld.config.Relayed? && ld.config.blocks.Some? && ld.slotMinutes > 0 && OffBlockBinds(ld)
  }

  /** The first free slot the block pins. */
  function HoldStart(ld: Load): nat
    requires ld.config.Relayed?
  {
    Seek(ld, 0, {Auto})
  }

  /** The relay is off at least this far: as pinned, or, switching off after an "on" day, for a whole off-run. */
  function HoldEnd(ld: Load): nat
    requires Held(ld)
  {
    var a := HoldStart(ld);
    var afterOn := 0 < a < |ld.slots| && ld.SlotState(a - 1) == On;
    var free := if a < |ld.slots| then Seek(ld, a, {On, Off}) else a;
    MinInt(free, if afterOn then a + ld.config.blocks.value.minOff else Pinned(ld))
  }

  /** And further, up to the next "off" day, when no on-run fits before it. */
  function OffUntil(ld: Load): nat
    requires Held(ld)
  {
    var q := HoldEnd(ld);
    if q > |ld.slots| then q
    else
      var b := Seek(ld, q, {Off});
      if b < |ld.slots| && b - q < ld.config.blocks.value.minOn then b else q
  }

  /** Off on "off" days and in the stretch the unfinished block keeps off, on elsewhere. */
  function Greatest(ld: Load): (r: seq<real>)
    requires ld.config.Relayed?
    ensures |r| == |ld.slots|
    ensures forall t :: 0 <= t < |r| ==>
      r[t] == (if ld.SlotState(t) == Off || (Held(ld) && HoldStart(ld) <= t < OffUntil(ld)) then 0.0 else 1.0)
  {
    seq(|ld.slots|, t requires 0 <= t < |ld.slots| =>
      if ld.SlotState(t) == Off || (Held(ld) && HoldStart(ld) <= t < OffUntil(ld)) then 0.0 else 1.0)
  }

  /** A state seen at `t` and gone by `e`, less than a block later, did not begin at `t`. */
  lemma NoChange(ld: Load, t: nat, e: nat)
    requires ld.config.Relayed? && ld.config.blocks.Some? && StatesLast(ld)
    requires 1 <= t <= e < |ld.slots| && e - t < LongestBlock(ld)
    requires ld.SlotState(e) != ld.SlotState(t)
    ensures ld.SlotState(t) == ld.SlotState(t - 1)
  {
  }

  lemma Lasts(ld: Load, t: nat, e: nat)
    requires ld.config.Relayed? && ld.config.blocks.Some? && StatesLast(ld)
    requires 1 <= t <= e < |ld.slots| && ld.SlotState(t) != ld.SlotState(t - 1) && ld.SlotState(e) != ld.SlotState(t)
    ensures e - t >= LongestBlock(ld)
  {
  }

  /** The stretch starts free and pinned; before it the horizon is in one overridden state. */
  lemma Before(ld: Load)
    requires Held(ld) && StatesLast(ld)
    ensures var a, n := HoldStart(ld), |ld.slots|;
      && a < Pinned(ld) <= ld.config.blocks.value.minOff && a < n
      && ld.SlotState(a) == Auto
      && forall u :: 0 <= u < a ==> ld.SlotState(u) == ld.SlotState(a - 1) != Auto
  {
    var a := HoldStart(ld);
    forall u | 0 <= u < a ensures ld.SlotState(u) == ld.SlotState(a - 1) {
      SameStateBefore(ld, u, a);
    }
  }

  lemma {:induction false} SameStateBefore(ld: Load, u: nat, a: nat)
    requires ld.config.Relayed? && ld.config.blocks.Some? && StatesLast(ld)
    requires u < a < |ld.slots| && a < ld.config.blocks.value.minOff
    requires ld.SlotState(a) == Auto && forall v :: 0 <= v < a ==> ld.SlotState(v) != Auto
    ensures ld.SlotState(u) == ld.SlotState(a - 1)
    decreases a - u
  {
    if u < a - 1 {
      SameStateBefore(ld, u + 1, a);
      NoChange(ld, u + 1, a);
    }
  }

  /** A pinned free slot is not past the first overridden one. */
  lemma PinnedBeforeOverride(ld: Load, free: nat, t: nat)
    requires ld.config.Relayed? && ld.config.blocks.Some? && StatesLast(ld)
    requires 1 <= free <= t < |ld.slots| && t < ld.config.blocks.value.minOff
    requires ld.SlotState(free) != Auto && ld.SlotState(free - 1) == Auto
    ensures ld.SlotState(t) != Auto
  {
  }

  /** All of the held stretch is free, and it covers every free slot the block pins. */
  lemma HoldCovers(ld: Load)
    requires Held(ld) && StatesLast(ld)
    ensures var a, q, n := HoldStart(ld), HoldEnd(ld), |ld.slots|;
      && a < q <= n
      && (forall t :: a <= t < q ==> ld.SlotState(t) == Auto)
      && (forall t :: 0 <= t < Pinned(ld) && ld.SlotState(t) == Auto ==> a <= t < q)
      && (0 < a && ld.SlotState(a - 1) == On ==> q == MinInt(n, a + ld.config.blocks.value.minOff))
  {
    Before(ld);
    hide StatesLast, OffBlockBinds, Pinned;
    var a, n := HoldStart(ld), |ld.slots|;
    var free := Seek(ld, a, {On, Off});
    if free < n {
      forall t | free <= t < Pinned(ld) ensures ld.SlotState(t) != Auto {
        PinnedBeforeOverride(ld, free, t);
      }
      if 0 < a && ld.SlotState(a - 1) == On {
        Lasts(ld, a, free);
      }
    }
  }

  /** Between the held stretch and the "off" day that swallows what follows it there is no "on" day. */
  lemma SwallowedIsFree(ld: Load, t: nat)
    requires Held(ld) && StatesLast(ld) && HoldEnd(ld) <= t < OffUntil(ld)
    ensures OffUntil(ld) < |ld.slots| && ld.SlotState(OffUntil(ld)) == Off
    ensures OffUntil(ld) - HoldEnd(ld) < ld.config.blocks.value.minOn
    ensures ld.SlotState(t) == Auto
  {
    HoldCovers(ld);
    var q, b := HoldEnd(ld), OffUntil(ld);
    FreeUpTo(ld, q, b, t);
  }

  lemma {:induction false} FreeUpTo(ld: Load, q: nat, b: nat, t: nat)
    requires ld.config.Relayed? && ld.config.blocks.Some? && StatesLast(ld)
    requires 1 <= q <= t < b < |ld.slots| && b - q < ld.config.blocks.value.minOn
    requires ld.SlotState(q - 1) == Auto && ld.SlotState(b) == Off
    requires forall u :: q <= u < b ==> ld.SlotState(u) != Off
    ensures ld.SlotState(t) == Auto
    decreases t
  {
    if q == t {
    } else {
      FreeUpTo(ld, q, b, t - 1);
    }
    NoChange(ld, t, b);
  }

  // ---------------------------------------------------------------- it is greatest

  /** The start of the run that ends in slot `t`, no earlier than `q` when the slot before `q` is off. */
  lemma {:induction false} RunStart(r: seq<real>, q: nat, t: nat) returns (u: nat)
    requires 1 <= q <= t < |r| && r[q - 1] == 0.0 && r[t] == 1.0
    requires forall v :: 0 <= v < |r| ==> Is01(r[v])
    ensures q <= u <= t && r[u] == 1.0 && r[u - 1] == 0.0
    ensures forall v :: u <= v <= t ==> r[v] == 1.0
    decreases t
  {
    if r[t - 1] == 0.0 {
      u := t;
    } else {
      u := RunStart(r, q, t - 1);
    }
  }

  lemma RunEndBefore(r: seq<real>, u: nat, b: nat)
    requires u < b < |r| && r[b] != r[u]
    ensures RunEnd(r, u) <= b
  {
  }

  lemma RunReaches(r: seq<real>, t: nat, q: nat)
    requires t < q <= |r| && forall v :: t <= v < q ==> r[v] == r[t]
    ensures RunEnd(r, t) >= q
  {
  }

  /** Between two off slots an on slot needs room for a whole on-run. */
  lemma OnRunFits(r: seq<real>, b: Blocks, q: nat, t: nat, end: nat)
    requires 1 <= q <= t < end < |r| && forall v :: 0 <= v < |r| ==> Is01(r[v])
    requires RunsLongEnough(r, b) && r[q - 1] == 0.0 && r[t] == 1.0 && r[end] == 0.0
    ensures end - q >= b.minOn
  {
    var u := RunStart(r, q, t);
    RunEndBefore(r, u, end);
  }

  lemma HoldIsOff(ld: Load, r: seq<real>, t: nat)
    requires Held(ld) && StatesLast(ld) && |r| == |ld.slots| && LoadOK(ld, r)
    requires HoldStart(ld) <= t < HoldEnd(ld) && t < |r|
    ensures r[t] == 0.0
  {
    hide DemandsOK, DomainOK, BlocksOK;
    Before(ld);
    HoldCovers(ld);
    var a := HoldStart(ld);
    assert r[a] == 0.0;
    if 0 < a && ld.SlotState(a - 1) == On {
      assert r[a - 1] == 1.0;
      IsBinary(ld, r);
      BlocksExact(r, ld.config.blocks.value);
      assert RunEnd(r, a) == |r| || RunEnd(r, a) - a >= ld.config.blocks.value.minOff;
    }
  }

  lemma IsBinary(ld: Load, r: seq<real>)
    requires ld.config.Relayed? && ld.slotMinutes > 0 && |r| == |ld.slots| && LoadOK(ld, r)
    requires ld.config.blocks.Some?
    ensures forall v :: 0 <= v < |r| ==> Is01(r[v])
    ensures BlocksOK(r, ld.config.blocks.value)
  {
    assert DomainOK(r, true);
  }

  lemma SwallowedIsOff(ld: Load, r: seq<real>, t: nat)
    requires Held(ld) && StatesLast(ld) && |r| == |ld.slots| && LoadOK(ld, r)
    requires HoldEnd(ld) <= t < OffUntil(ld)
    ensures t < |r| && r[t] == 0.0
  {
    hide DemandsOK, DomainOK, BlocksOK, HoldEnd, OffUntil, HoldStart, OffBlockBinds;
    HoldCovers(ld);
    SwallowedIsFree(ld, t);
    IsBinary(ld, r);
    BlocksExact(r, ld.config.blocks.value);
    var q, b := HoldEnd(ld), OffUntil(ld);
    HoldIsOff(ld, r, q - 1);
    assert r[b] == 0.0;
    if r[t] == 1.0 {
      OnRunFits(r, ld.config.blocks.value, q, t, b);
    }
  }

  /** No schedule that satisfies the load is on where the greatest one is off. */
  lemma NothingExceeds(ld: Load, r: seq<real>)
    requires ld.config.Relayed? && ld.slotMinutes > 0 && StatesLast(ld)
    requires |r| == |ld.slots| && LoadOK(ld, r)
    ensures forall t :: 0 <= t < |r| ==> r[t] <= Greatest(ld)[t]
  {
    hide DemandsOK, BlocksOK, CarryOverOK, HoldEnd, OffUntil, HoldStart, OffBlockBinds;
    forall t | 0 <= t < |r| ensures r[t] <= Greatest(ld)[t] {
      if Held(ld) && HoldStart(ld) <= t < OffUntil(ld) {
        if t < HoldEnd(ld) {
          HoldIsOff(ld, r, t);
        } else {
          SwallowedIsOff(ld, r, t);
        }
      }
    }
  }

  // ---------------------------------------------------------------- and it satisfies everything but the targets

  lemma GreatestOffRun(ld: Load, t: nat)
    requires Held(ld) && StatesLast(ld) && 1 <= t < |ld.slots|
    requires Greatest(ld)[t] == 0.0 && Greatest(ld)[t - 1] == 1.0
    ensures var e := RunEnd(Greatest(ld), t);
      e == |ld.slots| || e - t >= ld.config.blocks.value.minOff
  {
    hide HoldEnd, OffUntil, HoldStart, OffBlockBinds;
    Before(ld);
    HoldCovers(ld);
    var r, a, q, e := Greatest(ld), HoldStart(ld), HoldEnd(ld), RunEnd(Greatest(ld), t);
    OffUntilAfter(ld);
    if t == a {
      assert ld.SlotState(a - 1) == On;
      RunReaches(r, t, q);
    } else if e < |ld.slots| {
      assert ld.SlotState(t) == Off && ld.SlotState(t - 1) != Off;
      assert ld.SlotState(e) != Off;
      Lasts(ld, t, e);
    }
  }

  lemma OffUntilAfter(ld: Load)
    requires Held(ld) && StatesLast(ld)
    ensures HoldEnd(ld) <= OffUntil(ld) <= |ld.slots|
    ensures OffUntil(ld) > HoldEnd(ld) ==> OffUntil(ld) < |ld.slots| && ld.SlotState(OffUntil(ld)) == Off
    ensures OffUntil(ld) == HoldEnd(ld) ==>
      var b := Seek(ld, HoldEnd(ld), {Off});
      b == |ld.slots| || b == HoldEnd(ld) || b - HoldEnd(ld) >= ld.config.blocks.value.minOn
  {
    HoldCovers(ld);
  }

  lemma GreatestOnRun(ld: Load, t: nat)
    requires Held(ld) && StatesLast(ld) && 1 <= t < |ld.slots|
    requires Greatest(ld)[t] == 1.0 && Greatest(ld)[t - 1] == 0.0
    ensures var e := RunEnd(Greatest(ld), t);
      e == |ld.slots| || e - t >= ld.config.blocks.value.minOn
  {
    hide HoldEnd, OffUntil, HoldStart, OffBlockBinds;
    Before(ld);
    HoldCovers(ld);
    OffUntilAfter(ld);
    var r, a, q, e := Greatest(ld), HoldStart(ld), HoldEnd(ld), RunEnd(Greatest(ld), t);
    if t == OffUntil(ld) {
      var b := Seek(ld, q, {Off});
      RunReaches(r, t, b);
    } else if e < |ld.slots| {
      assert ld.SlotState(t - 1) == Off && ld.SlotState(t) != Off;
      assert a <= t - 1;
      assert ld.SlotState(e) == Off;
      Lasts(ld, t, e);
    }
  }

  lemma GreatestRuns(ld: Load)
    requires ld.config.Relayed? && ld.config.blocks.Some? && ld.slotMinutes > 0 && StatesLast(ld)
    ensures BlocksOK(Greatest(ld), ld.config.blocks.value)
  {
    hide HoldEnd, OffUntil, HoldStart, OffBlockBinds;
    var r, b := Greatest(ld), ld.config.blocks.value;
    forall t | 1 <= t < |r| && r[t] != r[t - 1]
      ensures RunEnd(r, t) == |r| || RunEnd(r, t) - t >= (if r[t] == 1.0 then b.minOn else b.minOff)
    {
      var e := RunEnd(r, t);
      if Held(ld) {
        if r[t] == 1.0 {
          GreatestOnRun(ld, t);
        } else {
          GreatestOffRun(ld, t);
        }
      } else if e < |r| {
        assert ld.SlotState(t) != ld.SlotState(t - 1) && ld.SlotState(e) != ld.SlotState(t);
        Lasts(ld, t, e);
      }
    }
    BlocksExact(r, b);
  }

  lemma StretchIsFree(ld: Load, t: nat)
    requires Held(ld) && StatesLast(ld) && HoldStart(ld) <= t < OffUntil(ld)
    ensures t < |ld.slots| && ld.SlotState(t) == Auto
  {
    hide HoldEnd, OffUntil, HoldStart, OffBlockBinds, StatesLast, Pinned;
    HoldCovers(ld);
    OffUntilAfter(ld);
    if HoldEnd(ld) <= t {
      SwallowedIsFree(ld, t);
    }
  }

  lemma GreatestKeepsOverrides(ld: Load)
    requires ld.config.Relayed? && ld.slotMinutes > 0 && StatesLast(ld)
    ensures DomainOK(Greatest(ld), ld.config.blocks.Some?) && OverridesOK(ld, Greatest(ld))
  {
    hide HoldEnd, OffUntil, HoldStart, OffBlockBinds, StatesLast, Pinned;
    forall t | Held(ld) && HoldStart(ld) <= t < OffUntil(ld) ensures t < |ld.slots| && ld.SlotState(t) == Auto {
      StretchIsFree(ld, t);
    }
  }

  lemma GreatestKeepsBlock(ld: Load)
    requires ld.config.Relayed? && ld.config.blocks.Some? && ld.slotMinutes > 0 && StatesLast(ld)
    ensures CarryOverOK(ld, Greatest(ld))
  {
    if Held(ld) {
      hide HoldEnd, OffUntil, HoldStart, OffBlockBinds, StatesLast, Pinned;
      HoldCovers(ld);
      OffUntilAfter(ld);
    }
  }

  /** A schedule that is on wherever another is meets every target the other meets. */
  lemma MeetsMore(ds: seq<Demand>, r: seq<real>, s: seq<real>, unit: real)
    requires MeetsAll(ds, r, unit) && 0.0 <= unit && |r| == |s|
    requires forall t :: 0 <= t < |r| ==> r[t] <= s[t]
    ensures MeetsAll(ds, s, unit)
  {
    forall i | 0 <= i < |ds| ensures DemandMet(ds[i], s, unit) {
      assert DemandMet(ds[i], r, unit);
      SumAtMonotone(r, s, ds[i].window);
      ScaleMonotone(unit, SumAt(r, ds[i].window), SumAt(s, ds[i].window));
    }
  }

  lemma ScaleMonotone(k: real, a: real, b: real)
    requires 0.0 <= k && a <= b
    ensures k * a <= k * b
  {
    assert k * (b - a) >= 0.0;
  }

  /**
    For every override map and every unfinished block: a relay load can be planned if and only if
    its greatest schedule meets the emitted daily targets, and then that schedule is a plan.
   */
  lemma FeasibleIff(ld: Load)
    requires ld.config.Relayed? && ld.slotMinutes > 0 && StatesLast(ld)
    ensures (exists r :: |r| == |ld.slots| && LoadOK(ld, r)) <==> DemandsOK(ld, Greatest(ld))
    ensures LoadOK(ld, Greatest(ld)) <==> DemandsOK(ld, Greatest(ld))
  {
    hide Greatest, CarryOverOK, OverridesOK, DomainOK, BlocksOK, StatesLast;
    GreatestKeepsOverrides(ld);
    if ld.config.blocks.Some? {
      GreatestKeepsBlock(ld);
      GreatestRuns(ld);
    }
    if r :| |r| == |ld.slots| && LoadOK(ld, r) {
      NothingExceeds(ld, r);
      if Demands(ld) != [] {
        MeetsMore(Demands(ld), r, Greatest(ld), ld.UnitPerSlot());
      }
    }
  }

  // ---------------------------------------------------------------- where a block is longer than a day

  /** From a slot before a day that is off to a slot after it; off-runs last 24 hours and five minutes. */
  function LongRest(): Load {
    Load(Relayed(0.9, RunTime(0), map[1 := Off], Some(Blocks(1, 289))),
         Status(0.0, None, None, None),
         Calendar(t => if t < 1440 * US_PER_MINUTE then 0 else if t < 2880 * US_PER_MINUTE then 1 else 2,
                  d => d * 1440 * US_PER_MINUTE, d => (d * 1440 + 1200) * US_PER_MINUTE),
         seq(290, t requires 0 <= t => (1435 + 5 * t) * US_PER_MINUTE),
         5)
  }

  /** On at most in the first and the last slot. */
  function OnAtEnds(first: real, last: real): (r: seq<real>)
    ensures |r| == 290
    ensures forall t :: 0 <= t < 290 ==> r[t] == (if t == 0 then first else if t == 289 then last else 0.0)
  {
    seq(290, t => if t == 0 then first else if t == 289 then last else 0.0)
  }

  lemma LongRestStates(t: nat)
    requires t < 290
    ensures LongRest().SlotState(t) == if 1 <= t < 289 then Off else Auto
  {
  }

  lemma LongRestRuns(first: real, last: real)
    requires Is01(first) && Is01(last)
    ensures RunsLongEnough(OnAtEnds(first, last), Blocks(1, 289)) <==> first == 0.0 || last == 0.0
  {
    var r := OnAtEnds(first, last);
    assert RunEnd(r, 289) == 290;
    if last == 0.0 {
      RunReaches(r, 1, 290);
    } else {
      RunReaches(r, 1, 289);
      RunEndBefore(r, 1, 289);
      assert RunEnd(r, 1) == 289;
      assert r[1] != r[0] <==> first == 1.0;
    }
  }

  lemma LongRestOK(first: real, last: real)
    requires Is01(first) && Is01(last)
    ensures LoadOK(LongRest(), OnAtEnds(first, last)) <==> first == 0.0 || last == 0.0
  {
    hide BlocksOK, RunsLongEnough;
    var r := OnAtEnds(first, last);
    forall t | 0 <= t < 290 ensures LongRest().SlotState(t) == if 1 <= t < 289 then Off else Auto {
      LongRestStates(t);
    }
    BlocksExact(r, Blocks(1, 289));
    LongRestRuns(first, last);
  }

  lemma LongRestShape(r: seq<real>)
    requires |r| == 290 && OverridesOK(LongRest(), r)
    ensures r == OnAtEnds(r[0], r[289])
  {
    forall t | 0 <= t < 290 ensures r[t] == OnAtEnds(r[0], r[289])[t] {
      LongRestStates(t);
    }
  }

  /**
    With a block longer than a day a load may have no greatest schedule: either end may be on, but
    no schedule is on at both.
   */
  lemma MayHaveNoGreatest()
    ensures LoadOK(LongRest(), OnAtEnds(1.0, 0.0)) && LoadOK(LongRest(), OnAtEnds(0.0, 1.0))
    ensures forall r :: |r| == 290 && r[0] == 1.0 && r[289] == 1.0 ==> !LoadOK(LongRest(), r)
  {
    LongRestOK(1.0, 0.0);
    LongRestOK(0.0, 1.0);
    LongRestOK(1.0, 1.0);
    forall r | |r| == 290 && r[0] == 1.0 && r[289] == 1.0 ensures !LoadOK(LongRest(), r) {
      if OverridesOK(LongRest(), r) {
        LongRestShape(r);
      }
    }
  }
}
