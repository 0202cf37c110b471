/** When the emitted load constraints can be met, and what the block inequalities mean (lp/loads.py). */
module LoadFeasibility {
  import opened Options
  import opened Reals
  import opened Loads
  import opened LoadLedger

  // ---------------------------------------------------------------- the block encoding is exact

  /** The first index after `t` where the schedule changes, or its end. */
  function RunEnd(r: seq<real>, t: nat): (e: nat)
    requires t < |r|
    ensures t < e <= |r|
    ensures forall u :: t <= u < e ==> r[u] == r[t]
    ensures e < |r| ==> r[e] != r[t]
    decreases |r| - t
  {
    if t + 1 == |r| || r[t + 1] != r[t] then t + 1 else RunEnd(r, t + 1)
  }

  /** Every maximal run that starts after slot 0 lasts its minimum, or reaches the horizon end. */
  predicate RunsLongEnough(r: seq<real>, b: Blocks) {
    forall t :: 1 <= t < |r| && r[t] != r[t - 1] ==>
      RunEnd(r, t) == |r| || RunEnd(r, t) - t >= (if r[t] == 1.0 then b.minOn else b.minOff)
  }

  lemma MinOnMeans(r: seq<real>, minOn: nat, t: nat)
    requires forall u :: 0 <= u < |r| ==> Is01(r[u])
    requires 1 <= t < |r|
    ensures MinOnAt(r, minOn, t) <==>
      (r[t] == 1.0 && r[t - 1] == 0.0 ==> RunEnd(r, t) == |r| || RunEnd(r, t) - t >= minOn)
  {
    var block := Block(t, minOn, |r|);
    SumAtBinary(r, block);
    if r[t] == 1.0 && r[t - 1] == 0.0 {
      assert MinOnAt(r, minOn, t) <==> forall i :: 0 <= i < |block| ==> r[block[i]] == 1.0;
      if RunEnd(r, t) < |r| && RunEnd(r, t) - t < minOn {
        assert block[RunEnd(r, t) - t] == RunEnd(r, t);
      }
    }
  }

  lemma MinOffMeans(r: seq<real>, minOff: nat, t: nat)
    requires forall u :: 0 <= u < |r| ==> Is01(r[u])
    requires 1 <= t < |r|
    ensures MinOffAt(r, minOff, t) <==>
      (r[t] == 0.0 && r[t - 1] == 1.0 ==> RunEnd(r, t) == |r| || RunEnd(r, t) - t >= minOff)
  {
    var block := Block(t, minOff, |r|);
    SumAtBinary(r, block);
    if r[t] == 0.0 && r[t - 1] == 1.0 {
      assert MinOffAt(r, minOff, t) <==> forall i :: 0 <= i < |block| ==> r[block[i]] == 0.0;
      if RunEnd(r, t) < |r| && RunEnd(r, t) - t < minOff {
        assert block[RunEnd(r, t) - t] == RunEnd(r, t);
      }
    }
  }

  /** On 0/1 schedules the emitted inequalities say exactly "no short run", for all lengths and minima. */
  lemma BlocksExact(r: seq<real>, b: Blocks)
    requires forall u :: 0 <= u < |r| ==> Is01(r[u])
    ensures BlocksOK(r, b) <==> RunsLongEnough(r, b)
  {
    forall t | 1 <= t < |r|
      ensures MinOnAt(r, b.minOn, t) && MinOffAt(r, b.minOff, t) <==>
        (r[t] != r[t - 1] ==>
          RunEnd(r, t) == |r| || RunEnd(r, t) - t >= (if r[t] == 1.0 then b.minOn else b.minOff))
    {
      MinOnMeans(r, b.minOn, t);
      MinOffMeans(r, b.minOff, t);
    }
  }

  // ---------------------------------------------------------------- the always-on schedule

  /** Slots follow one another at the slot length, and no slot straddles a local midnight. */
  ghost predicate GridOK(ld: Load) {
    && ld.slotMinutes > 0
    && (forall t :: 0 < t < |ld.slots| ==> ld.slots[t] == ld.slots[t - 1] + ld.SlotLength())
    && (forall t, d :: 0 <= t < |ld.slots| && ld.slots[t] < ld.calendar.dayStart(d) ==>
      ld.slots[t] + ld.SlotLength() <= ld.calendar.dayStart(d))
  }

  function DayLength(c: Calendar, d: nat): int { c.dayStart(d + 1) - c.dayStart(d) }

  /** No minimum run is longer than a local day. */
  ghost predicate BlocksFitDays(ld: Load) {
    ld.config.Relayed? && ld.config.blocks.Some? ==>
      forall d: nat ::
        && ld.config.blocks.value.minOn * ld.SlotLength() <= DayLength(ld.calendar, d)
        && ld.config.blocks.value.minOff * ld.SlotLength() <= DayLength(ld.calendar, d)
  }

  /** On in every slot that is not overridden off. */
  function AllOn(ld: Load): (r: seq<real>)
    requires ld.config.Relayed?
    ensures |r| == |ld.slots|
    ensures forall t :: 0 <= t < |r| ==> r[t] == (if ld.SlotState(t) == Off then 0.0 else 1.0)
  {
    seq(|ld.slots|, t requires 0 <= t < |ld.slots| => if ld.SlotState(t) == Off then 0.0 else 1.0)
  }

  /** An unfinished off-block pins some slot the user did not override. */
  predicate OffBlockBinds(ld: Load)
    requires ld.config.Relayed? && ld.slotMinutes > 0
  {
    ld.config.blocks.Some? && ld.status.relayOn == Some(false) &&
    exists t :: 0 <= t < Pinned(ld) && ld.SlotState(t) == Auto
  }

  lemma {:induction false} GridOffset(ld: Load, t: nat, k: nat)
    requires GridOK(ld) && t <= k < |ld.slots|
    ensures ld.slots[k] == ld.slots[t] + (k - t) * ld.SlotLength()
  {
    if t == k {
    } else {
      GridOffset(ld, t, k - 1);
      assert (k - t) * ld.SlotLength() == (k - 1 - t) * ld.SlotLength() + ld.SlotLength();
    }
  }

  lemma ProductBelow(a: nat, b: nat, length: int)
    requires a < b && length > 0
    ensures 0 <= a * length < b * length
  {
    assert b * length == a * length + (b - a) * length;
    assert (b - a) * length > 0;
  }

  /** A slot whose day differs from its predecessor's opens its day. */
  lemma OpensDay(ld: Load, t: nat)
    requires CalendarOK(ld) && GridOK(ld) && 1 <= t < |ld.slots|
    requires ld.calendar.dayOf(ld.slots[t - 1]) != ld.calendar.dayOf(ld.slots[t])
    ensures ld.slots[t] == ld.calendar.dayStart(ld.calendar.dayOf(ld.slots[t]))
  {
    var d := ld.calendar.dayOf(ld.slots[t]);
    if ld.slots[t - 1] >= ld.calendar.dayStart(d) {
      DayIsUnique(ld, t - 1, d);
    }
  }

  lemma BlockStaysInDay(ld: Load, t: nat, k: nat, len: nat)
    requires CalendarOK(ld) && GridOK(ld)
    requires 1 <= t <= k < |ld.slots| && k - t < len
    requires ld.slots[t] == ld.calendar.dayStart(ld.calendar.dayOf(ld.slots[t]))
    requires forall d: nat :: len * ld.SlotLength() <= DayLength(ld.calendar, d)
    ensures ld.calendar.dayOf(ld.slots[k]) == ld.calendar.dayOf(ld.slots[t])
  {
    var d := ld.calendar.dayOf(ld.slots[t]);
    GridOffset(ld, t, k);
    ProductBelow(k - t, len, ld.SlotLength());
    assert len * ld.SlotLength() <= DayLength(ld.calendar, d);
    DayIsUnique(ld, k, d);
  }

  lemma {:induction false} AllOnRuns(ld: Load)
    requires CalendarOK(ld) && GridOK(ld) && BlocksFitDays(ld)
    requires ld.config.Relayed? && ld.config.blocks.Some?
    ensures BlocksOK(AllOn(ld), ld.config.blocks.value)
  {
    var r := AllOn(ld);
    var b := ld.config.blocks.value;
    forall t | 1 <= t < |r| && r[t] != r[t - 1]
      ensures RunEnd(r, t) == |r| || RunEnd(r, t) - t >= (if r[t] == 1.0 then b.minOn else b.minOff)
    {
      var len := if r[t] == 1.0 then b.minOn else b.minOff;
      var e := RunEnd(r, t);
      if e < |r| && e - t < len {
        OpensDay(ld, t);
        BlockStaysInDay(ld, t, e, len);
      }
    }
    BlocksExact(r, b);
  }

  lemma AllOnesMeet(d: Demand, r: seq<real>, unit: real)
    requires forall j :: 0 <= j < |d.window| ==> d.window[j] < |r| && r[d.window[j]] == 1.0
    requires d.units <= |d.window| as real * unit
    ensures DemandMet(d, r, unit)
  {
    SumAtBinary(r, d.window);
  }

  lemma AllOnInWindow(ld: Load, day: nat)
    requires CalendarOK(ld) && ld.config.Relayed? && |ld.slots| > 0
    requires ld.DayStateOf(day) == Auto
    ensures var w := Window(ld, day); forall j :: 0 <= j < |w| ==> AllOn(ld)[w[j]] == 1.0
  {
    var w := Window(ld, day);
    forall j | 0 <= j < |w| ensures AllOn(ld)[w[j]] == 1.0 {
      WindowInDay(ld, day, j);
      assert ld.SlotState(w[j]) == Auto;
    }
  }

  lemma {:induction false} AllOnMeets(ld: Load, d: Demand)
    requires CalendarOK(ld) && ld.config.Relayed? && |ld.slots| > 0
    requires DemandSound(d, DayOf(ld, d.day))
    ensures DemandMet(d, AllOn(ld), ld.UnitPerSlot())
  {
    hide CalendarOK, SlotsWithin, DemandMet, Load.UnitPerSlot, Load.TargetUnits, Load.AlreadyToday;
    assert d.window == Window(ld, d.day);
    assert d.units <= |d.window| as real * ld.UnitPerSlot();
    AllOnInWindow(ld, d.day);
    AllOnesMeet(d, AllOn(ld), ld.UnitPerSlot());
  }

  lemma AllOnDemands(ld: Load)
    requires CalendarOK(ld) && ld.config.Relayed?
    ensures DemandsOK(ld, AllOn(ld))
  {
    if |ld.slots| > 0 && ld.TargetUnits() > 0.0 && ld.UnitPerSlot() > 0.0 {
      LedgerBalances(ld, 3);
      var ds := LedgerAfter(ld, 3).demands;
      forall i | 0 <= i < |ds| ensures DemandMet(ds[i], AllOn(ld), ld.UnitPerSlot()) {
        assert DaysOf(ld, 3)[ds[i].day] == DayOf(ld, ds[i].day);
        AllOnMeets(ld, ds[i]);
      }
    }
  }

  /**
    With no off-block in force, "on wherever allowed" meets every override, daily-target, min-on,
    min-off and carry-over constraint at once; an off-block that pins a free slot is the only thing
    that can stop it.
   */
  lemma {:induction false} AllOnFeasible(ld: Load)
    requires CalendarOK(ld) && GridOK(ld) && BlocksFitDays(ld) && ld.config.Relayed?
    ensures LoadOK(ld, AllOn(ld)) <==> !OffBlockBinds(ld)
  {
    AllOnDemands(ld);
    if ld.config.blocks.Some? {
      AllOnRuns(ld);
      if OffBlockBinds(ld) {
        var t :| 0 <= t < Pinned(ld) && ld.SlotState(t) == Auto;
        assert AllOn(ld)[t] == 1.0;
      }
    }
  }

  // ---------------------------------------------------------------- an unfinished off-block

  /** Two five-minute slots before the deadline, both still needed, the first pinned off. */
  function LateLoad(): Load {
    Load(Relayed(0.9, RunTime(10), map[], Some(Blocks(1, 2))),
         Status(0.0, Some(false), Some(1185 * US_PER_MINUTE), Some(0.0)),
         Calendar(_ => 0, d => d * 1440 * US_PER_MINUTE, d => (d * 1440 + 1200) * US_PER_MINUTE),
         [1190 * US_PER_MINUTE, 1195 * US_PER_MINUTE],
         5)
  }

  lemma LateLoadDemands()
    ensures |Demands(LateLoad())| > 0 && Demands(LateLoad())[0] == Demand(0, [0, 1], 10.0)
  {
    var ld := LateLoad();
    var lo := MaxInt(ld.calendar.dayStart(0), ld.slots[0]);
    var hi := MinInt(ld.calendar.deadline(0), ld.slots[1] + ld.SlotLength());
    assert SlotsWithin(ld.slots, 1, lo, hi) == [0];
    assert Window(ld, 0) == [0, 1];
    LedgerNext(ld, 0);
    assert LedgerAfter(ld, 1).demands == [Demand(0, [0, 1], 10.0)];
    DemandsKept(DayOf(ld, 1), LedgerAfter(ld, 1));
    LedgerNext(ld, 1);
    DemandsKept(DayOf(ld, 2), LedgerAfter(ld, 2));
    LedgerNext(ld, 2);
  }

  lemma DemandsKept(d: Day, l: Ledger)
    ensures |l.demands| <= |LedgerDay(d, l).demands| && LedgerDay(d, l).demands[..|l.demands|] == l.demands
  {
  }

  /** An unfinished off-block can make the emitted load constraints infeasible. */
  lemma OffBlockCanBeInfeasible()
    ensures OffBlockBinds(LateLoad())
    ensures forall r :: |r| == 2 ==> !LoadOK(LateLoad(), r)
  {
    var ld := LateLoad();
    LateLoadDemands();
    assert Pinned(ld) == 1 && ld.UnitPerSlot() == 5.0;
    assert ld.SlotState(0) == Auto;
    forall r | |r| == 2 ensures !LoadOK(ld, r) {
      BothSlotsCount(r);
    }
  }

  lemma BothSlotsCount(r: seq<real>)
    requires |r| == 2
    ensures SumAt(r, [0, 1]) == r[0] + r[1]
  {
    var both: seq<nat>, first: seq<nat> := [0, 1], [0];
    assert both[..1] == first && first[..0] == [];
    assert SumAt(r, first) == SumAt(r, []) + r[0];
    assert SumAt(r, both) == SumAt(r, first) + r[1];
  }
}
