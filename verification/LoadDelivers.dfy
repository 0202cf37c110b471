/**
  What a relay load's constraints deliver (lp/loads.py), counted slot by slot from the load's draw, the
  slot length and the figures its controller reports.
 */
module LoadDelivers {
  import opened Reals
  import opened Loads
  import opened LoadLedger
  import opened LoadFeasibility

  /** The slot starts between the local midnight of a day and that day's deadline. */
  predicate OnTime(ld: Load, day: nat, t: nat)
    requires t < |ld.slots|
  {
    ld.calendar.dayStart(day) <= ld.slots[t] < ld.calendar.deadline(day)
  }

  /** kWh of a slot in which the relay is on for the given part of the time. */
  function SlotKwh(ld: Load, on: real): real
    requires ld.config.Relayed?
  {
    ld.config.draw * on * (ld.slotMinutes as real / 60.0)
  }

  function SlotMinutesOn(ld: Load, on: real): real { on * ld.slotMinutes as real }

  /** kWh the relay takes before the day's deadline, over the first `k` slots. */
  function EnergyOn(ld: Load, r: seq<real>, day: nat, k: nat): real
    requires ld.config.Relayed? && k <= |ld.slots| == |r|
  {
    if k == 0 then 0.0
    else
      EnergyOn(ld, r, day, k - 1)
        + (if OnTime(ld, day, k - 1) then SlotKwh(ld, r[k - 1]) else 0.0)
  }

  /** Minutes it is on before the day's deadline. */
  function MinutesOn(ld: Load, r: seq<real>, day: nat, k: nat): real
    requires k <= |ld.slots| == |r|
  {
    if k == 0 then 0.0
    else
      MinutesOn(ld, r, day, k - 1) + (if OnTime(ld, day, k - 1) then SlotMinutesOn(ld, r[k - 1]) else 0.0)
  }

  /** Slots before the day's deadline. */
  function SlotsOn(ld: Load, day: nat, k: nat): nat
    requires k <= |ld.slots|
  {
    if k == 0 then 0 else SlotsOn(ld, day, k - 1) + (if OnTime(ld, day, k - 1) then 1 else 0)
  }

  // ---------------------------------------------------------------- the window is those slots

  lemma InOrder(ld: Load, t: nat)
    requires GridOK(ld) && t < |ld.slots|
    ensures ld.slots[0] <= ld.slots[t] <= ld.slots[|ld.slots| - 1]
  {
    GridOffset(ld, 0, t);
    GridOffset(ld, t, |ld.slots| - 1);
    Forward(t, ld.SlotLength());
    Forward(|ld.slots| - 1 - t, ld.SlotLength());
  }

  lemma Forward(k: nat, length: int)
    requires 0 < length
    ensures 0 <= k * length
  {
  }

  /** Cutting the window to the horizon loses nothing. */
  lemma WindowIsOnTime(ld: Load, day: nat, t: nat)
    requires GridOK(ld) && t < |ld.slots|
    ensures var lo := MaxInt(ld.calendar.dayStart(day), ld.slots[0]);
      var hi := MinInt(ld.calendar.deadline(day), ld.slots[|ld.slots| - 1] + ld.SlotLength());
      lo <= ld.slots[t] < hi <==> OnTime(ld, day, t)
  {
    InOrder(ld, t);
  }

  lemma SlotKwhAdds(ld: Load, a: real, b: real)
    requires ld.config.Relayed?
    ensures SlotKwh(ld, a + b) == SlotKwh(ld, a) + SlotKwh(ld, b) && SlotKwh(ld, 0.0) == 0.0
  {
    var hours := ld.slotMinutes as real / 60.0;
    assert ld.config.draw * (a + b) * hours == ld.config.draw * a * hours + ld.config.draw * b * hours;
  }

  lemma SlotMinutesAdd(ld: Load, a: real, b: real)
    ensures SlotMinutesOn(ld, a + b) == SlotMinutesOn(ld, a) + SlotMinutesOn(ld, b) && SlotMinutesOn(ld, 0.0) == 0.0
  {
  }

  lemma {:induction false} CountsUpTo(ld: Load, day: nat, lo: int, hi: int, r: seq<real>, k: nat)
    requires k <= |ld.slots| == |r| && ld.config.Relayed?
    requires forall t :: 0 <= t < |ld.slots| ==> (lo <= ld.slots[t] < hi <==> OnTime(ld, day, t))
    ensures var w := SlotsWithin(ld.slots, k, lo, hi);
      && |w| == SlotsOn(ld, day, k)
      && EnergyOn(ld, r, day, k) == SlotKwh(ld, SumAt(r, w))
      && MinutesOn(ld, r, day, k) == SlotMinutesOn(ld, SumAt(r, w))
  {
    hide SlotKwh, SlotMinutesOn, OnTime;
    if k == 0 {
      SlotKwhAdds(ld, 0.0, 0.0);
      SlotMinutesAdd(ld, 0.0, 0.0);
    } else {
      CountsUpTo(ld, day, lo, hi, r, k - 1);
      var w := SlotsWithin(ld.slots, k - 1, lo, hi);
      assert (w + [k - 1])[..|w|] == w;
      SlotKwhAdds(ld, SumAt(r, w), r[k - 1]);
      SlotMinutesAdd(ld, SumAt(r, w), r[k - 1]);
    }
  }

  lemma WindowCounts(ld: Load, day: nat, r: seq<real>)
    requires GridOK(ld) && |ld.slots| == |r| && ld.config.Relayed? && |ld.slots| > 0
    ensures var w, n := Window(ld, day), |ld.slots|;
      && |w| == SlotsOn(ld, day, n)
      && EnergyOn(ld, r, day, n) == SlotKwh(ld, SumAt(r, w))
      && MinutesOn(ld, r, day, n) == SlotMinutesOn(ld, SumAt(r, w))
  {
    hide GridOK, OnTime, SlotKwh, SlotMinutesOn;
    var lo := MaxInt(ld.calendar.dayStart(day), ld.slots[0]);
    var hi := MinInt(ld.calendar.deadline(day), ld.slots[|ld.slots| - 1] + ld.SlotLength());
    forall t | 0 <= t < |ld.slots| ensures lo <= ld.slots[t] < hi <==> OnTime(ld, day, t) {
      WindowIsOnTime(ld, day, t);
    }
    CountsUpTo(ld, day, lo, hi, r, |ld.slots|);
  }

  // ---------------------------------------------------------------- what is due gets delivered

  /** What day `day` is to get, in kWh or minutes, before anything rolled forward: today less what it already had. */
  function DueOn(ld: Load, day: nat): real
    requires ld.config.Relayed?
  {
    match ld.config.target
    case Energy(kwh) =>
      if day > 0 then kwh else Max(0.0, kwh - Max(0.0, ld.status.energyTodayKwh))
    case RunTime(minutes) =>
      if day > 0 || ld.status.onMinutesToday.None? then minutes as real
      else Max(0.0, minutes as real - Max(0.0, ld.status.onMinutesToday.value))
  }

  /** What a schedule delivers on a day, in the unit of the target. */
  function DeliveredOn(ld: Load, r: seq<real>, day: nat): real
    requires ld.config.Relayed? && |ld.slots| == |r|
  {
    match ld.config.target
    case Energy(_) => EnergyOn(ld, r, day, |r|)
    case RunTime(_) => MinutesOn(ld, r, day, |r|)
  }

  /** The most a day's slots can deliver, in the unit of the target. */
  function RoomOn(ld: Load, day: nat): real
    requires ld.config.Relayed?
  {
    var slots := SlotsOn(ld, day, |ld.slots|) as real;
    match ld.config.target
    case Energy(_) => SlotKwh(ld, slots)
    case RunTime(_) => SlotMinutesOn(ld, slots)
  }

  /** In the unit of the target. */
  function Credit(ld: Load, on: real): real
    requires ld.config.Relayed?
  {
    if ld.config.target.Energy? then SlotKwh(ld, on) else SlotMinutesOn(ld, on)
  }

  lemma CreditIsUnits(ld: Load, on: real)
    requires ld.config.Relayed?
    ensures Credit(ld, on) == ld.UnitPerSlot() * on
  {
    var hours := ld.slotMinutes as real / 60.0;
    assert ld.config.draw * on * hours == (hours * ld.config.draw) * on;
    assert hours * 60.0 == ld.slotMinutes as real;
  }

  lemma DeliveredIsCredit(ld: Load, r: seq<real>, day: nat)
    requires GridOK(ld) && |ld.slots| == |r| && ld.config.Relayed? && |ld.slots| > 0
    ensures DeliveredOn(ld, r, day) == Credit(ld, SumAt(r, Window(ld, day)))
    ensures RoomOn(ld, day) == Credit(ld, |Window(ld, day)| as real)
  {
    hide SlotKwh, SlotMinutesOn, GridOK;
    WindowCounts(ld, day, r);
  }

  lemma OwnIsDue(ld: Load, day: nat)
    requires ld.config.Relayed? && |ld.slots| > 0
    ensures DayOf(ld, day).own == DueOn(ld, day)
    ensures day > 0 ==> DueOn(ld, day) == ld.TargetUnits()
  {
  }

  lemma DemandIsLast(ld: Load, day: nat, r: seq<real>, due: real)
    requires ld.config.Relayed? && |ld.slots| > 0 && |r| == |ld.slots| && day < 3
    requires ld.TargetUnits() > 0.0 && ld.UnitPerSlot() > 0.0 && DemandsOK(ld, r)
    requires Demand(day, Window(ld, day), due) in LedgerAfter(ld, day + 1).demands
    ensures Credit(ld, SumAt(r, Window(ld, day))) >= due
  {
    hide LedgerAfter, Load.UnitPerSlot, Load.TargetUnits, Credit, Window;
    CreditIsUnits(ld, SumAt(r, Window(ld, day)));
    var d := Demand(day, Window(ld, day), due);
    DemandsStay(ld, day + 1, 3);
    assert d in Demands(ld);
    var i :| 0 <= i < |Demands(ld)| && Demands(ld)[i] == d;
    assert DemandMet(Demands(ld)[i], r, ld.UnitPerSlot());
  }

  lemma {:induction false} DemandsStay(ld: Load, n: nat, m: nat)
    requires ld.config.Relayed? && |ld.slots| > 0 && n <= m
    ensures forall d :: d in LedgerAfter(ld, n).demands ==> d in LedgerAfter(ld, m).demands
    decreases m
  {
    if n < m {
      DemandsStay(ld, n, m - 1);
      LedgerNext(ld, m - 1);
    }
  }

  /** An automatic day whose slots have room for all that may fall due on it is demanded at least its own target. */
  lemma DayIsDemanded(ld: Load, day: nat)
    requires ld.config.Relayed? && |ld.slots| > 0 && ld.TargetUnits() > 0.0 && ld.UnitPerSlot() > 0.0
    requires ld.DayStateOf(day) == Auto && DayOf(ld, day).own > 0.0
    requires Credit(ld, |Window(ld, day)| as real) >= if day == 0 then DayOf(ld, 0).own else 2.0 * ld.TargetUnits()
    ensures exists due ::
      due >= DayOf(ld, day).own && Demand(day, Window(ld, day), due) in LedgerAfter(ld, day + 1).demands
  {
    hide LedgerAfter, Load.UnitPerSlot, Load.AlreadyToday, DayTarget, LedgerDay, Window, Credit;
    LedgerBalances(ld, day);
    var d, l := DayOf(ld, day), LedgerAfter(ld, day);
    var due := DayTarget(d, l.rolled);
    TargetFits(ld, day, l.rolled);
    DemandOfDay(d, l);
    LedgerNext(ld, day);
    var all := l.demands + [Demand(day, Window(ld, day), due)];
    assert all[|l.demands|] == Demand(day, Window(ld, day), due);
  }

  lemma TargetFits(ld: Load, day: nat, rolled: real)
    requires ld.config.Relayed? && |ld.slots| > 0 && ld.TargetUnits() > 0.0 && ld.UnitPerSlot() > 0.0
    requires DayOf(ld, day).own > 0.0 && 0.0 <= rolled
    requires Credit(ld, |Window(ld, day)| as real) >= if day == 0 then DayOf(ld, 0).own else 2.0 * ld.TargetUnits()
    ensures var d := DayOf(ld, day);
      |d.window| > 0 && d.own <= DayTarget(d, rolled) <= d.capacity
  {
    hide Load.UnitPerSlot, Load.AlreadyToday, Window, Credit;
    CapacityIsCredit(ld, day);
    if |Window(ld, day)| == 0 {
      CreditIsUnits(ld, 0.0);
      ZeroSlots(ld.UnitPerSlot());
    }
  }

  lemma CapacityIsCredit(ld: Load, day: nat)
    requires ld.config.Relayed? && |ld.slots| > 0
    ensures DayOf(ld, day).capacity == Credit(ld, |Window(ld, day)| as real)
  {
    hide Load.UnitPerSlot, Window, Credit;
    CreditIsUnits(ld, |Window(ld, day)| as real);
  }

  lemma ZeroSlots(unit: real)
    ensures unit * 0.0 == 0.0
  {
  }

  /**
    On every day of the horizon the user left on auto, a schedule satisfying the load delivers that
    day's own target before its deadline, today less what was already delivered, provided the day has
    slots enough for it; on later days for twice the target, since as much again may be rolled in.
   */
  lemma DayIsServed(ld: Load, r: seq<real>, day: nat)
    requires GridOK(ld) && ld.config.Relayed? && |r| == |ld.slots| && LoadOK(ld, r) && day < 3
    requires ld.DayStateOf(day) == Auto
    requires RoomOn(ld, day) >= if day == 0 then DueOn(ld, 0) else 2.0 * DueOn(ld, day)
    ensures DeliveredOn(ld, r, day) >= DueOn(ld, day) || DueOn(ld, day) <= 0.0
  {
    hide DomainOK, OverridesOK, BlocksOK, CarryOverOK, GridOK, Credit, Load.UnitPerSlot;
    if DueOn(ld, day) > 0.0 {
      Nonempty(ld, day);
      OwnIsDue(ld, day);
      DeliveredIsCredit(ld, r, day);
      PositiveUnit(ld, |Window(ld, day)|);
      DayIsDemanded(ld, day);
      var due :| due >= DayOf(ld, day).own && Demand(day, Window(ld, day), due) in LedgerAfter(ld, day + 1).demands;
      DemandIsLast(ld, day, r, due);
    }
  }

  lemma PositiveUnit(ld: Load, slots: nat)
    requires ld.config.Relayed? && Credit(ld, slots as real) > 0.0
    ensures 0.0 < ld.UnitPerSlot()
  {
    hide Credit, Load.UnitPerSlot;
    CreditIsUnits(ld, slots as real);
    SignOfProduct(ld.UnitPerSlot(), slots as real);
  }

  lemma SignOfProduct(a: real, b: real)
    requires 0.0 <= b
    ensures a <= 0.0 ==> a * b <= 0.0
  {
    if a <= 0.0 {
      assert (-a) * b >= 0.0;
    }
  }

  lemma Nonempty(ld: Load, day: nat)
    requires ld.config.Relayed? && DueOn(ld, day) > 0.0 && RoomOn(ld, day) >= DueOn(ld, day)
    ensures |ld.slots| > 0 && ld.TargetUnits() > 0.0
  {
    NoRoom(ld, day);
  }

  lemma NoRoom(ld: Load, day: nat)
    requires ld.config.Relayed?
    ensures ld.slots == [] ==> RoomOn(ld, day) == 0.0
  {
  }
}
