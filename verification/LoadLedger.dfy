/** What the daily-target loop demands, forgives and leaves over (lp/loads.py). */
module LoadLedger {
  import opened Reals
  import opened Loads

  /** The calendar is ordered and knows the local day of every slot of the horizon. */
  ghost predicate CalendarOK(ld: Load) {
    var c := ld.calendar;
    && (forall d: nat, e: nat :: d < e ==> c.dayStart(d) < c.dayStart(e))
    && (forall d: nat {:trigger c.deadline(d)} :: c.dayStart(d) <= c.deadline(d) <= c.dayStart(d + 1))
    && (forall t :: 0 <= t < |ld.slots| ==>
      c.dayStart(c.dayOf(ld.slots[t])) <= ld.slots[t] < c.dayStart(c.dayOf(ld.slots[t]) + 1))
  }

  lemma DayIsUnique(ld: Load, t: nat, d: nat)
    requires CalendarOK(ld) && t < |ld.slots|
    requires ld.calendar.dayStart(d) <= ld.slots[t] < ld.calendar.dayStart(d + 1)
    ensures ld.calendar.dayOf(ld.slots[t]) == d
  {
    var c := ld.calendar;
    var e := c.dayOf(ld.slots[t]);
    assert c.dayStart(e) <= ld.slots[t] < c.dayStart(e + 1);
  }

  lemma WindowInDay(ld: Load, day: nat, i: nat)
    requires CalendarOK(ld) && |ld.slots| > 0
    requires i < |Window(ld, day)|
    ensures ld.calendar.dayOf(ld.slots[Window(ld, day)[i]]) == day
  {
    var lo := MaxInt(ld.calendar.dayStart(day), ld.slots[0]);
    var hi := MinInt(ld.calendar.deadline(day), ld.slots[|ld.slots| - 1] + ld.SlotLength());
    SlotsWithinExact(ld.slots, |ld.slots|, lo, hi);
    assert ld.calendar.deadline(day) <= ld.calendar.dayStart(day + 1);
    hide CalendarOK;
    DayIsUnique(ld, Window(ld, day)[i], day);
  }

  /** A slot is counted towards at most one day's target. */
  lemma WindowsDisjoint(ld: Load, d: nat, e: nat)
    requires CalendarOK(ld) && |ld.slots| > 0 && d != e
    ensures forall t :: !(t in Window(ld, d) && t in Window(ld, e))
  {
    forall t | t in Window(ld, d) && t in Window(ld, e)
      ensures false
    {
      var i :| 0 <= i < |Window(ld, d)| && Window(ld, d)[i] == t;
      var j :| 0 <= j < |Window(ld, e)| && Window(ld, e)[j] == t;
      WindowInDay(ld, d, i);
      WindowInDay(ld, e, j);
    }
  }

  predicate DemandSound(d: Demand, day: Day) {
    && day.auto
    && d.day == day.index
    && d.window == day.window
    && 0.0 < d.units <= day.capacity
    && d.units <= day.cap
  }

  function DemandedUnits(ds: seq<Demand>): real {
    if ds == [] then 0.0 else DemandedUnits(ds[..|ds| - 1]) + ds[|ds| - 1].units
  }

  predicate Balanced(l: Ledger, cap: real) {
    && l.fed == DemandedUnits(l.demands) + l.forgiven + l.rolled
    && 0.0 <= l.forgiven
    && 0.0 <= l.rolled <= cap
  }

  lemma DayBalances(d: Day, l: Ledger)
    requires Balanced(l, d.cap) && 0.0 <= d.own <= d.cap
    requires d.index == 0 ==> l.rolled == 0.0
    ensures Balanced(LedgerDay(d, l), d.cap)
    ensures var ds := LedgerDay(d, l).demands;
      ds != l.demands ==>
        |ds| == |l.demands| + 1 && ds[..|l.demands|] == l.demands && DemandSound(ds[|l.demands|], d)
  {
    var target := DayTarget(d, l.rolled);
    var ds := l.demands + [Demand(d.index, d.window, target)];
    assert ds[..|l.demands|] == l.demands;
    assert DemandedUnits(ds) == DemandedUnits(l.demands) + target;
  }

  /** Every demand is sound for its day, and days are demanded in order. */
  ghost predicate DemandsSound(ds: seq<Demand>, days: seq<Day>) {
    && (forall i :: 0 <= i < |ds| ==> ds[i].day < |days| && DemandSound(ds[i], days[ds[i].day]))
    && (forall i, j :: 0 <= i < j < |ds| ==> ds[i].day < ds[j].day)
  }

  ghost predicate DaysSane(days: seq<Day>, cap: real) {
    forall i :: 0 <= i < |days| ==>
      days[i].index == i && days[i].cap == cap && 0.0 <= days[i].own <= cap
  }

  lemma DemandsSoundExtend(was: seq<Demand>, now: seq<Demand>, days: seq<Day>)
    requires days != [] && DemandsSound(was, days[..|days| - 1])
    requires days[|days| - 1].index == |days| - 1
    requires now != was ==>
      |now| == |was| + 1 && now[..|was|] == was && DemandSound(now[|was|], days[|days| - 1])
    ensures DemandsSound(now, days)
  {
    assert forall i :: 0 <= i < |was| ==> was[i] == now[i];
  }

  lemma {:induction false} LedgerOfBalances(days: seq<Day>, cap: real)
    requires DaysSane(days, cap) && 0.0 <= cap
    ensures Balanced(LedgerOf(days), cap)
    ensures DemandsSound(LedgerOf(days).demands, days)
  {
    if days == [] {
    } else {
      var n := |days| - 1;
      var was := LedgerOf(days[..n]);
      LedgerOfBalances(days[..n], cap);
      if n == 0 {
        assert days[..n] == [];
      }
      DayBalances(days[n], was);
      DemandsSoundExtend(was.demands, LedgerOf(days).demands, days);
    }
  }

  /**
    The ledger balances after any number of days, for every override pattern and truncation:
    what was fed in was demanded, forgiven or is still rolled forward. No demand exceeds what its
    window can deliver with the relay always on, nor the cap, and each day is demanded at most once.
   */
  lemma LedgerBalances(ld: Load, n: nat)
    requires ld.config.Relayed? && |ld.slots| > 0 && ld.TargetUnits() > 0.0
    ensures Balanced(LedgerAfter(ld, n), ROLL_FORWARD_CAP * ld.TargetUnits())
    ensures DemandsSound(LedgerAfter(ld, n).demands, DaysOf(ld, n))
  {
    LedgerOfBalances(DaysOf(ld, n), ROLL_FORWARD_CAP * ld.TargetUnits());
  }

  /** The daily targets fed in up to (not including) day `n`: skipped days feed nothing. */
  function DayTargetsFed(ld: Load, n: nat): real
    requires ld.config.Relayed?
  {
    if n == 0 then 0.0
    else
      DayTargetsFed(ld, n - 1) +
      if ld.DayStateOf(n - 1) != Auto then 0.0
      else if n == 1 then Max(0.0, ld.TargetUnits() - ld.AlreadyToday())
      else ld.TargetUnits()
  }

  lemma {:induction false} FedIsDayTargets(ld: Load, n: nat)
    requires ld.config.Relayed? && |ld.slots| > 0
    ensures LedgerAfter(ld, n).fed == DayTargetsFed(ld, n)
  {
    if n == 0 {
    } else {
      FedIsDayTargets(ld, n - 1);
      LedgerNext(ld, n - 1);
    }
  }

  /** A day is demanded exactly when its target is positive and fits its window; otherwise it rolls on. */
  lemma DemandOfDay(d: Day, l: Ledger)
    requires d.auto
    ensures var now := LedgerDay(d, l);
      var units := DayTarget(d, l.rolled);
      var fits := |d.window| > 0 && units <= d.capacity;
      && (units > 0.0 && fits <==> now.demands != l.demands)
      && (units > 0.0 && fits ==> now.demands == l.demands + [Demand(d.index, d.window, units)])
      && (units > 0.0 && !fits ==> now.rolled == units)
  {
    assert |l.demands + [Demand(d.index, d.window, DayTarget(d, l.rolled))]| > |l.demands|;
  }

  /** A missed day raises the next day's target by the whole shortfall, but never past twice the daily target. */
  lemma MissedTodayRaisesTomorrow(ld: Load)
    requires ld.config.Relayed? && |ld.slots| > 0 && ld.TargetUnits() > 0.0
    requires ld.DayStateOf(0) == Auto && ld.DayStateOf(1) == Auto
    requires Window(ld, 0) == [] && ld.AlreadyToday() < ld.TargetUnits()
    requires 2.0 * ld.TargetUnits() <= |Window(ld, 1)| as real * ld.UnitPerSlot() && Window(ld, 1) != []
    ensures LedgerAfter(ld, 2).demands ==
      [Demand(1, Window(ld, 1), Min(2.0 * ld.TargetUnits(), 2.0 * ld.TargetUnits() - ld.AlreadyToday()))]
  {
    DemandOfDay(DayOf(ld, 0), LedgerAfter(ld, 0));
    LedgerNext(ld, 0);
    DemandOfDay(DayOf(ld, 1), LedgerAfter(ld, 1));
    LedgerNext(ld, 1);
  }
}
