/**
  Managed loads (lp/loads.py): what each load adds to the optimisation problem.

  Times are integers in microseconds. Local time is abstract: a calendar says on which local day
  an instant falls, when that day begins and when its deadline is. Day 0 is the local day of
  slot 0.
 */
module Loads {
  import opened Options
  import opened Reals
  import opened Plans
  import opened Pulp

  const US_PER_MINUTE := 60_000_000

  /** `ROLL_FORWARD_CAP_MULTIPLIER` in lp/constants.py. */
  const ROLL_FORWARD_CAP := 2.0

  datatype DayState = Auto | Off | On

  datatype Target = Energy(kwh: real) | RunTime(minutes: nat)

  datatype Blocks = Blocks(minOn: nat, minOff: nat)

  datatype Calendar = Calendar(dayOf: int -> nat, dayStart: nat -> int, deadline: nat -> int)

  /** A relay load may be free to switch every slot, or (with `blocks`) must run in blocks. */
  datatype LoadConfig =
    | Observable
    | Relayed(draw: real, target: Target, overrides: map<nat, DayState>, blocks: Option<Blocks>)

  /** What the Shelly controller reports (`ManagedLoadStatus`). */
  datatype Status = Status(
    energyTodayKwh: real,
    relayOn: Option<bool>,
    relaySince: Option<int>,
    onMinutesToday: Option<real>)

  datatype Load = Load(
    config: LoadConfig,
    status: Status,
    calendar: Calendar,
    slots: seq<int>,
    slotMinutes: nat)
  {
    function SlotLength(): int { slotMinutes * US_PER_MINUTE }

    function SlotHours(): real { slotMinutes as real / 60.0 }

    function DayStateOf(day: nat): DayState
      requires config.Relayed?
    {
      if day in config.overrides then config.overrides[day] else Auto
    }

    /** `_slot_state`: the override of the local date a slot starts on. */
    function SlotState(t: nat): DayState
      requires config.Relayed? && t < |slots|
    {
      DayStateOf(calendar.dayOf(slots[t]))
    }

    function TargetUnits(): real
      requires config.Relayed?
    {
      match config.target
      case Energy(kwh) => kwh
      case RunTime(minutes) => minutes as real
    }

    function UnitPerSlot(): real
      requires config.Relayed?
    {
      match config.target
      case Energy(_) => SlotHours() * config.draw
      case RunTime(_) => SlotHours() * 60.0
    }

    function AlreadyToday(): real
      requires config.Relayed?
    {
      match config.target
      case Energy(_) => Max(0.0, status.energyTodayKwh)
      case RunTime(_) => Max(0.0, if status.onMinutesToday.Some? then status.onMinutesToday.value else 0.0)
    }

    /** kW drawn in a slot whose relay variable has the given value. */
    function PowerAt(relay: real): real {
      if config.Relayed? then config.draw * relay else 0.0
    }
  }

  // ---------------------------------------------------------------- the day ledger

  /** One emitted daily-target constraint. */
  datatype Demand = Demand(day: nat, window: seq<nat>, units: real)

  /**
    The state of the day loop, with what it has taken in and let go: `fed` adds up the targets of
    the days it considered, `forgiven` what it dropped on a skipped day or above the cap.
   */
  datatype Ledger = Ledger(demands: seq<Demand>, rolled: real, fed: real, forgiven: real)

  /** The slots before `k` that start in `[lo, hi)`. */
  function SlotsWithin(slots: seq<int>, k: nat, lo: int, hi: int): (w: seq<nat>)
    requires k <= |slots|
    ensures forall i :: 0 <= i < |w| ==> w[i] < k
  {
    if k == 0 then []
    else
      var w := SlotsWithin(slots, k - 1, lo, hi);
      if lo <= slots[k - 1] < hi then w + [k - 1] else w
  }

  lemma {:induction false} SlotsWithinExact(slots: seq<int>, k: nat, lo: int, hi: int)
    requires k <= |slots|
    ensures forall i :: 0 <= i < |SlotsWithin(slots, k, lo, hi)| ==>
      lo <= slots[SlotsWithin(slots, k, lo, hi)[i]] < hi
    ensures forall t :: 0 <= t < k && lo <= slots[t] < hi ==> t in SlotsWithin(slots, k, lo, hi)
    ensures forall i, j :: 0 <= i < j < |SlotsWithin(slots, k, lo, hi)| ==>
      SlotsWithin(slots, k, lo, hi)[i] < SlotsWithin(slots, k, lo, hi)[j]
  {
    if k == 0 {
    } else {
      SlotsWithinExact(slots, k - 1, lo, hi);
    }
  }

  function MaxInt(a: int, b: int): int { if a >= b then a else b }

  function MinInt(a: int, b: int): int { if a <= b then a else b }

  /** A day's local-midnight-to-deadline window, cut to the horizon. */
  function Window(ld: Load, day: nat): (w: seq<nat>)
    requires |ld.slots| > 0
    ensures forall i :: 0 <= i < |w| ==> w[i] < |ld.slots|
  {
    SlotsWithin(ld.slots, |ld.slots|,
                MaxInt(ld.calendar.dayStart(day), ld.slots[0]),
                MinInt(ld.calendar.deadline(day), ld.slots[|ld.slots| - 1] + ld.SlotLength()))
  }

  /**
    What the loop needs to know of one day: the target it feeds in (`own`), the ceiling a combined
    target is cut to (`cap`), the slots that can serve it and what they deliver if always on.
   */
  datatype Day = Day(index: nat, auto: bool, own: real, cap: real, window: seq<nat>, capacity: real)

  function DayOf(ld: Load, index: nat): Day
    requires ld.config.Relayed? && |ld.slots| > 0
  {
    var window := Window(ld, index);
    Day(index,
        ld.DayStateOf(index) == Auto,
        if index == 0 then Max(0.0, ld.TargetUnits() - ld.AlreadyToday()) else ld.TargetUnits(),
        ROLL_FORWARD_CAP * ld.TargetUnits(),
        window,
        |window| as real * ld.UnitPerSlot())
  }

  /** Today's own remainder; on later days also what was rolled forward, cut to the cap. */
  function DayTarget(d: Day, rolled: real): real {
    if d.index == 0 then d.own else Min(d.own + rolled, d.cap)
  }

  /** What one day of the loop does to the ledger. */
  function LedgerDay(d: Day, l: Ledger): Ledger {
    if !d.auto then
      l.(rolled := 0.0, forgiven := l.forgiven + l.rolled)
    else
      var target := DayTarget(d, l.rolled);
      var carried := if d.index == 0 then l.rolled else 0.0;
      var paid := l.(rolled := carried, fed := l.fed + d.own,
                     forgiven := l.forgiven + (d.own + l.rolled - carried - target));
      if target <= 0.0 then paid
      else if |d.window| == 0 || target > d.capacity then paid.(rolled := target)
      else paid.(demands := paid.demands + [Demand(d.index, d.window, target)])
  }

  /** The ledger after the given days, from today on. */
  function LedgerOf(days: seq<Day>): Ledger {
    if days == [] then Ledger([], 0.0, 0.0, 0.0)
    else LedgerDay(days[|days| - 1], LedgerOf(days[..|days| - 1]))
  }

  function DaysOf(ld: Load, n: nat): (days: seq<Day>)
    requires ld.config.Relayed? && |ld.slots| > 0
    ensures |days| == n
    ensures forall i :: 0 <= i < n ==> days[i] == DayOf(ld, i)
  {
    seq(n, i requires 0 <= i < n => DayOf(ld, i))
  }

  /** The ledger after the first `n` days. */
  function LedgerAfter(ld: Load, n: nat): Ledger
    requires ld.config.Relayed? && |ld.slots| > 0
  {
    LedgerOf(DaysOf(ld, n))
  }

  lemma LedgerNext(ld: Load, n: nat)
    requires ld.config.Relayed? && |ld.slots| > 0
    ensures LedgerAfter(ld, n + 1) == LedgerDay(DayOf(ld, n), LedgerAfter(ld, n))
  {
    assert DaysOf(ld, n + 1)[..n] == DaysOf(ld, n);
  }

  /** The demands emitted for a load; none when the loop's guard fails. */
  function Demands(ld: Load): seq<Demand>
    requires ld.config.Relayed?
  {
    if |ld.slots| > 0 && ld.TargetUnits() > 0.0 && ld.UnitPerSlot() > 0.0
    then LedgerAfter(ld, 3).demands
    else []
  }

  lemma {:induction false} DemandWindows(ld: Load, days: nat)
    requires ld.config.Relayed? && |ld.slots| > 0
    ensures forall i :: 0 <= i < |LedgerAfter(ld, days).demands| ==>
      var d := LedgerAfter(ld, days).demands[i];
      d.day < days && d.window == Window(ld, d.day)
  {
    if days == 0 {
    } else {
      DemandWindows(ld, days - 1);
      LedgerNext(ld, days - 1);
    }
  }

  // ---------------------------------------------------------------- what a schedule must satisfy

  predicate Is01(v: real) { v == 0.0 || v == 1.0 }

  /** Slot 0 is always integral; future slots only for block-running loads. */
  predicate DomainOK(r: seq<real>, forceBinary: bool) {
    forall t :: 0 <= t < |r| ==>
      if t == 0 || forceBinary then Is01(r[t]) else 0.0 <= r[t] <= 1.0
  }

  predicate OverridesOK(ld: Load, r: seq<real>)
    requires ld.config.Relayed? && |r| == |ld.slots|
  {
    forall t :: 0 <= t < |r| ==>
      (ld.SlotState(t) == Off ==> r[t] == 0.0) && (ld.SlotState(t) == On ==> r[t] == 1.0)
  }

  predicate DemandMet(d: Demand, r: seq<real>, unit: real) {
    && (forall i :: 0 <= i < |d.window| ==> d.window[i] < |r|)
    && unit * SumAt(r, d.window) >= d.units
  }

  predicate MeetsAll(ds: seq<Demand>, r: seq<real>, unit: real) {
    forall i :: 0 <= i < |ds| ==> DemandMet(ds[i], r, unit)
  }

  predicate DemandsOK(ld: Load, r: seq<real>)
    requires ld.config.Relayed?
  {
    MeetsAll(Demands(ld), r, ld.UnitPerSlot())
  }

  /** The block that starts at `t`, cut at the horizon end. */
  function Block(t: nat, len: nat, n: nat): (b: seq<nat>)
    requires t < n
    ensures forall i :: 0 <= i < |b| ==> b[i] < n
  {
    Range(t, if t + len <= n then t + len else n)
  }

  predicate MinOnAt(r: seq<real>, minOn: nat, t: nat)
    requires 1 <= t < |r|
  {
    SumAt(r, Block(t, minOn, |r|)) >= |Block(t, minOn, |r|)| as real * (r[t] - r[t - 1])
  }

  predicate MinOffAt(r: seq<real>, minOff: nat, t: nat)
    requires 1 <= t < |r|
  {
    SumAt(r, Block(t, minOff, |r|)) <= |Block(t, minOff, |r|)| as real * (1.0 - (r[t - 1] - r[t]))
  }

  predicate BlocksOK(r: seq<real>, b: Blocks) {
    && (forall t :: 1 <= t < |r| ==> MinOnAt(r, b.minOn, t))
    && (forall t :: 1 <= t < |r| ==> MinOffAt(r, b.minOff, t))
  }

  /** Whole slots the relay had already been in its state when slot 0 began. */
  function ElapsedSlots(ld: Load): nat
    requires ld.slotMinutes > 0 && |ld.slots| > 0 && ld.status.relaySince.Some?
  {
    MaxInt(0, (ld.slots[0] - ld.status.relaySince.value) / ld.SlotLength())
  }

  /** How many leading slots the unfinished block still pins; 0 when nothing is known. */
  function Pinned(ld: Load): nat
    requires ld.config.Relayed? && ld.config.blocks.Some? && ld.slotMinutes > 0
    ensures Pinned(ld) <= |ld.slots|
  {
    if ld.status.relaySince.None? || ld.status.relayOn.None? || |ld.slots| == 0 then 0
    else
      var b := ld.config.blocks.value;
      var remaining := (if ld.status.relayOn.value then b.minOn else b.minOff) - ElapsedSlots(ld);
      MaxInt(0, MinInt(remaining, |ld.slots|))
  }

  predicate CarryOverOK(ld: Load, r: seq<real>)
    requires ld.config.Relayed? && ld.config.blocks.Some? && ld.slotMinutes > 0
    requires |r| == |ld.slots|
  {
    forall t :: 0 <= t < Pinned(ld) && ld.SlotState(t) == Auto ==>
      r[t] == if ld.status.relayOn.value then 1.0 else 0.0
  }

  /** Everything a load's constraints ask of its relay schedule. */
  predicate LoadOK(ld: Load, r: seq<real>)
    requires |r| == |ld.slots| && ld.slotMinutes > 0
  {
    ld.config.Relayed? ==>
      && DomainOK(r, ld.config.blocks.Some?)
      && OverridesOK(ld, r)
      && DemandsOK(ld, r)
      && (ld.config.blocks.Some? ==> BlocksOK(r, ld.config.blocks.value) && CarryOverOK(ld, r))
  }

  // ---------------------------------------------------------------- emission

  /** The assignment holds a schedule of `n` slots for load `l` of scenario `s`. */
  predicate Fits(x: Assignment, s: nat, l: nat, n: nat) {
    s < |x| && l < |x[s].relays| && |x[s].relays[l]| == n
  }

  function RelayTerms(s: nat, l: nat, at: seq<nat>, unit: real): seq<Expr> {
    seq(|at|, i requires 0 <= i < |at| => Times(unit, Of(Var.Relay(s, l, at[i]))))
  }

  lemma {:induction false} RelayTermsValue(s: nat, l: nat, at: seq<nat>, unit: real, x: Assignment, n: nat)
    requires Fits(x, s, l, n)
    requires forall i :: 0 <= i < |at| ==> at[i] < n
    ensures Eval(LpSum(RelayTerms(s, l, at, unit)), x) == unit * SumAt(x[s].relays[l], at)
  {
    if at == [] {
    } else {
      var m := |at| - 1;
      RelayTermsValue(s, l, at[..m], unit, x, n);
      assert RelayTerms(s, l, at, unit)[..m] == RelayTerms(s, l, at[..m], unit);
    }
  }

  /** Adds the relay variables, their domains and the schedule overrides. */
  method AddRelays(prob: LpProblem, ld: Load, s: nat, l: nat)
    requires ld.config.Relayed?
    modifies prob`constraints
    ensures forall x: Assignment | Fits(x, s, l, |ld.slots|) ::
      Sat(prob.constraints, x) <==>
        && Sat(old(prob.constraints), x)
        && DomainOK(x[s].relays[l], ld.config.blocks.Some?)
        && OverridesOK(ld, x[s].relays[l])
  {
    var n := |ld.slots|;
    for t := 0 to n
      invariant forall x: Assignment | Fits(x, s, l, n) ::
        Sat(prob.constraints, x) <==>
          Sat(old(prob.constraints), x) && DomainOK(x[s].relays[l][..t], ld.config.blocks.Some?)
    {
      if t == 0 || ld.config.blocks.Some? {
        prob.Add(Integral(Var.Relay(s, l, t)));
      } else {
        prob.Bounds(Var.Relay(s, l, t), 0.0, 1.0);
      }
    }
    ghost var domains := prob.constraints;
    for t := 0 to n
      invariant forall x: Assignment | Fits(x, s, l, n) ::
        Sat(prob.constraints, x) <==>
          && Sat(domains, x)
          && (forall u :: 0 <= u < t ==>
            && (ld.SlotState(u) == Off ==> x[s].relays[l][u] == 0.0)
            && (ld.SlotState(u) == On ==> x[s].relays[l][u] == 1.0))
    {
      match ld.SlotState(t)
      case Off => prob.Add(Equal(Of(Var.Relay(s, l, t)), Const(0.0)));
      case On => prob.Add(Equal(Of(Var.Relay(s, l, t)), Const(1.0)));
      case Auto =>
    }
    forall x: Assignment | Fits(x, s, l, n)
      ensures Sat(prob.constraints, x) <==>
        && Sat(old(prob.constraints), x)
        && DomainOK(x[s].relays[l], ld.config.blocks.Some?)
        && OverridesOK(ld, x[s].relays[l])
    {
      assert x[s].relays[l][..n] == x[s].relays[l];
    }
  }

  /** Emits one daily-target constraint. */
  method AddDemand(prob: LpProblem, ld: Load, s: nat, l: nat, d: Demand)
    requires ld.config.Relayed?
    requires forall i :: 0 <= i < |d.window| ==> d.window[i] < |ld.slots|
    modifies prob`constraints
    ensures forall x: Assignment | Fits(x, s, l, |ld.slots|) ::
      Sat(prob.constraints, x) <==>
        Sat(old(prob.constraints), x) && DemandMet(d, x[s].relays[l], ld.UnitPerSlot())
  {
    prob.Add(AtLeast(LpSum(RelayTerms(s, l, d.window, ld.UnitPerSlot())), Const(d.units)));
    forall x: Assignment | Fits(x, s, l, |ld.slots|)
      ensures Sat(prob.constraints, x) <==>
        Sat(old(prob.constraints), x) && DemandMet(d, x[s].relays[l], ld.UnitPerSlot())
    {
      RelayTermsValue(s, l, d.window, ld.UnitPerSlot(), x, |ld.slots|);
    }
  }

  /** One day of the loop: emits at most one constraint and says what is rolled forward. */
  method AddDay(prob: LpProblem, ld: Load, s: nat, l: nat, day: nat, rolled: real, ghost led: Ledger)
    returns (rolledOn: real, ghost after: seq<Demand>)
    requires ld.config.Relayed? && |ld.slots| > 0
    requires rolled == led.rolled
    modifies prob`constraints
    ensures rolledOn == LedgerDay(DayOf(ld, day), led).rolled
    ensures after == LedgerDay(DayOf(ld, day), led).demands
    ensures after != led.demands ==> |after| == |led.demands| + 1 && after[..|led.demands|] == led.demands
    ensures forall x: Assignment | Fits(x, s, l, |ld.slots|) ::
      Sat(prob.constraints, x) <==>
        && Sat(old(prob.constraints), x)
        && (after != led.demands ==> DemandMet(after[|led.demands|], x[s].relays[l], ld.UnitPerSlot()))
  {
    hide Sat, Load.TargetUnits, Load.UnitPerSlot, Load.AlreadyToday, Load.SlotLength, SlotsWithin, DemandMet;
    var n := |ld.slots|;
    var target, unit := ld.TargetUnits(), ld.UnitPerSlot();
    after := LedgerDay(DayOf(ld, day), led).demands;
    if ld.DayStateOf(day) != Auto {
      return 0.0, after;
    }
    var windowStart := MaxInt(ld.calendar.dayStart(day), ld.slots[0]);
    var windowEnd := MinInt(ld.calendar.deadline(day), ld.slots[n - 1] + ld.SlotLength());
    var window := SlotsWithin(ld.slots, n, windowStart, windowEnd);
    var dayTarget;
    rolledOn := rolled;
    if day == 0 {
      dayTarget := Max(0.0, target - ld.AlreadyToday());
    } else {
      dayTarget := target + rolled;
      rolledOn := 0.0;
      var cap := ROLL_FORWARD_CAP * target;
      if dayTarget > cap {
        dayTarget := cap;
      }
    }
    if dayTarget <= 0.0 {
      return;
    }
    if |window| == 0 || dayTarget > |window| as real * unit {
      return dayTarget, after;
    }
    AddDemand(prob, ld, s, l, Demand(day, window, dayTarget));
    assert after == led.demands + [Demand(day, window, dayTarget)];
  }

  /** The day loop: three days from today, each rolling what it cannot fit into the next. */
  method AddDailyTargets(prob: LpProblem, ld: Load, s: nat, l: nat)
    requires ld.config.Relayed?
    modifies prob`constraints
    ensures forall x: Assignment | Fits(x, s, l, |ld.slots|) ::
      Sat(prob.constraints, x) <==> Sat(old(prob.constraints), x) && DemandsOK(ld, x[s].relays[l])
  {
    var unit := ld.UnitPerSlot();
    if |ld.slots| == 0 || ld.TargetUnits() <= 0.0 || unit <= 0.0 {
      return;
    }
    var rolled := 0.0;
    ghost var demands: seq<Demand> := [];
    for day := 0 to 3
      invariant rolled == LedgerAfter(ld, day).rolled
      invariant demands == LedgerAfter(ld, day).demands
      invariant forall x: Assignment | Fits(x, s, l, |ld.slots|) ::
        Sat(prob.constraints, x) <==>
          Sat(old(prob.constraints), x) && MeetsAll(demands, x[s].relays[l], unit)
    {
      ghost var after;
      LedgerNext(ld, day);
      rolled, after := AddDay(prob, ld, s, l, day, rolled, LedgerAfter(ld, day));
      if after != demands {
        assert after == demands + [after[|demands|]];
        MeetsAllAppend(demands, after[|demands|], unit);
      }
      demands := after;
    }
  }

  lemma MeetsAllAppend(ds: seq<Demand>, d: Demand, unit: real)
    ensures forall r :: MeetsAll(ds + [d], r, unit) <==> MeetsAll(ds, r, unit) && DemandMet(d, r, unit)
  {
    forall r ensures MeetsAll(ds + [d], r, unit) <==> MeetsAll(ds, r, unit) && DemandMet(d, r, unit) {
      assert (ds + [d])[|ds|] == d;
      assert forall i :: 0 <= i < |ds| ==> (ds + [d])[i] == ds[i];
    }
  }

  /** The min-up inequality of slot `t`. */
  method AddMinOn(prob: LpProblem, s: nat, l: nat, minOn: nat, t: nat, n: nat)
    requires 1 <= t < n
    modifies prob`constraints
    ensures forall x: Assignment | Fits(x, s, l, n) ::
      Sat(prob.constraints, x) <==> Sat(old(prob.constraints), x) && MinOnAt(x[s].relays[l], minOn, t)
  {
    var window := Block(t, minOn, n);
    var jump := Minus(Of(Var.Relay(s, l, t)), Of(Var.Relay(s, l, t - 1)));
    prob.Add(AtLeast(LpSum(RelayTerms(s, l, window, 1.0)), Times(|window| as real, jump)));
    forall x: Assignment | Fits(x, s, l, n)
      ensures Sat(prob.constraints, x) <==> Sat(old(prob.constraints), x) && MinOnAt(x[s].relays[l], minOn, t)
    {
      RelayTermsValue(s, l, window, 1.0, x, n);
    }
  }

  /** The min-down inequality of slot `t`. */
  method AddMinOff(prob: LpProblem, s: nat, l: nat, minOff: nat, t: nat, n: nat)
    requires 1 <= t < n
    modifies prob`constraints
    ensures forall x: Assignment | Fits(x, s, l, n) ::
      Sat(prob.constraints, x) <==> Sat(old(prob.constraints), x) && MinOffAt(x[s].relays[l], minOff, t)
  {
    var window := Block(t, minOff, n);
    var drop := Minus(Of(Var.Relay(s, l, t - 1)), Of(Var.Relay(s, l, t)));
    prob.Add(AtMost(LpSum(RelayTerms(s, l, window, 1.0)),
                    Times(|window| as real, Minus(Const(1.0), drop))));
    forall x: Assignment | Fits(x, s, l, n)
      ensures Sat(prob.constraints, x) <==> Sat(old(prob.constraints), x) && MinOffAt(x[s].relays[l], minOff, t)
    {
      RelayTermsValue(s, l, window, 1.0, x, n);
    }
  }

  /** Minimum run lengths inside the horizon. */
  method AddBlocks(prob: LpProblem, ld: Load, s: nat, l: nat)
    requires ld.config.Relayed? && ld.config.blocks.Some?
    modifies prob`constraints
    ensures forall x: Assignment | Fits(x, s, l, |ld.slots|) ::
      Sat(prob.constraints, x) <==>
        Sat(old(prob.constraints), x) && BlocksOK(x[s].relays[l], ld.config.blocks.value)
  {
    var n := |ld.slots|;
    var b := ld.config.blocks.value;
    if n == 0 {
      return;
    }
    for t := 1 to n
      invariant forall x: Assignment | Fits(x, s, l, n) ::
        Sat(prob.constraints, x) <==>
          Sat(old(prob.constraints), x) && (forall u :: 1 <= u < t ==> MinOnAt(x[s].relays[l], b.minOn, u))
    {
      AddMinOn(prob, s, l, b.minOn, t, n);
    }
    ghost var ons := prob.constraints;
    for t := 1 to n
      invariant forall x: Assignment | Fits(x, s, l, n) ::
        Sat(prob.constraints, x) <==>
          Sat(ons, x) && (forall u :: 1 <= u < t ==> MinOffAt(x[s].relays[l], b.minOff, u))
    {
      AddMinOff(prob, s, l, b.minOff, t, n);
    }
  }

  /** Pins the leading slots of a block that an earlier tick began. */
  method AddCarryOver(prob: LpProblem, ld: Load, s: nat, l: nat)
    requires ld.config.Relayed? && ld.config.blocks.Some? && ld.slotMinutes > 0
    modifies prob`constraints
    ensures forall x: Assignment | Fits(x, s, l, |ld.slots|) ::
      Sat(prob.constraints, x) <==> Sat(old(prob.constraints), x) && CarryOverOK(ld, x[s].relays[l])
  {
    var n := |ld.slots|;
    if ld.status.relaySince.None? || ld.status.relayOn.None? || n == 0 {
      return;
    }
    var b := ld.config.blocks.value;
    var elapsed := ElapsedSlots(ld);
    var on := ld.status.relayOn.value;
    var remaining := (if on then b.minOn else b.minOff) - elapsed;
    var k := 0;
    while k < MinInt(remaining, n)
      invariant 0 <= k <= Pinned(ld)
      invariant forall x: Assignment | Fits(x, s, l, n) ::
        Sat(prob.constraints, x) <==>
          && Sat(old(prob.constraints), x)
          && (forall u :: 0 <= u < k && ld.SlotState(u) == Auto ==>
            x[s].relays[l][u] == if on then 1.0 else 0.0)
    {
      if ld.SlotState(k) == Auto {
        prob.Add(Equal(Of(Var.Relay(s, l, k)), Const(if on then 1.0 else 0.0)));
      }
      k := k + 1;
    }
  }

  /** `add_to` of either relay load class, and of the observable load, which adds nothing. */
  method AddTo(prob: LpProblem, ld: Load, s: nat, l: nat)
    requires ld.slotMinutes > 0
    modifies prob`constraints
    ensures forall x: Assignment | Fits(x, s, l, |ld.slots|) ::
      Sat(prob.constraints, x) <==> Sat(old(prob.constraints), x) && LoadOK(ld, x[s].relays[l])
  {
    if ld.config.Observable? {
      return;
    }
    AddRelays(prob, ld, s, l);
    AddDailyTargets(prob, ld, s, l);
    if ld.config.blocks.Some? {
      AddBlocks(prob, ld, s, l);
      AddCarryOver(prob, ld, s, l);
    }
  }
}
