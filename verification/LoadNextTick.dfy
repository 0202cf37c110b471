/**
  What a tick's own command does to the next tick's load constraints (lp/loads.py): a run that
  starts at slot 0 is bound by nothing in the plan, but pins the relay once it has been seen; what the
  counters report by then may change the targets.
 */
module LoadNextTick {
  import opened Options
  import opened Loads
  import opened Reals
  import opened LoadLedger
  import opened LoadFeasibility
  import opened LoadGreatest
  import opened Shelly

  predicate BlockLoad(ld: Load) {
    ld.config.Relayed? && ld.config.blocks.Some? && ld.slotMinutes > 0 && |ld.slots| > 0
  }

  function MinSlots(b: Blocks, on: bool): nat { if on then b.minOn else b.minOff }

  /** The next tick on the same slots has found the relay switched at `seen`; the counters may have moved on. */
  predicate FoundSwitched(ld: Load, st: Status, on: bool, seen: int)
    requires BlockLoad(ld)
  {
    st.relayOn == Some(on) && st.relaySince == Some(seen) && ld.slots[0] <= seen
  }

  /** The schedule keeps its first state through every free slot of a whole block. */
  predicate FirstRunLasts(ld: Load, r: seq<real>, on: bool)
    requires BlockLoad(ld) && |r| == |ld.slots|
  {
    forall t :: 0 <= t < |r| && t < MinSlots(ld.config.blocks.value, on) && ld.SlotState(t) == Auto ==>
      r[t] == if on then 1.0 else 0.0
  }

  /**
    After a tick has switched the relay as its schedule says, that schedule satisfies the load in the
    next tick on the same slots, whatever that tick reads from the counters, if and only if its first
    run lasts a whole block and it meets the targets emitted then.
   */
  lemma ScheduleSurvivesIff(ld: Load, st: Status, r: seq<real>, on: bool, seen: int)
    requires BlockLoad(ld) && FoundSwitched(ld, st, on, seen)
    requires |r| == |ld.slots| && LoadOK(ld, r)
    ensures LoadOK(ld.(status := st), r) <==> FirstRunLasts(ld, r, on) && DemandsOK(ld.(status := st), r)
  {
    hide BlocksOK, DomainOK, Demands, Pinned;
    NothingElapsed(ld, st, on, seen);
    assert forall t :: 0 <= t < |r| ==> ld.(status := st).SlotState(t) == ld.SlotState(t);
  }

  lemma NothingElapsed(ld: Load, st: Status, on: bool, seen: int)
    requires BlockLoad(ld) && FoundSwitched(ld, st, on, seen)
    ensures Pinned(ld.(status := st)) == MinInt(MinSlots(ld.config.blocks.value, on), |ld.slots|)
  {
    var next := ld.(status := st);
    NegativeQuotient(ld.slots[0] - seen, ld.SlotLength());
    assert ElapsedSlots(next) == 0;
  }

  lemma NegativeQuotient(a: int, b: int)
    requires a <= 0 < b
    ensures a / b <= 0
  {
  }

  /** The next tick has a schedule at all if and only if its greatest one meets the targets emitted then. */
  lemma NextTickIff(ld: Load, st: Status)
    requires BlockLoad(ld) && StatesLast(ld)
    ensures var next := ld.(status := st);
      (exists r :: |r| == |ld.slots| && LoadOK(next, r)) <==> DemandsOK(next, Greatest(next))
  {
    hide LoadOK, DemandsOK, Greatest;
    SameStates(ld, st);
    FeasibleIff(ld.(status := st));
  }

  lemma SameStates(ld: Load, st: Status)
    requires BlockLoad(ld) && StatesLast(ld)
    ensures StatesLast(ld.(status := st))
  {
    var next := ld.(status := st);
    assert forall t :: 0 <= t < |ld.slots| ==> next.SlotState(t) == ld.SlotState(t);
  }

  /** Only an "off" can strand a load: once the relay is found on, the next tick has a schedule whatever is due. */
  lemma OnNeverStrands(ld: Load, st: Status)
    requires BlockLoad(ld) && CalendarOK(ld) && GridOK(ld) && BlocksFitDays(ld) && st.relayOn != Some(false)
    ensures LoadOK(ld.(status := st), AllOn(ld.(status := st)))
  {
    hide LoadOK, DemandsOK;
    var next := ld.(status := st);
    assert CalendarOK(next) && GridOK(next) && BlocksFitDays(next) && !OffBlockBinds(next);
    AllOnFeasible(next);
  }

  /** A run that starts at slot 0 may be as short as it likes. */
  lemma SlotZeroRunIsFree()
    ensures BlocksOK([1.0, 0.0, 0.0], Blocks(3, 2))
  {
    BlocksExact([1.0, 0.0, 0.0], Blocks(3, 2));
  }

  // ---------------------------------------------------------------- a command that leaves nothing to plan

  /** What the controller's trackers report after a day's polls. */
  function StatusFrom(polls: seq<Poll>): Status
    requires polls != []
  {
    Status(0.0, Some(polls[|polls| - 1].on), Some(StateSince(polls)),
           Some(BookedOn(polls) as real / US_PER_MINUTE as real))
  }

  function PollAt(minute: int, on: bool): Poll { Poll(minute * US_PER_MINUTE, 0, on) }

  lemma TwoPolls(minute: int, on: bool)
    ensures StatusFrom([PollAt(minute, on), PollAt(minute + 5, on)])
      == Status(0.0, Some(on), Some(minute * US_PER_MINUTE), Some(if on then 5.0 else 0.0))
  {
    var first := PollAt(minute, on);
    var two := [first, PollAt(minute + 5, on)];
    assert two[..1] == [first];
    assert StateSince(two) == StateSince([first]) == first.at;
    assert BookedOn([first]) == 0;
    assert BookedOn(two) == if on then 5 * US_PER_MINUTE else 0;
  }

  lemma ThreePolls(minute: int, on: bool)
    ensures StatusFrom([PollAt(minute, on), PollAt(minute + 5, on), PollAt(minute + 6, !on)])
      == Status(0.0, Some(!on), Some((minute + 6) * US_PER_MINUTE), Some(if on then 5.0 else 1.0))
  {
    var first := PollAt(minute, on);
    var two := [first, PollAt(minute + 5, on)];
    var three := two + [PollAt(minute + 6, !on)];
    assert three == [first, PollAt(minute + 5, on), PollAt(minute + 6, !on)];
    assert three[..2] == two && two[..1] == [first];
    assert BookedOn([first]) == 0;
    assert BookedOn(two) == if on then 5 * US_PER_MINUTE else 0;
    assert BookedOn(three) == if on then 5 * US_PER_MINUTE else US_PER_MINUTE;
  }

  lemma PinnedAt(ld: Load)
    requires BlockLoad(ld) && ld.slots[0] == 1190 * US_PER_MINUTE && ld.slotMinutes == 5
    requires ld.status.relayOn.Some? && ld.status.relaySince == Some(1185 * US_PER_MINUTE)
    requires ld.config.blocks.value.minOn == 1 && (ld.status.relayOn.value || ld.config.blocks.value.minOff == 1)
    ensures Pinned(ld) == 0
  {
    assert (5 * US_PER_MINUTE) / (5 * US_PER_MINUTE) == 1;
  }

  /** Two five-minute slots before the deadline, one of them still needed, the relay on for a slot. */
  function LongOn(): Load {
    LateLoad().(status := StatusFrom([PollAt(1185, true), PollAt(1190, true)]))
  }

  function FoundOff(): Status { StatusFrom([PollAt(1185, true), PollAt(1190, true), PollAt(1191, false)]) }

  /** The demand of a load on those two slots, with what is still due today. */
  lemma TwoSlotDemands(ld: Load, units: real)
    requires ld.config.Relayed? && ld.slotMinutes == 5 && ld.config.target.RunTime?
    requires ld.slots == LateLoad().slots && ld.calendar == LateLoad().calendar && ld.config.overrides == map[]
    requires units == Max(0.0, ld.TargetUnits() - ld.AlreadyToday()) && 0.0 < ld.TargetUnits()
    ensures Demands(ld) == if 0.0 < units <= 10.0 then [Demand(0, [0, 1], units)] else []
  {
    hide Load.TargetUnits, Load.AlreadyToday;
    var lo := MaxInt(ld.calendar.dayStart(0), ld.slots[0]);
    var hi := MinInt(ld.calendar.deadline(0), ld.slots[1] + ld.SlotLength());
    assert SlotsWithin(ld.slots, 1, lo, hi) == [0];
    assert Window(ld, 0) == [0, 1];
    EmptyWindow(ld, 1);
    EmptyWindow(ld, 2);
    LedgerNext(ld, 0);
    LedgerNext(ld, 1);
    LedgerNext(ld, 2);
  }

  lemma EmptyWindow(ld: Load, day: nat)
    requires ld.slots == LateLoad().slots && ld.calendar == LateLoad().calendar && ld.slotMinutes == 5 && day > 0
    ensures Window(ld, day) == []
  {
    var lo := MaxInt(ld.calendar.dayStart(day), ld.slots[0]);
    var hi := MinInt(ld.calendar.deadline(day), ld.slots[1] + ld.SlotLength());
    assert SlotsWithin(ld.slots, 1, lo, hi) == [];
  }

  /**
    A tick may plan "off, then on", command off, and so leave the next tick without any schedule:
    the plan's first run is shorter than the block the command starts.
   */
  lemma CommandCanStrand()
    ensures LoadOK(LongOn(), [0.0, 1.0]) && !FirstRunLasts(LongOn(), [0.0, 1.0], false)
    ensures FoundSwitched(LongOn(), FoundOff(), false, 1191 * US_PER_MINUTE)
    ensures forall r :: |r| == 2 ==> !LoadOK(LongOn().(status := FoundOff()), r)
  {
    var ld, plan := LongOn(), [0.0, 1.0];
    var next := ld.(status := FoundOff());
    TwoPolls(1185, true);
    ThreePolls(1185, true);
    TwoSlotDemands(ld, 5.0);
    TwoSlotDemands(next, 5.0);
    BothSlotsCount(plan);
    BlocksExact(plan, Blocks(1, 2));
    PinnedAt(ld);
    NothingElapsed(ld, FoundOff(), false, 1191 * US_PER_MINUTE);
    assert ld.UnitPerSlot() == 5.0 && ld.SlotState(0) == Auto && ld.SlotState(1) == Auto;
    assert next.SlotState(0) == Auto && next.SlotState(1) == Auto;
    assert LoadOK(ld, plan) by {
      assert DemandMet(Demands(ld)[0], plan, 5.0);
    }
    forall r | |r| == 2 ensures !LoadOK(next, r) {
      BothSlotsCount(r);
      assert Demands(next)[0] == Demand(0, [0, 1], 5.0);
    }
  }

  // ---------------------------------------------------------------- a target that comes to fit

  /** Eleven minutes due in ten: nothing is demanded today. */
  function TooLate(): Load {
    LateLoad().(config := Relayed(0.9, RunTime(11), map[], Some(Blocks(1, 1))),
                status := StatusFrom([PollAt(1185, false), PollAt(1190, false)]))
  }

  function FoundOn(): Status { StatusFrom([PollAt(1185, false), PollAt(1190, false), PollAt(1191, true)]) }

  /**
    A first run that lasts is not enough: with one minute booked the rest of the target fits today
    again, is demanded, and the schedule of the tick before does not meet it.
   */
  lemma TargetCanReturn()
    ensures LoadOK(TooLate(), [1.0, 0.0]) && FirstRunLasts(TooLate(), [1.0, 0.0], true)
    ensures FoundSwitched(TooLate(), FoundOn(), true, 1191 * US_PER_MINUTE)
    ensures !LoadOK(TooLate().(status := FoundOn()), [1.0, 0.0])
  {
    var ld, plan := TooLate(), [1.0, 0.0];
    var next := ld.(status := FoundOn());
    TwoPolls(1185, false);
    ThreePolls(1185, false);
    TwoSlotDemands(ld, 11.0);
    TwoSlotDemands(next, 10.0);
    BothSlotsCount(plan);
    BlocksExact(plan, Blocks(1, 1));
    PinnedAt(ld);
    assert LoadOK(ld, plan);
    assert Demands(next)[0] == Demand(0, [0, 1], 10.0) && next.UnitPerSlot() == 5.0;
  }
}
