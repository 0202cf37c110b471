/**
  Minimum run lengths across ticks (lp/loads.py, clients/shelly.py): the program is rebuilt every
  tick, and all it knows of the past is the relay state and the time the controller first saw it.
 */
module Dwell {
  import opened Options
  import opened Loads
  import opened LoadNextTick
  import opened Shelly
  import opened Solver

  lemma SlotsElapsed(a: int, b: int, length: int, n: nat)
    requires 0 < length && n <= (a - b) / length
    ensures b + n * length <= a
  {
    var q := (a - b) / length;
    assert a - b == q * length + (a - b) % length;
    assert n * length <= q * length;
  }

  /**
    One tick: unless the user overrides slot 0, a plan that satisfies the load commands a switch
    only when the state has been seen for its minimum number of full slots before slot 0 began.
   */
  lemma SwitchNeedsDwell(ld: Load, r: seq<real>, on: bool, since: int)
    requires BlockLoad(ld) && |r| == |ld.slots| && LoadOK(ld, r)
    requires ld.status.relayOn == Some(on) && ld.status.relaySince == Some(since)
    requires ld.SlotState(0) == Auto
    ensures CommandFor(ld, r) != Some(on) ==>
      MinSlots(ld.config.blocks.value, on) == 0
      || since + MinSlots(ld.config.blocks.value, on) * ld.SlotLength() <= ld.slots[0]
  {
    hide DemandsOK, OverridesOK, BlocksOK;
    var need := MinSlots(ld.config.blocks.value, on);
    assert CarryOverOK(ld, r);
    if Pinned(ld) == 0 && need > 0 {
      SlotsElapsed(ld.slots[0], since, ld.SlotLength(), need);
    }
  }

  // ---------------------------------------------------------------- a run of ticks

  /** The load a tick planned for and the schedule its solution gave it. */
  datatype Planned = Planned(load: Load, schedule: seq<real>)

  /**
    One tick of the service for one relay: when it polled, when its command went out, what it
    planned if it got as far as sending a command, and whether the write landed.
   */
  datatype Tick = Tick(polledAt: int, day: int, commandedAt: int, plan: Option<Planned>, landed: bool)
  {
    /** The state this tick sets the relay to, if any. */
    function Sets(): Command {
      if plan.Some? && landed && |plan.value.schedule| > 0
      then CommandFor(plan.value.load, plan.value.schedule)
      else None
    }
  }

  /** The relay after the ticks so far: it holds what the last landed command set. */
  function StateAfter(ticks: seq<Tick>, initial: bool): bool {
    if ticks == [] then initial
    else
      var last := ticks[|ticks| - 1];
      if last.Sets().Some? then last.Sets().value else StateAfter(ticks[..|ticks| - 1], initial)
  }

  /** The relay at an instant. */
  function StateAt(ticks: seq<Tick>, initial: bool, at: int): bool {
    if ticks == [] then initial
    else
      var last := ticks[|ticks| - 1];
      if last.commandedAt <= at && last.Sets().Some? then last.Sets().value
      else StateAt(ticks[..|ticks| - 1], initial, at)
  }

  /** What the controller's polls have seen up to and including tick `k`. */
  function Seen(ticks: seq<Tick>, initial: bool, k: nat): (polls: seq<Poll>)
    requires k < |ticks|
    ensures |polls| == k + 1
  {
    (if k == 0 then [] else Seen(ticks, initial, k - 1))
      + [Poll(ticks[k].polledAt, ticks[k].day, StateAfter(ticks[..k], initial))]
  }

  /** A command's load carries what the controller reports, and its schedule satisfies the load. */
  predicate FromPlan(ticks: seq<Tick>, initial: bool, k: nat)
    requires k < |ticks| && ticks[k].plan.Some?
  {
    var p := ticks[k].plan.value;
    && BlockLoad(p.load) && |p.schedule| == |p.load.slots| && LoadOK(p.load, p.schedule)
    && p.load.status.relayOn == Some(StateAfter(ticks[..k], initial))
    && p.load.status.relaySince == Some(StateSince(Seen(ticks, initial, k)))
    && p.load.slots[0] <= ticks[k].polledAt
  }

  /** Only the tick drives the relay, its reads succeed, and ticks follow one another. */
  predicate Run(ticks: seq<Tick>, initial: bool) {
    && (forall k :: 0 <= k < |ticks| ==> ticks[k].polledAt <= ticks[k].commandedAt)
    && (forall k :: 0 < k < |ticks| ==> ticks[k - 1].commandedAt <= ticks[k].polledAt)
    && (forall k :: 0 <= k < |ticks| && ticks[k].plan.Some? ==> FromPlan(ticks, initial, k))
  }

  lemma {:induction false} SeenLast(ticks: seq<Tick>, initial: bool, k: nat)
    requires k < |ticks|
    ensures Seen(ticks, initial, k)[k] == Poll(ticks[k].polledAt, ticks[k].day, StateAfter(ticks[..k], initial))
    ensures k > 0 ==> Seen(ticks, initial, k)[..k] == Seen(ticks, initial, k - 1)
  {
  }

  /** From when the controller first saw the state up to tick `k`'s command, the relay truly is in it. */
  lemma {:induction false} HeldSinceSeen(ticks: seq<Tick>, initial: bool, k: nat, at: int)
    requires Run(ticks, initial) && k < |ticks|
    requires StateSince(Seen(ticks, initial, k)) <= at
    ensures StateAt(ticks[..k], initial, at) == StateAfter(ticks[..k], initial)
    ensures StateSince(Seen(ticks, initial, k)) <= ticks[k].polledAt
  {
    hide FromPlan;
    SeenLast(ticks, initial, k);
    if k == 0 {
    } else {
      var last := ticks[k - 1];
      SeenLast(ticks, initial, k - 1);
      assert ticks[..k][..k - 1] == ticks[..k - 1];
      if StateAfter(ticks[..k], initial) == StateAfter(ticks[..k - 1], initial) {
        HeldSinceSeen(ticks, initial, k - 1, at);
      } else {
        assert last.Sets().Some? && last.commandedAt <= at;
      }
    }
  }

  lemma {:induction false} LaterTicksDoNotMatter(ticks: seq<Tick>, initial: bool, k: nat, n: nat, at: int)
    requires Run(ticks, initial) && k <= n <= |ticks|
    requires k < |ticks| ==> at < ticks[k].commandedAt
    ensures StateAt(ticks[..n], initial, at) == StateAt(ticks[..k], initial, at)
    decreases n
  {
    hide FromPlan;
    if k == n {
    } else {
      assert ticks[..n][..n - 1] == ticks[..n - 1];
      CommandsInOrder(ticks, initial, k, n - 1);
      LaterTicksDoNotMatter(ticks, initial, k, n - 1, at);
    }
  }

  lemma {:induction false} CommandsInOrder(ticks: seq<Tick>, initial: bool, k: nat, n: nat)
    requires Run(ticks, initial) && k <= n < |ticks|
    ensures ticks[k].commandedAt <= ticks[n].commandedAt
    decreases n
  {
    hide FromPlan;
    if k == n {
    } else {
      CommandsInOrder(ticks, initial, k, n - 1);
    }
  }

  /** The relay is in state `on` throughout `[from, to)`. */
  ghost predicate Holds(ticks: seq<Tick>, initial: bool, on: bool, from: int, to: int) {
    forall at :: from <= at < to ==> StateAt(ticks, initial, at) == on
  }

  /**
    Block dwell over whole runs: whenever a tick's command would change the relay without a user
    override, the relay has truly held its state for the minimum number of full slots, even though
    the program forgets everything between ticks and slot 0 is snapped backwards.
   */
  lemma DwellRespected(ticks: seq<Tick>, initial: bool, k: nat)
    requires Run(ticks, initial) && k < |ticks| && ticks[k].plan.Some?
    requires BlockLoad(ticks[k].plan.value.load) && ticks[k].plan.value.load.SlotState(0) == Auto
    requires |ticks[k].plan.value.schedule| > 0
    ensures var p, on := ticks[k].plan.value, StateAfter(ticks[..k], initial);
      var dwell := MinSlots(p.load.config.blocks.value, on) * p.load.SlotLength();
      CommandFor(p.load, p.schedule) != Some(on) ==>
        Holds(ticks, initial, on, ticks[k].commandedAt - dwell, ticks[k].commandedAt)
  {
    hide LoadOK;
    var t, p, on := ticks[k], ticks[k].plan.value, StateAfter(ticks[..k], initial);
    var since := StateSince(Seen(ticks, initial, k));
    var dwell := MinSlots(p.load.config.blocks.value, on) * p.load.SlotLength();
    assert FromPlan(ticks, initial, k);
    SwitchNeedsDwell(p.load, p.schedule, on, since);
    if CommandFor(p.load, p.schedule) != Some(on) {
      forall at | t.commandedAt - dwell <= at < t.commandedAt
        ensures StateAt(ticks, initial, at) == on
      {
        HeldSinceSeen(ticks, initial, k, at);
        LaterTicksDoNotMatter(ticks, initial, k, |ticks|, at);
        assert ticks[..|ticks|] == ticks;
      }
    }
  }
}
