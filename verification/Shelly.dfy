/**
  The accumulators a Shelly controller updates on every status poll (clients/shelly.py): when the
  relay last changed, how long it has been on today, and how much energy the day has seen. Instants
  are integers in microseconds, days are numbered.
 */
module Shelly {
  import opened Options

  /** `_COUNTER_RESET_THRESHOLD_KWH`. */
  const RESET_THRESHOLD := 0.1

  /** One successful relay read. */
  datatype Poll = Poll(at: int, day: int, on: bool)

  /** One successful meter read: the two lifetime counters. */
  datatype Reading = Reading(day: int, imported: real, returned: real)

  // ---------------------------------------------------------------- what the trackers track

  /** When the state seen last was first seen. */
  function StateSince(polls: seq<Poll>): int
    requires polls != []
  {
    var n := |polls| - 1;
    if n == 0 || polls[n].on != polls[n - 1].on then polls[n].at else StateSince(polls[..n])
  }

  predicate SameDay(polls: seq<Poll>, i: nat)
    requires i < |polls|
  {
    i > 0 && polls[i].day == polls[i - 1].day
  }

  /** On-time booked since the day's first poll: a gap counts in full if the relay is on at its end. */
  function BookedOn(polls: seq<Poll>): int {
    var n := |polls| - 1;
    if polls == [] || !SameDay(polls, n) then 0
    else BookedOn(polls[..n]) + (if polls[n].on then MaxOf(0, polls[n].at - polls[n - 1].at) else 0)
  }

  function MaxOf(a: int, b: int): int { if a >= b then a else b }

  /** A counter went backwards by more than noise. */
  predicate Dropped(before: real, after: real) { after < before - RESET_THRESHOLD }

  /** The day's energy on one side: differences between readings, a reset step counted as zero. */
  function DayEnergy(totals: seq<real>, days: seq<int>): real
    requires |totals| == |days|
  {
    var n := |totals| - 1;
    if n <= 0 || days[n] != days[n - 1] then 0.0
    else
      DayEnergy(totals[..n], days[..n])
        + (if Dropped(totals[n - 1], totals[n]) then 0.0 else totals[n] - totals[n - 1])
  }

  function Imports(rs: seq<Reading>): (totals: seq<real>)
    ensures |totals| == |rs| && forall i :: 0 <= i < |rs| ==> totals[i] == rs[i].imported
  {
    seq(|rs|, i requires 0 <= i < |rs| => rs[i].imported)
  }

  function Returns(rs: seq<Reading>): (totals: seq<real>)
    ensures |totals| == |rs| && forall i :: 0 <= i < |rs| ==> totals[i] == rs[i].returned
  {
    seq(|rs|, i requires 0 <= i < |rs| => rs[i].returned)
  }

  function Days(rs: seq<Reading>): (days: seq<int>)
    ensures |days| == |rs| && forall i :: 0 <= i < |rs| ==> days[i] == rs[i].day
  {
    seq(|rs|, i requires 0 <= i < |rs| => rs[i].day)
  }

  class ShellyLoadController {
    var lastRelayState: Option<bool>
    var relayStateSince: Option<int>

    var relayOnToday: int
    var relayTodayLocalDate: Option<int>
    var lastStatusAt: Option<int>

    var todayDate: Option<int>
    var importBaseline: real
    var returnBaseline: real
    var importedToday: real
    var returnedToday: real
    var lastImported: Option<real>
    var lastReturned: Option<real>

    constructor ()
      ensures TracksState([]) && TracksMinutes([]) && TracksEnergy([])
    {
      lastRelayState, relayStateSince := None, None;
      relayOnToday, relayTodayLocalDate, lastStatusAt := 0, None, None;
      todayDate, lastImported, lastReturned := None, None, None;
      importBaseline, returnBaseline, importedToday, returnedToday := 0.0, 0.0, 0.0, 0.0;
    }

    /** The relay-state fields are what the polls so far make them. */
    predicate TracksState(polls: seq<Poll>)
      reads this
    {
      if polls == [] then lastRelayState == None && relayStateSince == None
      else
        && lastRelayState == Some(polls[|polls| - 1].on)
        && relayStateSince == Some(StateSince(polls))
    }

    predicate TracksMinutes(polls: seq<Poll>)
      reads this
    {
      if polls == [] then relayOnToday == 0 && relayTodayLocalDate == None && lastStatusAt == None
      else
        var last := polls[|polls| - 1];
        && relayOnToday == BookedOn(polls)
        && relayTodayLocalDate == Some(last.day) && lastStatusAt == Some(last.at)
    }

    predicate TracksEnergy(rs: seq<Reading>)
      reads this
    {
      if rs == [] then
        todayDate == None && lastImported == None && lastReturned == None
      else
        var last := rs[|rs| - 1];
        && todayDate == Some(last.day)
        && lastImported == Some(last.imported) && lastReturned == Some(last.returned)
        && importedToday == DayEnergy(Imports(rs), Days(rs))
        && returnedToday == DayEnergy(Returns(rs), Days(rs))
        && importBaseline + importedToday == last.imported
        && returnBaseline + returnedToday == last.returned
    }

    function EnergyToday(): real
      reads this
    {
      importedToday - returnedToday
    }

    /** `_track_relay_state`. */
    method TrackRelayState(on: bool, now: int, day: int, ghost polls: seq<Poll>)
      requires TracksState(polls)
      modifies `lastRelayState, `relayStateSince
      ensures TracksState(polls + [Poll(now, day, on)])
    {
      ghost var all := polls + [Poll(now, day, on)];
      assert all[..|polls|] == polls;
      if lastRelayState.None? || lastRelayState.value != on {
        relayStateSince := Some(now);
      }
      lastRelayState := Some(on);
    }

    /** `_track_relay_on_minutes`, in microseconds. */
    method TrackRelayOnMinutes(on: bool, now: int, day: int, ghost polls: seq<Poll>)
      requires TracksMinutes(polls)
      modifies `relayOnToday, `relayTodayLocalDate, `lastStatusAt
      ensures TracksMinutes(polls + [Poll(now, day, on)])
    {
      ghost var all := polls + [Poll(now, day, on)];
      assert all[..|polls|] == polls;
      if relayTodayLocalDate != Some(day) {
        relayTodayLocalDate := Some(day);
        relayOnToday := 0;
        lastStatusAt := Some(now);
        return;
      }
      if on && lastStatusAt.Some? {
        relayOnToday := relayOnToday + MaxOf(0, now - lastStatusAt.value);
      }
      lastStatusAt := Some(now);
    }

    /** `_track_daily_energy`: baselines shift on a reset so that the day's total is kept. */
    method TrackDailyEnergy(day: int, imported: real, returned: real, ghost rs: seq<Reading>)
      requires TracksEnergy(rs)
      modifies `todayDate, `importBaseline, `returnBaseline, `importedToday, `returnedToday
      modifies `lastImported, `lastReturned
      ensures TracksEnergy(rs + [Reading(day, imported, returned)])
      ensures var all := rs + [Reading(day, imported, returned)];
        EnergyToday() == DayEnergy(Imports(all), Days(all)) - DayEnergy(Returns(all), Days(all))
    {
      ColumnsNext(rs, Reading(day, imported, returned));
      DayEnergyNext(Imports(rs), Days(rs), imported, day);
      DayEnergyNext(Returns(rs), Days(rs), returned, day);
      var resetImport := lastImported.Some? && imported < lastImported.value - RESET_THRESHOLD;
      var resetReturn := lastReturned.Some? && returned < lastReturned.value - RESET_THRESHOLD;
      if todayDate != Some(day) {
        todayDate := Some(day);
        importBaseline, returnBaseline := imported, returned;
        importedToday, returnedToday := 0.0, 0.0;
      } else {
        if resetImport {
          importBaseline := imported - importedToday;
        }
        if resetReturn {
          returnBaseline := returned - returnedToday;
        }
        importedToday := imported - importBaseline;
        returnedToday := returned - returnBaseline;
      }
      lastImported, lastReturned := Some(imported), Some(returned);
    }
  }

  /** One more reading adds its difference, starts a day, or is a reset. */
  lemma DayEnergyNext(totals: seq<real>, days: seq<int>, total: real, day: int)
    requires |totals| == |days|
    ensures DayEnergy(totals + [total], days + [day]) ==
      if totals == [] || days[|days| - 1] != day then 0.0
      else
        DayEnergy(totals, days)
          + (if Dropped(totals[|totals| - 1], total) then 0.0 else total - totals[|totals| - 1])
  {
    assert (totals + [total])[..|totals|] == totals && (days + [day])[..|days|] == days;
  }

  lemma ColumnsNext(rs: seq<Reading>, r: Reading)
    ensures Imports(rs + [r]) == Imports(rs) + [r.imported]
    ensures Returns(rs + [r]) == Returns(rs) + [r.returned]
    ensures Days(rs + [r]) == Days(rs) + [r.day]
  {
  }

  // ---------------------------------------------------------------- the meter

  /**
    Between two readings true energy passes and the counter either follows it or, once at least,
    restarts from zero and counts no more than what passed.
   */
  predicate MeterStep(trueBefore: real, trueAfter: real, before: real, after: real) {
    && trueBefore <= trueAfter && 0.0 <= before
    && (after - before == trueAfter - trueBefore || 0.0 <= after <= trueAfter - trueBefore)
  }

  predicate Metered(energy: seq<real>, totals: seq<real>) {
    && |energy| == |totals|
    && forall i :: 0 < i < |totals| ==> MeterStep(energy[i - 1], energy[i], totals[i - 1], totals[i])
  }

  /** Energy that passed between the readings on either side of a restart, since the day's first reading. */
  function Missed(energy: seq<real>, totals: seq<real>, days: seq<int>): real
    requires |energy| == |totals| == |days|
  {
    var n := |totals| - 1;
    if n <= 0 || days[n] != days[n - 1] then 0.0
    else
      Missed(energy[..n], totals[..n], days[..n])
        + (if Dropped(totals[n - 1], totals[n]) then energy[n] - energy[n - 1] else 0.0)
  }

  /** Energy hidden by restarts that do not show: small drops, and counters that grew past their old value. */
  function Hidden(energy: seq<real>, totals: seq<real>, days: seq<int>): real
    requires |energy| == |totals| == |days|
  {
    var n := |totals| - 1;
    if n <= 0 || days[n] != days[n - 1] then 0.0
    else
      Hidden(energy[..n], totals[..n], days[..n])
        + (if Dropped(totals[n - 1], totals[n]) then 0.0
           else (energy[n] - energy[n - 1]) - (totals[n] - totals[n - 1]))
  }

  /** The index of the day's first reading. */
  function FirstOfDay(days: seq<int>): (j: nat)
    requires days != []
    ensures j < |days|
    ensures forall i :: j <= i < |days| ==> days[i] == days[|days| - 1]
    ensures j > 0 ==> days[j - 1] != days[j]
  {
    var n := |days| - 1;
    if n == 0 || days[n] != days[n - 1] then n else FirstOfDay(days[..n])
  }

  lemma MeteredPrefix(energy: seq<real>, totals: seq<real>, n: nat)
    requires Metered(energy, totals) && n <= |totals|
    ensures Metered(energy[..n], totals[..n])
  {
    forall i | 0 < i < n ensures MeterStep(energy[..n][i - 1], energy[..n][i], totals[..n][i - 1], totals[..n][i]) {
      assert MeterStep(energy[i - 1], energy[i], totals[i - 1], totals[i]);
    }
  }

  /**
    Whatever restarts the meter suffers, the day's figure is the true energy since the day's first
    reading less what passed around restarts that show and less what restarts that do not show hide;
    so it never overstates.
   */
  lemma {:induction false} DayEnergyAccounts(energy: seq<real>, totals: seq<real>, days: seq<int>)
    requires totals != [] && |totals| == |days| && Metered(energy, totals)
    ensures DayEnergy(totals, days)
      == energy[|energy| - 1] - energy[FirstOfDay(days)]
        - Missed(energy, totals, days) - Hidden(energy, totals, days)
    ensures 0.0 <= Missed(energy, totals, days) && 0.0 <= Hidden(energy, totals, days)
  {
    var n := |totals| - 1;
    if n > 0 && days[n] == days[n - 1] {
      assert MeterStep(energy[n - 1], energy[n], totals[n - 1], totals[n]);
      MeteredPrefix(energy, totals, n);
      DayEnergyAccounts(energy[..n], totals[..n], days[..n]);
    }
  }

  /** Every step of the day the meter either follows the energy or drops by more than noise. */
  predicate RestartsShow(energy: seq<real>, totals: seq<real>, days: seq<int>)
    requires |energy| == |totals| == |days| && days != []
  {
    forall i :: FirstOfDay(days) < i < |days| ==>
      Dropped(totals[i - 1], totals[i]) || totals[i] - totals[i - 1] == energy[i] - energy[i - 1]
  }

  lemma RestartsShowNext(energy: seq<real>, totals: seq<real>, days: seq<int>, n: nat)
    requires |energy| == |totals| == |days| == n + 1 && 0 < n && days[n] == days[n - 1]
    ensures RestartsShow(energy, totals, days) <==>
      && RestartsShow(energy[..n], totals[..n], days[..n])
      && (Dropped(totals[n - 1], totals[n]) || totals[n] - totals[n - 1] == energy[n] - energy[n - 1])
  {
    var j := FirstOfDay(days);
    assert j == FirstOfDay(days[..n]);
    if RestartsShow(energy[..n], totals[..n], days[..n]) {
      forall i | j < i < n
        ensures Dropped(totals[i - 1], totals[i]) || totals[i] - totals[i - 1] == energy[i] - energy[i - 1]
      {
        assert totals[..n][i] == totals[i] && totals[..n][i - 1] == totals[i - 1];
      }
    }
  }

  lemma {:induction false} HiddenExactly(energy: seq<real>, totals: seq<real>, days: seq<int>)
    requires totals != [] && |totals| == |days| && Metered(energy, totals)
    ensures Hidden(energy, totals, days) == 0.0 <==> RestartsShow(energy, totals, days)
  {
    var n := |totals| - 1;
    if n > 0 && days[n] == days[n - 1] {
      hide RestartsShow;
      assert MeterStep(energy[n - 1], energy[n], totals[n - 1], totals[n]);
      MeteredPrefix(energy, totals, n);
      HiddenExactly(energy[..n], totals[..n], days[..n]);
      DayEnergyAccounts(energy[..n], totals[..n], days[..n]);
      RestartsShowNext(energy, totals, days, n);
    }
  }

  /** The figure is exact but for restarts that show if and only if every restart shows. */
  lemma ExactWhenRestartsShow(energy: seq<real>, totals: seq<real>, days: seq<int>)
    requires totals != [] && |totals| == |days| && Metered(energy, totals)
    ensures DayEnergy(totals, days)
        == energy[|energy| - 1] - energy[FirstOfDay(days)] - Missed(energy, totals, days)
      <==> RestartsShow(energy, totals, days)
  {
    DayEnergyAccounts(energy, totals, days);
    HiddenExactly(energy, totals, days);
  }

  /** Both kinds of restart that do not show: a drop within the noise, and a counter past its old value. */
  lemma RestartsCanHide()
    ensures var energy, totals, days := [0.0, 0.02], [0.05, 0.0], [7, 7];
      Metered(energy, totals) && !RestartsShow(energy, totals, days) && DayEnergy(totals, days) == -0.05
    ensures var energy, totals, days := [0.0, 1.0], [0.2, 0.5], [7, 7];
      Metered(energy, totals) && !RestartsShow(energy, totals, days) && DayEnergy(totals, days) == 0.3
  {
    OneStep(0.02, 0.05, 0.0);
    OneStep(1.0, 0.2, 0.5);
  }

  /** A day of two readings. */
  lemma OneStep(passed: real, before: real, after: real)
    ensures DayEnergy([before, after], [7, 7]) == if Dropped(before, after) then 0.0 else after - before
    ensures RestartsShow([0.0, passed], [before, after], [7, 7]) <==> Dropped(before, after) || after - before == passed
  {
    var totals, days := [before, after], [7, 7];
    assert totals[..1] == [before] && days[..1] == [7];
    assert FirstOfDay(days) == FirstOfDay([7]) == 0;
  }

  // ---------------------------------------------------------------- on-time against the true relay

  /** How long a relay trace is on in `[a, b)`. */
  function TrueOn(trace: int -> bool, a: int, b: int): (d: int)
    ensures 0 <= d && (a <= b ==> d <= b - a)
    decreases b - a
  {
    if b <= a then 0 else TrueOn(trace, a, b - 1) + (if trace(b - 1) then 1 else 0)
  }

  /** How often the trace changes after `a`, up to and including `b`. */
  function Switches(trace: int -> bool, a: int, b: int): nat
    decreases b - a
  {
    if b <= a then 0 else Switches(trace, a, b - 1) + (if trace(b) != trace(b - 1) then 1 else 0)
  }

  lemma {:induction false} SteadyOn(trace: int -> bool, a: int, b: int)
    requires a <= b && Switches(trace, a, b) == 0
    ensures trace(a) == trace(b)
    ensures TrueOn(trace, a, b) == if trace(b) then b - a else 0
    decreases b - a
  {
    if a == b {
    } else {
      SteadyOn(trace, a, b - 1);
    }
  }

  lemma {:induction false} TrueOnSplit(trace: int -> bool, a: int, b: int, c: int)
    requires a <= b <= c
    ensures TrueOn(trace, a, c) == TrueOn(trace, a, b) + TrueOn(trace, b, c)
    ensures Switches(trace, a, c) == Switches(trace, a, b) + Switches(trace, b, c)
    decreases c - b
  {
    if b == c {
    } else {
      TrueOnSplit(trace, a, b, c - 1);
    }
  }

  /** The polls happen in time order and see the relay as it is. */
  predicate Observes(trace: int -> bool, polls: seq<Poll>) {
    && (forall i :: 0 <= i < |polls| ==> polls[i].on == trace(polls[i].at))
    && (forall i :: 0 < i < |polls| ==> polls[i - 1].at <= polls[i].at)
  }

  /** The first poll of the day the last poll falls on. */
  function FirstPoll(polls: seq<Poll>): (j: nat)
    requires polls != []
    ensures j < |polls|
  {
    var n := |polls| - 1;
    if !SameDay(polls, n) then n else FirstPoll(polls[..n])
  }

  /** Total length of the day's poll gaps that contain a switch. */
  function SwitchedGaps(trace: int -> bool, polls: seq<Poll>): int {
    var n := |polls| - 1;
    if polls == [] || !SameDay(polls, n) then 0
    else
      SwitchedGaps(trace, polls[..n])
        + (if Switches(trace, polls[n - 1].at, polls[n].at) > 0 then polls[n].at - polls[n - 1].at else 0)
  }

  lemma ObservesPrefix(trace: int -> bool, polls: seq<Poll>, n: nat)
    requires Observes(trace, polls) && n <= |polls|
    ensures Observes(trace, polls[..n])
    ensures 0 < n < |polls| ==> polls[n - 1].at <= polls[n].at
  {
  }

  lemma {:induction false} FirstPollEarlier(trace: int -> bool, polls: seq<Poll>)
    requires polls != [] && Observes(trace, polls)
    ensures polls[FirstPoll(polls)].at <= polls[|polls| - 1].at
  {
    var n := |polls| - 1;
    if SameDay(polls, n) {
      ObservesPrefix(trace, polls, n);
      FirstPollEarlier(trace, polls[..n]);
    }
  }

  /**
    The booked on-time differs from the true on-time since the day's first poll by at most the total
    length of the poll gaps that contain a switch.
   */
  lemma {:induction false} BookedError(trace: int -> bool, polls: seq<Poll>)
    requires polls != [] && Observes(trace, polls)
    ensures var truth := TrueOn(trace, polls[FirstPoll(polls)].at, polls[|polls| - 1].at);
      -SwitchedGaps(trace, polls) <= BookedOn(polls) - truth <= SwitchedGaps(trace, polls)
  {
    var n := |polls| - 1;
    if SameDay(polls, n) {
      var before := polls[..n];
      var a, b, c := polls[FirstPoll(polls)].at, polls[n - 1].at, polls[n].at;
      ObservesPrefix(trace, polls, n);
      BookedError(trace, before);
      FirstPollEarlier(trace, before);
      TrueOnSplit(trace, a, b, c);
      if Switches(trace, b, c) == 0 {
        SteadyOn(trace, b, c);
      }
    }
  }

  /** No gap of the day is longer than `longest`. */
  predicate GapsWithin(polls: seq<Poll>, longest: int) {
    forall i :: 0 < i < |polls| && SameDay(polls, i) ==> polls[i].at - polls[i - 1].at <= longest
  }

  /** A gap for every switch. */
  function Allowance(longest: nat, switches: nat): int { longest * switches }

  lemma PerSwitch(longest: nat, s: nat, t: nat)
    ensures Allowance(longest, s + t) == Allowance(longest, s) + Allowance(longest, t)
    ensures t > 0 ==> longest <= Allowance(longest, t)
    ensures 0 <= Allowance(longest, t)
  {
  }

  lemma {:induction false} NextGap(trace: int -> bool, polls: seq<Poll>, longest: nat)
    requires polls != [] && SameDay(polls, |polls| - 1) && GapsWithin(polls, longest)
    ensures GapsWithin(polls[..|polls| - 1], longest)
    ensures FirstPoll(polls[..|polls| - 1]) == FirstPoll(polls)
    ensures var b, c := polls[|polls| - 2].at, polls[|polls| - 1].at;
      SwitchedGaps(trace, polls)
        <= SwitchedGaps(trace, polls[..|polls| - 1]) + (if Switches(trace, b, c) > 0 then longest else 0)
  {
    hide Switches;
  }

  lemma {:induction false} SwitchedGapsBound(trace: int -> bool, polls: seq<Poll>, longest: nat)
    requires polls != [] && Observes(trace, polls) && GapsWithin(polls, longest)
    ensures SwitchedGaps(trace, polls)
      <= Allowance(longest, Switches(trace, polls[FirstPoll(polls)].at, polls[|polls| - 1].at))
  {
    hide Allowance, Observes, GapsWithin, TrueOn, BookedOn;
    var n := |polls| - 1;
    if SameDay(polls, n) {
      var before := polls[..n];
      var a, b, c := polls[FirstPoll(polls)].at, polls[n - 1].at, polls[n].at;
      ObservesPrefix(trace, polls, n);
      NextGap(trace, polls, longest);
      SwitchedGapsBound(trace, before, longest);
      FirstPollEarlier(trace, before);
      TrueOnSplit(trace, a, b, c);
      PerSwitch(longest, Switches(trace, a, b), Switches(trace, b, c));
    } else {
      PerSwitch(longest, 0, Switches(trace, polls[FirstPoll(polls)].at, polls[n].at));
    }
  }

  /** Hence by at most the longest gap times the number of switches. */
  lemma {:induction false} BookedErrorBound(trace: int -> bool, polls: seq<Poll>, longest: nat)
    requires polls != [] && Observes(trace, polls) && GapsWithin(polls, longest)
    ensures var from, to := polls[FirstPoll(polls)].at, polls[|polls| - 1].at;
      var bound := longest * Switches(trace, from, to);
      -bound <= BookedOn(polls) - TrueOn(trace, from, to) <= bound
  {
    BookedError(trace, polls);
    SwitchedGapsBound(trace, polls, longest);
  }
}
