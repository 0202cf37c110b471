/**
  The planning tick (service.py) and the watcher (lp/watcher.py) as two activities sharing one runtime.
  Every critical section is one event and anything may happen between two events. The wake loops
  guarantee at most one tick and one poll in flight; the clock never runs backwards.
 */
module Protocol {
  import opened Options
  import opened Breaker
  import opened Watcher

  /**
    Where the tick is: it takes `now` when it starts, checks the breaker against that `now`, and,
    once past the check, either records a dispatch or falls back and latches.
   */
  datatype TickPc = NoTick | Started(now: int) | Past | Failing(reason: Reason)

  /** Where the poll is: verifying against a snapshot, or falling back before it latches. */
  datatype PollPc = NoPoll | Verifying(snapshot: Snapshot) | Tripping

  datatype System = System(rt: Runtime, tick: TickPc, poll: PollPc, clock: int)

  datatype Action =
    | TickStart
    | TickCheck
    | TickRecord(intent: real)
    | TickFail(reason: Reason)
    | TickLatch
    | TickEnd
    | PollBegin
    | PollClean
    | PollDeviate
    | PollLatch
    | PollEnd

  datatype Event = Event(action: Action, at: int)

  function Boot(): System { System(Fresh(), NoTick, NoPoll, 0) }

  predicate Enabled(s: System, e: Event) {
    && s.clock <= e.at
    && match e.action
       case TickStart => s.tick.NoTick?
       case TickCheck => s.tick.Started?
       case TickRecord(_) => s.tick.Past?
       case TickFail(_) => s.tick.Past?
       case TickLatch => s.tick.Failing?
       case TickEnd => !s.tick.NoTick?
       case PollBegin => s.poll.NoPoll?
       case PollClean => s.poll.Verifying?
       case PollDeviate => s.poll.Verifying?
       case PollLatch => s.poll.Tripping?
       case PollEnd => !s.poll.NoPoll?
  }

  /** Either may end early at any point: the wake loop catches whatever it raises. */
  function Step(cfg: Config, s: System, e: Event): System
    requires Enabled(s, e)
  {
    var rt := s.rt;
    var (rt', tick, poll) := match e.action
      case TickStart => (rt, Started(e.at), s.poll)
      case TickCheck => (rt, if rt.breaker.LetsTickRun(cfg, s.tick.now) then Past else NoTick, s.poll)
      case TickRecord(intent) => (rt.Record(intent, e.at), NoTick, s.poll)
      case TickFail(reason) => (rt, Failing(reason), s.poll)
      case TickLatch => (rt.Latch(s.tick.reason, e.at), NoTick, s.poll)
      case TickEnd => (rt, NoTick, s.poll)
      case PollBegin =>
        var snapshot := SnapshotOf(rt, cfg, e.at);
        (rt, s.tick, if snapshot.Some? then Verifying(snapshot.value) else NoPoll)
      case PollClean => (rt.Clean(cfg, s.poll.snapshot.sawLatched), s.tick, NoPoll)
      case PollDeviate => (rt.Deviate(), s.tick, if rt.Deviate().MustTrip(cfg) then Tripping else NoPoll)
      case PollLatch => (rt.Latch(VerifyDeviation, e.at), s.tick, NoPoll)
      case PollEnd => (rt, s.tick, NoPoll);
    System(rt', tick, poll, e.at)
  }

  /** The events can happen one after another from boot. */
  predicate Run(cfg: Config, es: seq<Event>)
    decreases |es|, 0
  {
    es == [] || (Run(cfg, es[..|es| - 1]) && Enabled(After(cfg, es[..|es| - 1]), es[|es| - 1]))
  }

  function After(cfg: Config, es: seq<Event>): System
    requires Run(cfg, es)
    decreases |es|, 1
  {
    if es == [] then Boot() else Step(cfg, After(cfg, es[..|es| - 1]), es[|es| - 1])
  }

  lemma {:induction false} RunPrefix(cfg: Config, es: seq<Event>, k: nat)
    requires Run(cfg, es) && k <= |es|
    ensures Run(cfg, es[..k])
  {
    if k < |es| {
      RunPrefix(cfg, es[..|es| - 1], k);
      assert es[..|es| - 1][..k] == es[..k];
    } else {
      assert es[..k] == es;
    }
  }

  /** One more event: the run up to `k + 1` is the run up to `k` and a step. */
  lemma RunNext(cfg: Config, es: seq<Event>, k: nat)
    requires Run(cfg, es) && k < |es|
    ensures Run(cfg, es[..k]) && Run(cfg, es[..k + 1])
    ensures Enabled(After(cfg, es[..k]), es[k])
    ensures After(cfg, es[..k + 1]) == Step(cfg, After(cfg, es[..k]), es[k])
  {
    RunPrefix(cfg, es, k);
    RunPrefix(cfg, es, k + 1);
    assert es[..k + 1][..k] == es[..k];
  }

  // ---------------------------------------------------------------- what every step keeps

  predicate Inv(s: System) {
    && (s.rt.breaker.latched <==> s.rt.breaker.latchedAt.Some?)
    && (s.rt.breaker.latchedAt.Some? ==> s.rt.breaker.latchedAt.value <= s.clock)
    && (!s.rt.breaker.latched ==> s.rt.breaker.cleanProbes == 0 && s.rt.breaker.reason == NoReason)
    && (s.poll.Verifying? && s.poll.snapshot.sawLatched ==> s.rt.breaker.latched)
    && (s.tick.Started? ==> s.tick.now <= s.clock)
  }

  lemma StepKeepsInv(cfg: Config, s: System, e: Event)
    requires Inv(s) && Enabled(s, e)
    ensures Inv(Step(cfg, s, e))
  {
  }

  /** Latched exactly when the latch time is set; unlatched means no clean probe counted and no reason kept. */
  lemma {:induction false} RunKeepsInv(cfg: Config, es: seq<Event>)
    requires Run(cfg, es)
    ensures Inv(After(cfg, es))
  {
    if es == [] {
    } else {
      RunKeepsInv(cfg, es[..|es| - 1]);
      StepKeepsInv(cfg, After(cfg, es[..|es| - 1]), es[|es| - 1]);
    }
  }

  // ---------------------------------------------------------------- history

  predicate IsLatch(e: Event) { e.action.TickLatch? || e.action.PollLatch? }

  /** The event is the clean outcome that clears the breaker. */
  predicate Clears(cfg: Config, s: System, e: Event) {
    && e.action.PollClean? && s.poll.Verifying? && s.poll.snapshot.sawLatched
    && s.rt.breaker.cleanProbes + 1 >= cfg.cleanThreshold
  }

  /** Event `k` of the run clears the breaker. */
  predicate ClearsAt(cfg: Config, es: seq<Event>, k: nat)
    requires Run(cfg, es) && k < |es|
  {
    RunNext(cfg, es, k);
    Clears(cfg, After(cfg, es[..k]), es[k])
  }

  /** Event `k` of the run is a deviation that trips the breaker. */
  predicate TripsAt(cfg: Config, es: seq<Event>, k: nat)
    requires Run(cfg, es) && k < |es|
  {
    RunNext(cfg, es, k);
    es[k].action.PollDeviate? && After(cfg, es[..k + 1]).poll.Tripping?
  }

  /** A clean outcome of a poll that saw the breaker latched. */
  predicate ProbeCleanAt(cfg: Config, es: seq<Event>, k: nat)
    requires Run(cfg, es) && k < |es|
  {
    RunNext(cfg, es, k);
    var s := After(cfg, es[..k]);
    es[k].action.PollClean? && s.poll.Verifying? && s.poll.snapshot.sawLatched
  }

  /** Deviations from event `j` on. */
  function Deviations(es: seq<Event>, j: nat): nat
    requires j <= |es|
    decreases |es|
  {
    if j == |es| then 0
    else Deviations(es[..|es| - 1], j) + (if es[|es| - 1].action.PollDeviate? then 1 else 0)
  }

  /** Clean probe outcomes from event `j` on. */
  function ProbeCleans(cfg: Config, es: seq<Event>, j: nat): nat
    requires Run(cfg, es) && j <= |es|
    decreases |es|
  {
    if j == |es| then 0
    else ProbeCleans(cfg, es[..|es| - 1], j) + (if ProbeCleanAt(cfg, es, |es| - 1) then 1 else 0)
  }

  predicate ResetsDeviations(e: Event) { e.action.PollClean? || e.action.TickRecord? || IsLatch(e) }

  predicate ResetsCleans(e: Event) { e.action.PollDeviate? || IsLatch(e) }

  /** From event `j` on nothing resets the deviation counter, and `j` is the earliest such point. */
  predicate DeviationWindow(es: seq<Event>, j: nat) {
    && j <= |es|
    && (forall i :: j <= i < |es| ==> !ResetsDeviations(es[i]))
    && (j > 0 ==> ResetsDeviations(es[j - 1]))
  }

  /** From event `j` on nothing resets the clean-probe counter, and `j` is the earliest such point. */
  predicate CleanWindow(cfg: Config, es: seq<Event>, j: nat)
    requires Run(cfg, es)
  {
    && j <= |es|
    && (forall i :: j <= i < |es| ==> !ResetsCleans(es[i]) && !ClearsAt(cfg, es, i))
    && (j > 0 ==> ResetsCleans(es[j - 1]) || ClearsAt(cfg, es, j - 1))
  }

  /** The deviation counter is the number of deviations since the last clean outcome, record or latch. */
  lemma {:induction false} DeviationCounter(cfg: Config, es: seq<Event>) returns (j: nat)
    requires Run(cfg, es)
    ensures DeviationWindow(es, j)
    ensures After(cfg, es).rt.breaker.deviations == Deviations(es, j)
  {
    if es == [] {
      return 0;
    }
    var before, e := es[..|es| - 1], es[|es| - 1];
    j := DeviationCounter(cfg, before);
    if ResetsDeviations(e) {
      j := |es|;
    }
  }

  lemma ClearsAtPrefix(cfg: Config, es: seq<Event>, i: nat)
    requires Run(cfg, es) && i < |es| - 1
    ensures Run(cfg, es[..|es| - 1])
    ensures ClearsAt(cfg, es[..|es| - 1], i) <==> ClearsAt(cfg, es, i)
  {
    assert es[..|es| - 1][..i] == es[..i];
  }

  lemma CleanStep(cfg: Config, s: System, e: Event)
    requires Enabled(s, e)
    ensures ResetsCleans(e) || Clears(cfg, s, e) ==> Step(cfg, s, e).rt.breaker.cleanProbes == 0
    ensures !ResetsCleans(e) && !Clears(cfg, s, e) ==>
      Step(cfg, s, e).rt.breaker.cleanProbes == s.rt.breaker.cleanProbes
        + (if e.action.PollClean? && s.poll.snapshot.sawLatched then 1 else 0)
  {
  }

  /** The clean-probe counter is the number of clean probe outcomes since the last latch, clearing or deviation. */
  lemma {:induction false} CleanCounter(cfg: Config, es: seq<Event>) returns (j: nat)
    requires Run(cfg, es)
    ensures CleanWindow(cfg, es, j)
    ensures After(cfg, es).rt.breaker.cleanProbes == ProbeCleans(cfg, es, j)
  {
    if es == [] {
      return 0;
    }
    hide Step, Clears;
    var n := |es| - 1;
    var before, e := es[..n], es[n];
    j := CleanCounter(cfg, before);
    CleanStep(cfg, After(cfg, before), e);
    assert es[..n + 1] == es;
    forall i | 0 <= i < n ensures ClearsAt(cfg, before, i) <==> ClearsAt(cfg, es, i) {
      ClearsAtPrefix(cfg, es, i);
    }
    if ResetsCleans(e) || ClearsAt(cfg, es, n) {
      j := n + 1;
    }
  }

  /**
    A watcher trip happens exactly when the breaker is not latched and this deviation completes the
    threshold with no clean outcome, newly recorded command or latch among them.
   */
  lemma TripExactly(cfg: Config, es: seq<Event>, k: nat) returns (j: nat)
    requires Run(cfg, es) && k < |es| && es[k].action.PollDeviate?
    ensures Run(cfg, es[..k]) && Run(cfg, es[..k + 1]) && DeviationWindow(es[..k + 1], j)
    ensures TripsAt(cfg, es, k) <==>
      !After(cfg, es[..k]).rt.breaker.latched && Deviations(es[..k + 1], j) >= cfg.deviationThreshold
  {
    RunNext(cfg, es, k);
    j := DeviationCounter(cfg, es[..k + 1]);
  }

  /**
    The breaker clears exactly when a clean probe outcome completes the threshold of them since the
    latest latch, with no deviation among them.
   */
  lemma ClearExactly(cfg: Config, es: seq<Event>, k: nat) returns (j: nat)
    requires Run(cfg, es) && k < |es|
    ensures Run(cfg, es[..k]) && CleanWindow(cfg, es[..k], j)
    ensures ClearsAt(cfg, es, k) <==>
      ProbeCleanAt(cfg, es, k) && ProbeCleans(cfg, es[..k], j) + 1 >= cfg.cleanThreshold
    ensures ClearsAt(cfg, es, k) ==> After(cfg, es[..k]).rt.breaker.latched
  {
    RunNext(cfg, es, k);
    RunKeepsInv(cfg, es[..k]);
    j := CleanCounter(cfg, es[..k]);
  }

  /** Event `i` set the latch still in force at the end of the run. */
  predicate LatchOf(cfg: Config, es: seq<Event>, i: nat)
    requires Run(cfg, es)
  {
    && i < |es| && IsLatch(es[i])
    && forall k :: i < k < |es| ==> !IsLatch(es[k]) && !ClearsAt(cfg, es, k)
  }

  lemma LatchStepExactly(cfg: Config, s: System, e: Event)
    requires Enabled(s, e) && Inv(s)
    ensures IsLatch(e) ==> Step(cfg, s, e).rt.breaker.latched && Step(cfg, s, e).rt.breaker.latchedAt == Some(e.at)
    ensures !IsLatch(e) && Clears(cfg, s, e) ==> !Step(cfg, s, e).rt.breaker.latched
    ensures !IsLatch(e) && !Clears(cfg, s, e) ==>
      && Step(cfg, s, e).rt.breaker.latched == s.rt.breaker.latched
      && Step(cfg, s, e).rt.breaker.latchedAt == s.rt.breaker.latchedAt
  {
  }

  /** The latch time is that of the latest latch not cleared since. */
  lemma {:induction false} LatchInForce(cfg: Config, es: seq<Event>) returns (i: nat)
    requires Run(cfg, es) && After(cfg, es).rt.breaker.latched
    ensures LatchOf(cfg, es, i) && After(cfg, es).rt.breaker.latchedAt == Some(es[i].at)
  {
    hide Step, Clears, Inv;
    NothingLatchedAtBoot();
    var n := |es| - 1;
    var before := es[..n];
    RunKeepsInv(cfg, before);
    LatchStepExactly(cfg, After(cfg, before), es[n]);
    if IsLatch(es[n]) {
      i := n;
    } else {
      i := LatchInForce(cfg, before);
      assert es[..n + 1] == es;
      forall k | i < k < n ensures !IsLatch(es[k]) && !ClearsAt(cfg, es, k) {
        ClearsAtPrefix(cfg, es, k);
        assert before[k] == es[k];
      }
    }
  }

  lemma NothingLatchedAtBoot()
    ensures !Boot().rt.breaker.latched && !Boot().tick.Started?
  {
  }

  /** The tick that has not checked yet took its instant when it started. */
  lemma {:induction false} StartOf(cfg: Config, es: seq<Event>) returns (j: nat)
    requires Run(cfg, es) && After(cfg, es).tick.Started?
    ensures j < |es| && es[j].action.TickStart? && After(cfg, es).tick.now == es[j].at
    ensures forall k :: j < k < |es| ==> !es[k].action.TickStart?
  {
    var n := |es| - 1;
    if es[n].action.TickStart? {
      j := n;
    } else {
      j := StartOf(cfg, es[..n]);
    }
  }

  /**
    A tick passes its check if and only if the breaker is not latched, or a whole cooldown lies between
    the latch in force and the start of the tick.
   */
  lemma ChecksExactly(cfg: Config, es: seq<Event>, k: nat) returns (j: nat, i: nat)
    requires Run(cfg, es) && k < |es| && es[k].action.TickCheck?
    ensures Run(cfg, es[..k]) && Run(cfg, es[..k + 1])
    ensures j < k && es[j].action.TickStart? && forall m :: j < m < k ==> !es[m].action.TickStart?
    ensures var latched := After(cfg, es[..k]).rt.breaker.latched;
      && (latched ==> LatchOf(cfg, es[..k], i))
      && (After(cfg, es[..k + 1]).tick.Past? <==> !latched || es[i].at + cfg.cooldown <= es[j].at)
  {
    RunNext(cfg, es, k);
    j := StartOf(cfg, es[..k]);
    i := 0;
    if After(cfg, es[..k]).rt.breaker.latched {
      i := LatchInForce(cfg, es[..k]);
    }
  }

  // ---------------------------------------------------------------- cooldown discipline

  /** Nothing from event `i` on, before `k`, clears the breaker, and all of it is within the cooldown of event `i`. */
  predicate Cooling(cfg: Config, es: seq<Event>, i: nat, k: nat)
    requires Run(cfg, es)
  {
    && i < k <= |es|
    && IsLatch(es[i])
    && forall m :: i < m < k ==> !ClearsAt(cfg, es, m) && es[m].at < es[i].at + cfg.cooldown
  }

  function Records(es: seq<Event>, i: nat, k: nat): nat
    requires i <= k <= |es|
  {
    if i == k then 0 else Records(es, i, k - 1) + (if es[k - 1].action.TickRecord? then 1 else 0)
  }

  /** The tick in flight is past its check; it can record one dispatch. */
  function PastCheck(s: System): nat { if s.tick.Past? then 1 else 0 }

  predicate LatchedSince(s: System, t: int) {
    s.rt.breaker.latched && s.rt.breaker.latchedAt.Some? && t <= s.rt.breaker.latchedAt.value <= s.clock
  }

  lemma StepStaysLatched(cfg: Config, s: System, e: Event, t: int)
    requires Enabled(s, e) && Inv(s) && t <= e.at
    requires IsLatch(e) || (LatchedSince(s, t) && !Clears(cfg, s, e))
    ensures LatchedSince(Step(cfg, s, e), t)
  {
  }

  /** A step records only by using up a passed check, and within the cooldown no check passes. */
  lemma StepRecords(cfg: Config, s: System, e: Event, t: int)
    requires Enabled(s, e) && Inv(s)
    requires IsLatch(e) || (LatchedSince(s, t) && e.at < t + cfg.cooldown)
    ensures (if e.action.TickRecord? then 1 else 0) + PastCheck(Step(cfg, s, e)) <= PastCheck(s)
    ensures e.action.TickCheck? ==> Step(cfg, s, e).tick.NoTick?
  {
  }

  /** The breaker stays latched through the cooldown, with a latch time no earlier than event `i`. */
  lemma {:induction false} StaysLatched(cfg: Config, es: seq<Event>, i: nat, k: nat)
    requires Run(cfg, es) && Cooling(cfg, es, i, k)
    ensures Run(cfg, es[..k]) && LatchedSince(After(cfg, es[..k]), es[i].at)
    decreases k
  {
    hide Step, Clears, LatchedSince;
    RunNext(cfg, es, k - 1);
    RunKeepsInv(cfg, es[..k - 1]);
    if k > i + 1 {
      StaysLatched(cfg, es, i, k - 1);
      assert !ClearsAt(cfg, es, k - 1);
      ClockMoves(cfg, es, i, k - 1);
    }
    StepStaysLatched(cfg, After(cfg, es[..k - 1]), es[k - 1], es[i].at);
  }

  lemma {:induction false} ClockMoves(cfg: Config, es: seq<Event>, i: nat, k: nat)
    requires Run(cfg, es) && i < k < |es|
    ensures es[i].at <= es[k].at
    decreases k
  {
    RunNext(cfg, es, k - 1);
    RunNext(cfg, es, k);
    if i < k - 1 {
      ClockMoves(cfg, es, i, k - 1);
    }
  }

  lemma {:induction false} CooldownRecords(cfg: Config, es: seq<Event>, i: nat, k: nat)
    requires Run(cfg, es) && Cooling(cfg, es, i, k)
    ensures Run(cfg, es[..i]) && Run(cfg, es[..k])
    ensures Records(es, i, k) + PastCheck(After(cfg, es[..k])) <= PastCheck(After(cfg, es[..i]))
    decreases k
  {
    hide Step, LatchedSince, PastCheck;
    RunNext(cfg, es, k - 1);
    RunKeepsInv(cfg, es[..k - 1]);
    if k > i + 1 {
      CooldownRecords(cfg, es, i, k - 1);
      StaysLatched(cfg, es, i, k - 1);
      assert es[k - 1].at < es[i].at + cfg.cooldown;
    }
    StepRecords(cfg, After(cfg, es[..k - 1]), es[k - 1], es[i].at);
  }

  /**
    Cooldown discipline: from a latch until its cooldown expires or the breaker clears, at most one
    dispatch is recorded, and that only if a tick was already past its check when the latch happened.
    The recording tick is that one: no tick that checks later gets past.
   */
  lemma CooldownDiscipline(cfg: Config, es: seq<Event>, i: nat, k: nat)
    requires Run(cfg, es) && Cooling(cfg, es, i, k)
    ensures Records(es, i, k) <= 1
    ensures Run(cfg, es[..i]) && (Records(es, i, k) == 1 ==> After(cfg, es[..i]).tick.Past?)
    ensures forall m :: i < m < k && es[m].action.TickCheck? ==>
      Run(cfg, es[..m + 1]) && After(cfg, es[..m + 1]).tick.NoTick?
  {
    hide Step, LatchedSince;
    CooldownRecords(cfg, es, i, k);
    forall m | i < m < k && es[m].action.TickCheck?
      ensures Run(cfg, es[..m + 1]) && After(cfg, es[..m + 1]).tick.NoTick?
    {
      RunNext(cfg, es, m);
      StaysLatched(cfg, es, i, m);
      RunKeepsInv(cfg, es[..m]);
      StepRecords(cfg, After(cfg, es[..m]), es[m], es[i].at);
    }
  }
}
