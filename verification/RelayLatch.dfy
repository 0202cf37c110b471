/**
  One managed relay beside the breaker (service.py, lp/fallback.py): a fallback opens the relay before
  it latches, but a tick that applied its dispatch, or failed to, still sends its load commands.
 */
module RelayLatch {
  import opened Options
  import opened Breaker
  import opened Protocol

  /**
    A critical section of the tick or the poll, the tick's fallback because its dispatch was not
    applied, the fallback opening the relay, or the tick sending its load command and being done.
   */
  datatype Act = Core(action: Action) | ApplyFails | OpenRelay | Send(on: bool) | Sent

  datatype Move = Move(act: Act, at: int)
  {
    function Events(): seq<Event> {
      match act
      case Core(action) => [Event(action, at)]
      case ApplyFails => [Event(TickFail(LpError), at)]
      case _ => []
    }

    predicate Latches() { act.Core? && (act.action.TickLatch? || act.action.PollLatch?) }
  }

  /**
    `applying`: the fallback under way is for a dispatch that was not applied. `sending`: the tick is
    past its dispatch. `on`: the relay is closed.
   */
  datatype Plant = Plant(core: System, applying: bool, sending: bool, on: bool, clock: int)
  {
    /** The tick in flight may yet send a load command without another check. */
    predicate MaySend() { core.tick.Past? || sending || (core.tick.Failing? && applying) }

    /** A fallback is under way. */
    predicate FallingBack() { core.tick.Failing? || core.poll.Tripping? }
  }

  predicate Can(s: Plant, m: Move) {
    && s.clock <= m.at
    && match m.act
       case Core(action) => Enabled(s.core, Event(action, m.at)) && (action.TickStart? ==> !s.sending)
       case ApplyFails => Enabled(s.core, Event(TickFail(LpError), m.at))
       case OpenRelay => s.FallingBack()
       case Send(_) => s.sending
       case Sent => s.sending
  }

  function Do(cfg: Config, s: Plant, m: Move): Plant
    requires Can(s, m)
  {
    match m.act
    case Core(action) =>
      Plant(Step(cfg, s.core, Event(action, m.at)),
            s.applying && !action.TickLatch? && !action.TickEnd?,
            s.sending || action.TickRecord? || (action.TickLatch? && s.applying),
            s.on, m.at)
    case ApplyFails => Plant(Step(cfg, s.core, Event(TickFail(LpError), m.at)), true, s.sending, s.on, m.at)
    case OpenRelay => s.(on := false, clock := m.at)
    case Send(on) => s.(on := on, clock := m.at)
    case Sent => s.(sending := false, clock := m.at)
  }

  predicate Moves(cfg: Config, ms: seq<Move>)
    decreases |ms|, 0
  {
    ms == [] || (Moves(cfg, ms[..|ms| - 1]) && Can(Reached(cfg, ms[..|ms| - 1]), ms[|ms| - 1]))
  }

  function Reached(cfg: Config, ms: seq<Move>): Plant
    requires Moves(cfg, ms)
    decreases |ms|, 1
  {
    if ms == [] then Plant(Boot(), false, false, false, 0)
    else Do(cfg, Reached(cfg, ms[..|ms| - 1]), ms[|ms| - 1])
  }

  // ---------------------------------------------------------------- the breaker's own run

  /** The critical sections among the moves. */
  function EventsOf(ms: seq<Move>): seq<Event> {
    if ms == [] then [] else EventsOf(ms[..|ms| - 1]) + ms[|ms| - 1].Events()
  }

  /** A tick that may send has passed its check, and a dispatch is only being undone in a fallback. */
  predicate Sound(s: Plant) {
    && Inv(s.core)
    && s.core.clock <= s.clock
    && (s.sending ==> s.core.tick.NoTick?)
    && (s.applying ==> s.core.tick.Failing?)
  }

  lemma OneEvent(cfg: Config, es: seq<Event>, e: Event)
    requires Run(cfg, es) && Enabled(After(cfg, es), e)
    ensures Run(cfg, es + [e]) && After(cfg, es + [e]) == Step(cfg, After(cfg, es), e)
  {
    assert (es + [e])[..|es|] == es;
  }

  lemma OneMove(cfg: Config, s: Plant, m: Move)
    requires Can(s, m)
    ensures m.Events() == [] ==> Do(cfg, s, m).core == s.core
    ensures m.Events() != [] ==>
      |m.Events()| == 1 && Enabled(s.core, m.Events()[0]) && Do(cfg, s, m).core == Step(cfg, s.core, m.Events()[0])
  {
  }

  /** Whatever the relay does, the breaker goes through a run of its own. */
  lemma {:induction false} BreakerRuns(cfg: Config, ms: seq<Move>)
    requires Moves(cfg, ms)
    ensures Run(cfg, EventsOf(ms)) && After(cfg, EventsOf(ms)) == Reached(cfg, ms).core
    ensures Sound(Reached(cfg, ms))
  {
    hide Do, Can, Step, Enabled, Sound, Move.Events;
    if ms == [] {
      BootIsSound();
    } else {
      var before, m := ms[..|ms| - 1], ms[|ms| - 1];
      BreakerRuns(cfg, before);
      DoKeepsSound(cfg, Reached(cfg, before), m);
      OneMove(cfg, Reached(cfg, before), m);
      if m.Events() == [] {
        assert EventsOf(ms) == EventsOf(before);
      } else {
        OneEvent(cfg, EventsOf(before), m.Events()[0]);
        assert m.Events() == [m.Events()[0]];
      }
    }
  }

  lemma BootIsSound()
    ensures Sound(Plant(Boot(), false, false, false, 0))
  {
  }

  lemma DoKeepsSound(cfg: Config, s: Plant, m: Move)
    requires Sound(s) && Can(s, m)
    ensures Sound(Do(cfg, s, m))
  {
    hide Inv;
    if m.act.Core? {
      StepKeepsInv(cfg, s.core, Event(m.act.action, m.at));
    } else if m.act.ApplyFails? {
      StepKeepsInv(cfg, s.core, Event(TickFail(LpError), m.at));
    }
  }

  lemma {:induction false} MovesPrefix(cfg: Config, ms: seq<Move>, k: nat)
    requires Moves(cfg, ms) && k <= |ms|
    ensures Moves(cfg, ms[..k])
  {
    if k == |ms| {
      assert ms[..k] == ms;
    } else {
      MovesPrefix(cfg, ms[..|ms| - 1], k);
      assert ms[..|ms| - 1][..k] == ms[..k];
    }
  }

  /** One more move. */
  lemma MovesNext(cfg: Config, ms: seq<Move>, k: nat)
    requires Moves(cfg, ms) && k < |ms|
    ensures Moves(cfg, ms[..k]) && Moves(cfg, ms[..k + 1]) && Can(Reached(cfg, ms[..k]), ms[k])
    ensures Reached(cfg, ms[..k + 1]) == Do(cfg, Reached(cfg, ms[..k]), ms[k])
    ensures Sound(Reached(cfg, ms[..k]))
  {
    MovesPrefix(cfg, ms, k);
    MovesPrefix(cfg, ms, k + 1);
    assert ms[..k + 1][..k] == ms[..k];
    BreakerRuns(cfg, ms[..k]);
  }

  // ---------------------------------------------------------------- through a cooldown

  predicate ClearsBy(cfg: Config, s: Plant, m: Move) {
    m.act.Core? && Clears(cfg, s.core, Event(m.act.action, m.at))
  }

  /** Up to move `k` nothing clears the latch of move `i`, and its cooldown lasts. */
  predicate Cools(cfg: Config, ms: seq<Move>, i: nat, k: nat)
    requires Moves(cfg, ms)
  {
    && i < k <= |ms| && ms[i].Latches()
    && forall m :: i < m < k ==> ms[m].at < ms[i].at + cfg.cooldown && ClearsNot(cfg, ms, m)
  }

  predicate ClearsNot(cfg: Config, ms: seq<Move>, m: nat)
    requires Moves(cfg, ms) && m < |ms|
  {
    MovesNext(cfg, ms, m);
    !ClearsBy(cfg, Reached(cfg, ms[..m]), ms[m])
  }

  /** Within a cooldown no tick comes to where it may send, and no new fallback begins but from there. */
  lemma CoolingStep(cfg: Config, s: Plant, m: Move, t: int)
    requires Sound(s) && Can(s, m) && LatchedSince(s.core, t) && m.at < t + cfg.cooldown && !ClearsBy(cfg, s, m)
    ensures var next := Do(cfg, s, m);
      && LatchedSince(next.core, t)
      && (next.MaySend() ==> s.MaySend())
      && (next.FallingBack() ==> s.FallingBack() || s.MaySend())
      && (next.on != s.on ==> s.MaySend() || s.FallingBack())
      && (next.on && !s.on ==> s.MaySend())
  {
  }

  lemma LatchStep(cfg: Config, s: Plant, m: Move)
    requires Sound(s) && Can(s, m) && m.Latches()
    ensures LatchedSince(Do(cfg, s, m).core, m.at)
  {
  }

  lemma {:induction false} StaysCool(cfg: Config, ms: seq<Move>, i: nat, k: nat)
    requires Moves(cfg, ms) && Cools(cfg, ms, i, k)
    ensures Moves(cfg, ms[..k]) && Sound(Reached(cfg, ms[..k]))
    ensures LatchedSince(Reached(cfg, ms[..k]).core, ms[i].at)
    decreases k
  {
    hide Do, Can, LatchedSince, Move.Latches, Sound, ClearsBy;
    MovesPrefix(cfg, ms, k);
    BreakerRuns(cfg, ms[..k]);
    MovesNext(cfg, ms, k - 1);
    if k == i + 1 {
      LatchStep(cfg, Reached(cfg, ms[..i]), ms[i]);
    } else {
      StaysCool(cfg, ms, i, k - 1);
      assert ClearsNot(cfg, ms, k - 1);
      CoolingStep(cfg, Reached(cfg, ms[..k - 1]), ms[k - 1], ms[i].at);
    }
  }

  lemma CoolsWithin(cfg: Config, ms: seq<Move>, i: nat, k: nat)
    requires Moves(cfg, ms) && Cools(cfg, ms, i, k)
    ensures i < k <= |ms|
  {
  }

  lemma CoolsBefore(cfg: Config, ms: seq<Move>, i: nat, k: nat)
    requires Moves(cfg, ms) && i + 1 < k && Cools(cfg, ms, i, k)
    ensures Cools(cfg, ms, i, k - 1) && ms[k - 1].at < ms[i].at + cfg.cooldown
    ensures Moves(cfg, ms[..k - 1]) && !ClearsBy(cfg, Reached(cfg, ms[..k - 1]), ms[k - 1])
  {
    hide ClearsBy, Can, Do;
    MovesNext(cfg, ms, k - 1);
    assert ClearsNot(cfg, ms, k - 1);
  }

  /**
    Once no tick may send and no fallback is under way, the relay stays as it is until the cooldown
    ends or the breaker clears, open or closed; it can only become closed while a tick may send.
   */
  lemma {:induction false} RelayFrozen(cfg: Config, ms: seq<Move>, i: nat, j: nat, k: nat)
    requires Moves(cfg, ms) && i < j <= k && Cools(cfg, ms, i, k)
    ensures Moves(cfg, ms[..j]) && Moves(cfg, ms[..k])
    ensures var s, later := Reached(cfg, ms[..j]), Reached(cfg, ms[..k]);
      && (!s.MaySend() ==> !later.MaySend() && (later.on ==> s.on))
      && (!s.MaySend() && !s.FallingBack() ==> !later.FallingBack() && later.on == s.on)
    decreases k
  {
    hide Do, Can, LatchedSince, Sound, ClearsBy, Move.Latches, Plant.MaySend, Plant.FallingBack, Cools;
    CoolsWithin(cfg, ms, i, k);
    MovesPrefix(cfg, ms, j);
    MovesPrefix(cfg, ms, k);
    if j == k {
      assert ms[..j] == ms[..k];
    } else {
      CoolsBefore(cfg, ms, i, k);
      RelayFrozen(cfg, ms, i, j, k - 1);
      MovesNext(cfg, ms, k - 1);
      StaysCool(cfg, ms, i, k - 1);
      CoolingStep(cfg, Reached(cfg, ms[..k - 1]), ms[k - 1], ms[i].at);
    }
  }

  // ---------------------------------------------------------------- when the relay can be closed

  /** After a tick's latch it may send iff its dispatch had failed; after the watcher's, iff a tick may have before. */
  lemma WhoMaySend(cfg: Config, s: Plant, m: Move)
    requires Sound(s) && Can(s, m) && m.Latches()
    ensures Do(cfg, s, m).MaySend() <==> if m.act.action.TickLatch? then s.applying else s.MaySend()
  {
  }

  /** Some continuation has the relay closed before the cooldown of the latch just made is over. */
  ghost predicate CanBeOn(cfg: Config, ms: seq<Move>)
    requires Moves(cfg, ms) && ms != []
  {
    exists more :: ClosesBy(cfg, ms, more)
  }

  predicate ClosesBy(cfg: Config, ms: seq<Move>, more: seq<Move>)
    requires ms != []
  {
    Moves(cfg, ms + more) && Cools(cfg, ms + more, |ms| - 1, |ms + more|) && Reached(cfg, ms + more).on
  }

  lemma OneMoreMove(cfg: Config, ms: seq<Move>, m: Move)
    requires Moves(cfg, ms) && Can(Reached(cfg, ms), m)
    ensures Moves(cfg, ms + [m]) && Reached(cfg, ms + [m]) == Do(cfg, Reached(cfg, ms), m)
  {
    assert (ms + [m])[..|ms|] == ms;
  }

  lemma StillCools(cfg: Config, ms: seq<Move>, i: nat, m: Move)
    requires Moves(cfg, ms) && Cools(cfg, ms, i, |ms|) && Can(Reached(cfg, ms), m)
    requires m.at < ms[i].at + cfg.cooldown && !ClearsBy(cfg, Reached(cfg, ms), m)
    ensures Moves(cfg, ms + [m]) && Cools(cfg, ms + [m], i, |ms| + 1)
  {
    hide Do, Can, ClearsBy;
    OneMoreMove(cfg, ms, m);
    var all := ms + [m];
    forall k | i < k < |all| ensures all[k].at < all[i].at + cfg.cooldown && ClearsNot(cfg, all, k) {
      MovesNext(cfg, all, k);
      if k < |ms| {
        assert all[..k] == ms[..k] && ClearsNot(cfg, ms, k);
      } else {
        assert all[..k] == ms;
      }
    }
  }

  /** What a tick that may send does before it sends: record its dispatch, or make its latch. */
  function Due(s: Plant, at: int): Move { Move(Core(if s.core.tick.Past? then TickRecord(0.0) else TickLatch), at) }

  lemma DueStep(cfg: Config, s: Plant, at: int)
    requires Sound(s) && s.MaySend() && !s.sending && s.clock == at
    ensures Can(s, Due(s, at)) && !ClearsBy(cfg, s, Due(s, at))
    ensures Do(cfg, s, Due(s, at)).sending && Do(cfg, s, Due(s, at)).clock == at
  {
  }

  lemma ClosesAtOnce(cfg: Config, ms: seq<Move>)
    requires Moves(cfg, ms) && ms != [] && ms[|ms| - 1].Latches() && 0 < cfg.cooldown
    requires Reached(cfg, ms).MaySend()
    ensures CanBeOn(cfg, ms)
  {
    hide Cools, ClosesBy, CanBeOn, ClearsBy, Move.Latches, Can, Do, Due, Sound, Plant.MaySend;
    var i, at := |ms| - 1, ms[|ms| - 1].at;
    var s := Reached(cfg, ms);
    JustLatched(cfg, ms);
    BreakerRuns(cfg, ms);
    if s.sending {
      assert ms + [] == ms;
      ClosesNow(cfg, ms, [], at);
    } else {
      DueStep(cfg, s, at);
      DueAt(s, at);
      StillCools(cfg, ms, i, Due(s, at));
      OneMoreMove(cfg, ms, Due(s, at));
      ClosesNow(cfg, ms, [Due(s, at)], at);
    }
  }

  lemma DueAt(s: Plant, at: int)
    ensures Due(s, at).at == at
  {
  }

  lemma JustLatched(cfg: Config, ms: seq<Move>)
    requires Moves(cfg, ms) && ms != [] && ms[|ms| - 1].Latches()
    ensures Cools(cfg, ms, |ms| - 1, |ms|)
    ensures Reached(cfg, ms).clock == ms[|ms| - 1].at
  {
  }

  lemma ClosesNow(cfg: Config, ms: seq<Move>, first: seq<Move>, at: int)
    requires ms != [] && ms[|ms| - 1].at == at && 0 < cfg.cooldown
    requires Moves(cfg, ms) && Moves(cfg, ms + first) && Cools(cfg, ms + first, |ms| - 1, |ms + first|)
    requires Reached(cfg, ms + first).sending && Reached(cfg, ms + first).clock == at
    ensures CanBeOn(cfg, ms)
  {
    hide Cools;
    var send := Move(Send(true), at);
    StillCools(cfg, ms + first, |ms| - 1, send);
    OneMoreMove(cfg, ms + first, send);
    assert ms + first + [send] == ms + (first + [send]);
    assert ClosesBy(cfg, ms, first + [send]);
  }

  /**
    The relay can be closed before the latch's cooldown is over if and only if it is closed when the
    breaker latches, or a tick may still send then.
   */
  lemma CanBeOnIff(cfg: Config, ms: seq<Move>)
    requires Moves(cfg, ms) && ms != [] && ms[|ms| - 1].Latches() && 0 < cfg.cooldown
    ensures CanBeOn(cfg, ms) <==> Reached(cfg, ms).on || Reached(cfg, ms).MaySend()
  {
    hide Cools, Move.Latches, Plant.MaySend, Reached;
    var n := |ms|;
    if more :| ClosesBy(cfg, ms, more) {
      var all := ms + more;
      RelayFrozen(cfg, all, n - 1, n, |all|);
      assert all[..n] == ms && all[..|all|] == all;
    }
    if Reached(cfg, ms).on {
      JustLatched(cfg, ms);
      assert ms + [] == ms;
      assert ClosesBy(cfg, ms, []);
    } else if Reached(cfg, ms).MaySend() {
      ClosesAtOnce(cfg, ms);
    }
  }

  // ---------------------------------------------------------------- a failed dispatch

  /** A dispatch fails, the fallback opens the relay and latches, and the same tick sends "on". */
  function FailedDispatch(): seq<Move> {
    [Move(Core(TickStart), 0), Move(Core(TickCheck), 1), Move(ApplyFails, 2), Move(OpenRelay, 3),
     Move(Core(TickLatch), 4), Move(Send(true), 5), Move(Sent, 6)]
  }

  /** The relay is then closed through the whole cooldown. */
  lemma OnThroughCooldown(more: seq<Move>)
    requires Moves(SHIPPED, FailedDispatch() + more)
    requires Cools(SHIPPED, FailedDispatch() + more, 4, |FailedDispatch() + more|)
    ensures Reached(SHIPPED, FailedDispatch() + more).on
  {
    var ms := FailedDispatch();
    FailedDispatchReaches();
    RelayFrozen(SHIPPED, ms + more, 4, 7, |ms + more|);
    assert (ms + more)[..7] == ms && (ms + more)[..|ms + more|] == ms + more;
  }

  lemma FailedDispatchReaches()
    ensures Moves(SHIPPED, FailedDispatch())
    ensures var s := Reached(SHIPPED, FailedDispatch());
      s.on && !s.MaySend() && !s.FallingBack() && s.core.rt.breaker.latched
  {
    FailedDispatchPasses(7);
    assert FailedDispatch()[..7] == FailedDispatch();
  }

  function FailedDispatchStates(): (states: seq<Plant>)
    ensures |states| == 8
  {
    var latched := Runtime(None, Breaker(true, Some(4), 0, 0, LpError));
    [Plant(Boot(), false, false, false, 0),
     Plant(System(Fresh(), Started(0), NoPoll, 0), false, false, false, 0),
     Plant(System(Fresh(), Past, NoPoll, 1), false, false, false, 1),
     Plant(System(Fresh(), Failing(LpError), NoPoll, 2), true, false, false, 2),
     Plant(System(Fresh(), Failing(LpError), NoPoll, 2), true, false, false, 3),
     Plant(System(latched, NoTick, NoPoll, 4), false, true, false, 4),
     Plant(System(latched, NoTick, NoPoll, 4), false, true, true, 5),
     Plant(System(latched, NoTick, NoPoll, 4), false, false, true, 6)]
  }

  lemma FailedDispatchStep(k: nat)
    requires k < 7
    ensures Can(FailedDispatchStates()[k], FailedDispatch()[k])
    ensures Do(SHIPPED, FailedDispatchStates()[k], FailedDispatch()[k]) == FailedDispatchStates()[k + 1]
  {
  }

  lemma {:induction false} FailedDispatchPasses(k: nat)
    requires k <= 7
    ensures Moves(SHIPPED, FailedDispatch()[..k])
    ensures Reached(SHIPPED, FailedDispatch()[..k]) == FailedDispatchStates()[k]
  {
    hide Do, Can;
    if k == 0 {
      assert FailedDispatch()[..0] == [];
    } else {
      FailedDispatchPasses(k - 1);
      FailedDispatchStep(k - 1);
      OneMoreMove(SHIPPED, FailedDispatch()[..k - 1], FailedDispatch()[k - 1]);
      assert FailedDispatch()[..k] == FailedDispatch()[..k - 1] + [FailedDispatch()[k - 1]];
    }
  }
}
