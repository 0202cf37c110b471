/**
  Clean outcomes of polls begun before the breaker latched (lp/watcher.py): a poll carries the latch
  state it saw across the Modbus read, so its outcome may count towards clearing a latch set since.
 */
module StaleOutcomes {
  import opened Options
  import opened Breaker
  import opened Watcher
  import opened Protocol

  predicate IsPoll(e: Event) {
    e.action.PollBegin? || e.action.PollClean? || e.action.PollDeviate? || e.action.PollLatch? || e.action.PollEnd?
  }

  /** A poll begins between events `i` and `m`. */
  predicate Begun(es: seq<Event>, i: nat, m: nat)
    requires m <= |es|
  {
    exists b :: i < b < m && es[b].action.PollBegin?
  }

  /** A counted clean outcome of a poll begun after event `i`. */
  predicate FreshAt(cfg: Config, es: seq<Event>, i: nat, m: nat)
    requires Run(cfg, es) && m < |es|
  {
    ProbeCleanAt(cfg, es, m) && Begun(es, i, m)
  }

  /** A counted clean outcome, after event `i`, of a poll begun before it. */
  predicate StaleAt(cfg: Config, es: seq<Event>, i: nat, m: nat)
    requires Run(cfg, es) && m < |es|
  {
    i < m && ProbeCleanAt(cfg, es, m) && !Begun(es, i, m)
  }

  /** Counted clean outcomes of polls begun after event `i`. */
  function FreshCleans(cfg: Config, es: seq<Event>, i: nat): nat
    requires Run(cfg, es)
    decreases |es|
  {
    if es == [] then 0
    else FreshCleans(cfg, es[..|es| - 1], i) + (if FreshAt(cfg, es, i, |es| - 1) then 1 else 0)
  }

  // ---------------------------------------------------------------- at most one is stale

  /** Until a poll begins, at most one outcome is counted, and then no poll is in flight. */
  predicate Settled(cfg: Config, es: seq<Event>, i: nat, j: nat)
    requires Run(cfg, es) && j <= |es|
  {
    !Begun(es, i, |es|) ==>
      ProbeCleans(cfg, es, j) == 0 || (ProbeCleans(cfg, es, j) == 1 && After(cfg, es).poll.NoPoll?)
  }

  /** Of the clean outcomes counted after event `i` all but at most one belong to polls begun after it. */
  lemma {:induction false} AllButOneFresh(cfg: Config, es: seq<Event>, i: nat, j: nat)
    requires Run(cfg, es) && i < j <= |es|
    ensures Settled(cfg, es, i, j)
    ensures ProbeCleans(cfg, es, j) <= FreshCleans(cfg, es, i) + 1
    decreases |es|
  {
    var n := |es| - 1;
    if j <= n {
      var before := es[..n];
      AllButOneFresh(cfg, before, i, j);
      assert es[..n + 1] == es;
      SameBegun(es, i, n);
      OneMoreOutcome(cfg, es, i, j);
    }
  }

  lemma SameBegun(es: seq<Event>, i: nat, n: nat)
    requires n < |es|
    ensures Begun(es[..n], i, n) <==> Begun(es, i, n)
    ensures Begun(es, i, n + 1) <==> Begun(es, i, n) || (i < n && es[n].action.PollBegin?)
  {
    if Begun(es, i, n) {
      var b :| i < b < n && es[b].action.PollBegin?;
      assert es[..n][b] == es[b];
    }
  }

  lemma OneMoreOutcome(cfg: Config, es: seq<Event>, i: nat, j: nat)
    requires Run(cfg, es) && 0 < |es| && i < j <= |es| - 1
    requires Begun(es[..|es| - 1], i, |es| - 1) <==> Begun(es, i, |es| - 1)
    requires Begun(es, i, |es|) <==> Begun(es, i, |es| - 1) || es[|es| - 1].action.PollBegin?
    requires Settled(cfg, es[..|es| - 1], i, j)
    requires ProbeCleans(cfg, es[..|es| - 1], j) <= FreshCleans(cfg, es[..|es| - 1], i) + 1
    ensures Settled(cfg, es, i, j)
    ensures ProbeCleans(cfg, es, j) <= FreshCleans(cfg, es, i) + 1
  {
    hide Begun;
    var n := |es| - 1;
    RunNext(cfg, es, n);
  }

  /** Clearing takes at least one poll fewer than the threshold, all begun after any latch before it. */
  lemma FreshCleansNeeded(cfg: Config, es: seq<Event>, i: nat, k: nat)
    requires Run(cfg, es) && i < k < |es| && IsLatch(es[i]) && ClearsAt(cfg, es, k)
    ensures Run(cfg, es[..k + 1]) && FreshCleans(cfg, es[..k + 1], i) + 1 >= cfg.cleanThreshold
    ensures cfg.cleanThreshold >= 2 ==> Begun(es, i, k)
  {
    RunNext(cfg, es, k);
    var j := ClearExactly(cfg, es, k);
    assert es[..k][i] == es[i] && i < j;
    var upTo := es[..k + 1];
    assert upTo[..k] == es[..k];
    AllButOneFresh(cfg, upTo, i, j);
    if FreshCleans(cfg, upTo, i) > 0 {
      FreshMeansBegun(cfg, upTo, i);
      var b :| i < b < k && upTo[b].action.PollBegin?;
      assert es[b] == upTo[b];
    }
  }

  lemma {:induction false} FreshMeansBegun(cfg: Config, es: seq<Event>, i: nat)
    requires Run(cfg, es) && FreshCleans(cfg, es, i) > 0
    ensures exists b :: i < b < |es| - 1 && es[b].action.PollBegin?
  {
    var n := |es| - 1;
    if !FreshAt(cfg, es, i, n) {
      FreshMeansBegun(cfg, es[..n], i);
      var b :| i < b < n - 1 && es[..n][b].action.PollBegin?;
      assert es[b] == es[..n][b];
    }
  }

  // ---------------------------------------------------------------- when one is

  /** Nothing polls between events `i` and `m`. */
  predicate Quiet(es: seq<Event>, i: nat, m: nat)
    requires m <= |es|
  {
    forall b :: i < b < m ==> !IsPoll(es[b])
  }

  /** If no poll begins after event `i`, the poll in flight at `m` was in flight at `i` and nothing polled since. */
  lemma {:induction false} InFlightSince(cfg: Config, es: seq<Event>, i: nat, m: nat)
    requires Run(cfg, es) && i < m <= |es| && !Begun(es, i, m)
    ensures Run(cfg, es[..m]) && Run(cfg, es[..i + 1])
    ensures After(cfg, es[..m]).poll.Verifying? ==>
      Quiet(es, i, m) && After(cfg, es[..i + 1]).poll == After(cfg, es[..m]).poll
    decreases m
  {
    RunNext(cfg, es, m - 1);
    RunNext(cfg, es, i);
    if i + 1 < m {
      InFlightSince(cfg, es, i, m - 1);
      assert !es[m - 1].action.PollBegin?;
    }
  }

  lemma {:induction false} StillInFlight(cfg: Config, es: seq<Event>, i: nat, m: nat)
    requires Run(cfg, es) && i < m <= |es| && Quiet(es, i, m)
    ensures Run(cfg, es[..m]) && Run(cfg, es[..i + 1])
    ensures After(cfg, es[..i + 1]).poll == After(cfg, es[..m]).poll
    decreases m
  {
    RunNext(cfg, es, m - 1);
    RunNext(cfg, es, i);
    if i + 1 < m {
      StillInFlight(cfg, es, i, m - 1);
      assert !IsPoll(es[m - 1]);
    }
  }

  /**
    A clean outcome after a latch is stale exactly when the tick set that latch while a poll that
    had seen the breaker latched was in flight, and this is that poll's outcome.
   */
  lemma StaleExactly(cfg: Config, es: seq<Event>, i: nat, m: nat)
    requires Run(cfg, es) && i < m < |es| && IsLatch(es[i]) && es[m].action.PollClean?
    ensures Run(cfg, es[..i])
    ensures var poll := After(cfg, es[..i]).poll;
      StaleAt(cfg, es, i, m) <==>
        es[i].action.TickLatch? && poll.Verifying? && poll.snapshot.sawLatched && Quiet(es, i, m)
  {
    RunNext(cfg, es, i);
    RunNext(cfg, es, m);
    if StaleAt(cfg, es, i, m) {
      InFlightSince(cfg, es, i, m);
    }
    if Quiet(es, i, m) {
      StillInFlight(cfg, es, i, m);
    }
  }

  // ---------------------------------------------------------------- with the shipped thresholds

  function In(action: Action, seconds: nat): Event { Event(action, seconds * 1_000_000) }

  /** A probe's poll is in flight when a failed solve latches again; two more polls then clear the breaker. */
  function StaleRun(): seq<Event> {
    [In(TickStart, 0), In(TickCheck, 0), In(TickFail(LpTimeout), 5), In(TickLatch, 6),
     In(TickStart, 310), In(TickCheck, 311), In(TickRecord(1.0), 312),
     In(PollBegin, 350), In(TickStart, 350), In(TickCheck, 351), In(TickFail(LpTimeout), 352), In(TickLatch, 353),
     In(PollClean, 354),
     In(TickStart, 660), In(TickCheck, 661), In(TickRecord(1.0), 662),
     In(PollBegin, 700), In(PollClean, 701), In(PollBegin, 710), In(PollClean, 711)]
  }

  /** With three clean outcomes required, a stale one and two fresh ones clear the breaker. */
  lemma TwoFreshCanSuffice()
    ensures var es := StaleRun();
      && |es| == 20 && Run(SHIPPED, es) && IsLatch(es[11])
      && StaleAt(SHIPPED, es, 11, 12) && ClearsAt(SHIPPED, es, 19)
      && forall b :: 11 < b < 20 && es[b].action.PollBegin? ==> b == 16 || b == 18
  {
    var es := StaleRun();
    StaleRunStates(20);
    assert es[..20] == es;
    StaleRunStates(12);
    StaleRunStates(19);
  }

  lemma {:induction false} StaleRunStates(k: nat)
    requires k <= 20
    ensures Run(SHIPPED, StaleRun()[..k]) && After(SHIPPED, StaleRun()[..k]) == StaleStates()[k]
  {
    var es := StaleRun();
    if k == 0 {
      assert es[..0] == [];
    } else {
      StaleRunStates(k - 1);
      StaleStep(k - 1);
      assert es[..k][..k - 1] == es[..k - 1];
    }
  }

  lemma StaleStep(k: nat)
    requires k < 20
    ensures Enabled(StaleStates()[k], StaleRun()[k])
    ensures Step(SHIPPED, StaleStates()[k], StaleRun()[k]) == StaleStates()[k + 1]
  {
    hide StaleRun, StaleStates, Step, Enabled;
    if k < 7 {
      ToProbe(k);
    } else if k < 13 {
      ToStaleClean(k);
    } else {
      ToClearing(k);
    }
  }

  lemma ToProbe(k: nat)
    requires k < 7
    ensures Enabled(StaleStates()[k], StaleRun()[k])
    ensures Step(SHIPPED, StaleStates()[k], StaleRun()[k]) == StaleStates()[k + 1]
  {
  }

  lemma ToStaleClean(k: nat)
    requires 7 <= k < 13
    ensures Enabled(StaleStates()[k], StaleRun()[k])
    ensures Step(SHIPPED, StaleStates()[k], StaleRun()[k]) == StaleStates()[k + 1]
  {
  }

  lemma ToClearing(k: nat)
    requires 13 <= k < 20
    ensures Enabled(StaleStates()[k], StaleRun()[k])
    ensures Step(SHIPPED, StaleStates()[k], StaleRun()[k]) == StaleStates()[k + 1]
  {
  }

  /** The states that run goes through. */
  function StaleStates(): (states: seq<System>)
    ensures |states| == 21
  {
    var s := 1_000_000;
    var healthy, first := Fresh(), Runtime(None, Breaker(true, Some(6 * s), 0, 0, LpTimeout));
    var second := Runtime(None, Breaker(true, Some(353 * s), 0, 0, LpTimeout));
    var one := second.(breaker := second.breaker.(cleanProbes := 1));
    var two := one.breaker.(cleanProbes := 2);
    var c, d := Commanded(1.0, 312 * s), Commanded(1.0, 662 * s);
    var poll, later := Verifying(Snapshot(c, true)), Verifying(Snapshot(d, true));
    [Boot(), System(healthy, Started(0), NoPoll, 0), System(healthy, Past, NoPoll, 0),
     System(healthy, Failing(LpTimeout), NoPoll, 5 * s), System(first, NoTick, NoPoll, 6 * s),
     System(first, Started(310 * s), NoPoll, 310 * s), System(first, Past, NoPoll, 311 * s),
     System(Runtime(Some(c), first.breaker), NoTick, NoPoll, 312 * s),
     System(Runtime(Some(c), first.breaker), NoTick, poll, 350 * s),
     System(Runtime(Some(c), first.breaker), Started(350 * s), poll, 350 * s),
     System(Runtime(Some(c), first.breaker), Past, poll, 351 * s),
     System(Runtime(Some(c), first.breaker), Failing(LpTimeout), poll, 352 * s),
     System(second, NoTick, poll, 353 * s), System(one, NoTick, NoPoll, 354 * s),
     System(one, Started(660 * s), NoPoll, 660 * s), System(one, Past, NoPoll, 661 * s),
     System(Runtime(Some(d), one.breaker), NoTick, NoPoll, 662 * s),
     System(Runtime(Some(d), one.breaker), NoTick, later, 700 * s),
     System(Runtime(Some(d), two), NoTick, NoPoll, 701 * s),
     System(Runtime(Some(d), two), NoTick, later, 710 * s),
     System(Runtime(Some(d), Breaker(false, None, 0, 0, NoReason)), NoTick, NoPoll, 711 * s)]
  }
}
