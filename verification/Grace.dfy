/**
  The grace period of a command (lp/watcher.py): the inverter gets time to follow before anything it does
  is held against the command, or counted in its favour.
 */
module Grace {
  import opened Options
  import opened Breaker
  import opened Watcher
  import opened Protocol
  import opened StaleOutcomes

  /** Event `j` recorded the command, and nothing has replaced or dropped it since. */
  predicate LastCommand(es: seq<Event>, j: nat, c: Commanded) {
    && j < |es|
    && es[j].action == TickRecord(c.intent) && es[j].at == c.writtenAt
    && forall k :: j < k < |es| ==> !es[k].action.TickRecord? && !IsLatch(es[k])
  }

  /** What the runtime holds as commanded is the last dispatch recorded, unless the breaker latched since. */
  lemma {:induction false} CommandIsLast(cfg: Config, es: seq<Event>) returns (j: nat)
    requires Run(cfg, es) && After(cfg, es).rt.commanded.Some?
    ensures LastCommand(es, j, After(cfg, es).rt.commanded.value)
  {
    var n := |es| - 1;
    if es[n].action.TickRecord? {
      j := n;
    } else {
      j := CommandIsLast(cfg, es[..n]);
    }
  }

  /** Event `b` began the poll in flight at the end of the run. */
  predicate BeganPoll(cfg: Config, es: seq<Event>, b: nat)
    requires Run(cfg, es)
  {
    && b < |es| && es[b].action.PollBegin?
    && (forall k :: b < k < |es| ==> !IsPoll(es[k]))
    && Run(cfg, es[..b])
    && After(cfg, es).poll.Verifying?
    && SnapshotOf(After(cfg, es[..b]).rt, cfg, es[b].at) == Some(After(cfg, es).poll.snapshot)
  }

  lemma {:induction false} PollBegan(cfg: Config, es: seq<Event>) returns (b: nat)
    requires Run(cfg, es) && After(cfg, es).poll.Verifying?
    ensures BeganPoll(cfg, es, b)
  {
    var n := |es| - 1;
    RunNext(cfg, es, n);
    assert es[..n + 1] == es;
    if es[n].action.PollBegin? {
      b := n;
    } else {
      b := PollBegan(cfg, es[..n]);
      assert es[..n][..b] == es[..b];
    }
  }

  /**
    In every run an outcome, clean or deviating, is that of a poll begun no sooner than the grace
    period after the command it judges was recorded, and that command was still the last one then.
   */
  lemma OutcomesFollowGrace(cfg: Config, es: seq<Event>, m: nat) returns (j: nat, b: nat)
    requires Run(cfg, es) && m < |es| && (es[m].action.PollClean? || es[m].action.PollDeviate?)
    ensures j < b < m && es[j].action.TickRecord? && es[b].action.PollBegin?
    ensures es[j].at + cfg.grace <= es[b].at
    ensures forall k :: j < k < b ==> !es[k].action.TickRecord? && !IsLatch(es[k])
    ensures forall k :: b < k < m ==> !IsPoll(es[k])
  {
    RunNext(cfg, es, m);
    b := PollBegan(cfg, es[..m]);
    assert es[..m][..b] == es[..b];
    j := CommandIsLast(cfg, es[..b]);
    var c := After(cfg, es[..b]).rt.commanded.value;
    assert LastCommand(es[..b], j, c) && es[b].at - c.writtenAt >= cfg.grace;
    forall k | j < k < b ensures !es[k].action.TickRecord? && !IsLatch(es[k]) {
      assert es[..b][k] == es[k];
    }
  }

  /** A poll verifies if and only if a command is out and its grace period over, with the latch state of that moment. */
  lemma PollsOnceGraceIsOver(cfg: Config, es: seq<Event>, b: nat)
    requires Run(cfg, es) && b < |es| && es[b].action.PollBegin?
    ensures Run(cfg, es[..b]) && Run(cfg, es[..b + 1])
    ensures var before, poll := After(cfg, es[..b]).rt, After(cfg, es[..b + 1]).poll;
      && (poll.Verifying? <==>
        before.commanded.Some? && before.commanded.value.writtenAt + cfg.grace <= es[b].at)
      && (poll.Verifying? ==>
        poll.snapshot.commanded == before.commanded.value && poll.snapshot.sawLatched == before.breaker.latched)
      && (!poll.Verifying? ==> poll.NoPoll?)
  {
    RunNext(cfg, es, b);
  }
}
