/** The verification watcher's critical sections (lp/watcher.py); I/O happens between them. */
module Watcher {
  import opened Options
  import opened Breaker

  /** What a poll carries from its first critical section across the Modbus read. */
  datatype Snapshot = Snapshot(commanded: Commanded, sawLatched: bool)

  /** A poll goes on only with a command whose grace period is over. */
  function SnapshotOf(rt: Runtime, cfg: Config, now: int): Option<Snapshot> {
    if rt.commanded.Some? && now - rt.commanded.value.writtenAt >= cfg.grace
    then Some(Snapshot(rt.commanded.value, rt.breaker.latched))
    else None
  }

  class VerificationWatcher {
    const runtime: LPRuntime

    constructor (runtime: LPRuntime)
      ensures this.runtime == runtime
    {
      this.runtime := runtime;
    }

    /** The start of `poll`: snapshot, then decide whether there is anything to verify. */
    method BeginPoll(now: int) returns (snapshot: Option<Snapshot>)
      ensures snapshot == SnapshotOf(runtime.State(), runtime.cfg, now)
    {
      var commanded, sawLatched := runtime.commanded, runtime.latched;
      if commanded.None? {
        return None;
      }
      if now - commanded.value.writtenAt < runtime.cfg.grace {
        return None;
      }
      snapshot := Some(Snapshot(commanded.value, sawLatched));
    }

    method OnCleanVerification(sawLatched: bool)
      modifies runtime
      ensures runtime.State() == old(runtime.State()).Clean(runtime.cfg, sawLatched)
    {
      runtime.deviations := 0;
      if !sawLatched {
        return;
      }
      runtime.cleanProbes := runtime.cleanProbes + 1;
      if runtime.cleanProbes >= runtime.cfg.cleanThreshold {
        runtime.latched, runtime.latchedAt := false, None;
        runtime.cleanProbes, runtime.lastReason := 0, NoReason;
      }
    }

    /** The counting half of `_on_deviation`; the caller falls back and then latches when told to. */
    method OnDeviation() returns (trip: bool)
      modifies runtime
      ensures runtime.State() == old(runtime.State()).Deviate()
      ensures trip <==> runtime.State().MustTrip(runtime.cfg)
    {
      runtime.deviations := runtime.deviations + 1;
      trip := runtime.deviations >= runtime.cfg.deviationThreshold && !runtime.latched;
      runtime.cleanProbes := 0;
    }

    /** The end of `_on_deviation`, once the fallback writes are done. */
    method FinishTrip(now: int)
      modifies runtime
      ensures runtime.State() == old(runtime.State()).Latch(VerifyDeviation, now)
    {
      runtime.Latch(VerifyDeviation, now);
    }
  }
}
