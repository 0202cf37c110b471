/** User-strategy modes and the per-slot masks the formulation reads (modes.py). */
module Modes {
  import opened Options

  datatype ModeKind = Buy | Conserve

  /** One active mode; `threshold` is the buy ceiling or the conserve floor, in c/kWh. */
  datatype ActiveMode = ActiveMode(endAt: Option<int>, threshold: real, socCutoff: Option<real>)
  {
    predicate Expired(now: int) { endAt.Some? && endAt.value <= now }

    predicate Covers(slot: int) { endAt.None? || slot < endAt.value }
  }

  datatype ModeOverrides = ModeOverrides(
    buyAt: seq<bool>,
    buyCeiling: Option<real>,
    conserveAt: seq<bool>,
    conserveFloor: Option<real>,
    buySocCutoff: Option<real>)

  type Active = map<ModeKind, ActiveMode>

  function Unexpired(modes: Active, now: int): Active {
    map k | k in modes && !modes[k].Expired(now) :: modes[k]
  }

  /** The active modes once a reached buy cutoff has been cancelled. */
  function Pruned(modes: Active, soc: real): Active {
    if Buy in modes && modes[Buy].socCutoff.Some? && soc >= modes[Buy].socCutoff.value
    then modes - {Buy}
    else modes
  }

  function Mask(modes: Active, kind: ModeKind, slots: seq<int>): (mask: seq<bool>)
    ensures |mask| == |slots|
    ensures forall t :: 0 <= t < |slots| ==> mask[t] == (kind in modes && modes[kind].Covers(slots[t]))
  {
    seq(|slots|, t requires 0 <= t < |slots| => kind in modes && modes[kind].Covers(slots[t]))
  }

  function OverridesOf(modes: Active, slots: seq<int>): ModeOverrides {
    ModeOverrides(
      Mask(modes, Buy, slots),
      if Buy in modes then Some(modes[Buy].threshold) else None,
      Mask(modes, Conserve, slots),
      if Conserve in modes then Some(modes[Conserve].threshold) else None,
      if Buy in modes then modes[Buy].socCutoff else None)
  }

  /** The SOC has not yet reached the cutoff of a buy window. */
  predicate CutoffAhead(o: ModeOverrides, soc: real) {
    o.buySocCutoff.Some? ==> soc < o.buySocCutoff.value
  }

  // ---------------------------------------------------------------- histories

  /** What can happen to the active modes; reading them drops the expired ones. */
  datatype Op = Activate(kind: ModeKind, mode: ActiveMode) | Cancel(kind: ModeKind) | Read(now: int) | Prune(soc: real)
  {
    /** The operation leaves nothing of a mode that was active under `k`. */
    predicate Ends(k: ModeKind, m: ActiveMode) {
      match this
      case Activate(kind, _) => kind == k
      case Cancel(kind) => kind == k
      case Read(now) => m.Expired(now)
      case Prune(soc) => k == Buy && m.socCutoff.Some? && soc >= m.socCutoff.value
    }
  }

  function Next(modes: Active, op: Op): Active {
    match op
    case Activate(kind, mode) => modes[kind := mode]
    case Cancel(kind) => modes - {kind}
    case Read(now) => Unexpired(modes, now)
    case Prune(soc) => Pruned(modes, soc)
  }

  /** The modes a history leaves, starting from none. */
  function After(ops: seq<Op>): Active {
    if ops == [] then map[] else Next(After(ops[..|ops| - 1]), ops[|ops| - 1])
  }

  /** The `i`-th operation activated the mode and none since has ended it. */
  predicate InForce(ops: seq<Op>, i: int, kind: ModeKind, mode: ActiveMode) {
    && 0 <= i < |ops|
    && ops[i] == Activate(kind, mode)
    && forall j :: i < j < |ops| ==> !ops[j].Ends(kind, mode)
  }

  /** A mode is active iff it was activated and not replaced, cancelled, seen expired or pruned since. */
  lemma {:induction false} ActiveExactly(ops: seq<Op>, kind: ModeKind, mode: ActiveMode)
    ensures kind in After(ops) && After(ops)[kind] == mode <==> exists i :: InForce(ops, i, kind, mode)
  {
    if ops == [] {
      assert After(ops) == map[];
    } else {
      var n := |ops| - 1;
      var before, op := ops[..n], ops[n];
      ActiveExactly(before, kind, mode);
      if op == Activate(kind, mode) {
        assert InForce(ops, n, kind, mode);
      } else if kind in After(before) && After(before)[kind] == mode && !op.Ends(kind, mode) {
        var i :| InForce(before, i, kind, mode);
        assert InForce(ops, i, kind, mode);
      } else {
        forall i ensures !InForce(ops, i, kind, mode) {
          assert InForce(ops, i, kind, mode) ==> InForce(before, i, kind, mode);
        }
      }
    }
  }

  /** Some mode in force after a history covers a slot. */
  ghost predicate Covered(ops: seq<Op>, kind: ModeKind, slot: int) {
    exists i, mode :: InForce(ops, i, kind, mode) && mode.Covers(slot)
  }

  /** A slot is masked iff a mode in force after the whole history covers it. */
  lemma MaskExactly(ops: seq<Op>, kind: ModeKind, slots: seq<int>, t: nat)
    requires t < |slots|
    ensures Mask(After(ops), kind, slots)[t] <==> Covered(ops, kind, slots[t])
  {
    var modes := After(ops);
    if kind in modes {
      ActiveExactly(ops, kind, modes[kind]);
    }
    forall i, mode | InForce(ops, i, kind, mode) ensures kind in modes && modes[kind] == mode {
      ActiveExactly(ops, kind, mode);
    }
  }

  lemma WhetherActive(ops: seq<Op>, kind: ModeKind)
    ensures kind in After(ops) <==> exists i, mode :: InForce(ops, i, kind, mode)
  {
    if kind in After(ops) {
      ActiveExactly(ops, kind, After(ops)[kind]);
    }
    forall i, mode | InForce(ops, i, kind, mode) ensures kind in After(ops) {
      ActiveExactly(ops, kind, mode);
    }
  }

  /** Ceiling, floor and cutoff are those of the modes in force, and there are none without one. */
  ghost predicate ThresholdsOf(ops: seq<Op>, o: ModeOverrides) {
    && (forall i, mode :: InForce(ops, i, Buy, mode) ==>
      o.buyCeiling == Some(mode.threshold) && o.buySocCutoff == mode.socCutoff)
    && (forall i, mode :: InForce(ops, i, Conserve, mode) ==> o.conserveFloor == Some(mode.threshold))
    && (o.buyCeiling.Some? || o.buySocCutoff.Some? ==> exists i, mode :: InForce(ops, i, Buy, mode))
    && (o.conserveFloor.Some? ==> exists i, mode :: InForce(ops, i, Conserve, mode))
  }

  lemma ThresholdsExactly(ops: seq<Op>, slots: seq<int>)
    ensures ThresholdsOf(ops, OverridesOf(After(ops), slots))
  {
    WhetherActive(ops, Buy);
    WhetherActive(ops, Conserve);
    forall i, kind, mode | InForce(ops, i, kind, mode) ensures kind in After(ops) && After(ops)[kind] == mode {
      ActiveExactly(ops, kind, mode);
    }
  }

  /** A history without its reads. */
  function Unread(ops: seq<Op>): seq<Op> {
    if ops == [] then []
    else if ops[|ops| - 1].Read? then Unread(ops[..|ops| - 1])
    else Unread(ops[..|ops| - 1]) + [ops[|ops| - 1]]
  }

  predicate ReadBy(ops: seq<Op>, instant: int) {
    forall i :: 0 <= i < |ops| && ops[i].Read? ==> ops[i].now <= instant
  }

  /** `fewer` holds a mode of this kind only where `more` does, and may lack only one that misses the slot. */
  predicate SameAhead(fewer: Active, more: Active, kind: ModeKind, slot: int) {
    && (kind in fewer ==> kind in more && more[kind] == fewer[kind])
    && (kind in more && kind !in fewer ==> !more[kind].Covers(slot))
  }

  lemma NextSameAhead(fewer: Active, more: Active, kind: ModeKind, slot: int, op: Op)
    requires SameAhead(fewer, more, kind, slot)
    ensures op.Read? && op.now <= slot ==> SameAhead(Next(fewer, op), more, kind, slot)
    ensures !op.Read? ==> SameAhead(Next(fewer, op), Next(more, op), kind, slot)
  {
  }

  lemma {:induction false} ReadsOnlyDrop(ops: seq<Op>, kind: ModeKind, slot: int)
    requires ReadBy(ops, slot)
    ensures SameAhead(After(ops), After(Unread(ops)), kind, slot)
  {
    hide SameAhead, Next;
    if ops == [] {
      NoModes(kind, slot);
    } else {
      var n := |ops| - 1;
      var before, op := ops[..n], ops[n];
      ReadsOnlyDrop(before, kind, slot);
      NextSameAhead(After(before), After(Unread(before)), kind, slot, op);
      if !op.Read? {
        var unread := Unread(before) + [op];
        assert unread[..|unread| - 1] == Unread(before);
      }
    }
  }

  lemma NoModes(kind: ModeKind, slot: int)
    ensures SameAhead(map[], map[], kind, slot)
  {
  }

  /** Dropping expired modes at every read, at whatever times, never changes the mask of a slot still ahead. */
  lemma ReadsLeaveSlotsAhead(ops: seq<Op>, kind: ModeKind, slots: seq<int>, t: nat)
    requires t < |slots| && ReadBy(ops, slots[t])
    ensures Mask(After(ops), kind, slots)[t] == Mask(After(Unread(ops)), kind, slots)[t]
  {
    ReadsOnlyDrop(ops, kind, slots[t]);
  }

  // ---------------------------------------------------------------- the manager

  class ModeManager {
    var modes: Active
    /** Everything that has happened so far. */
    ghost var history: seq<Op>

    ghost predicate Valid()
      reads this
    {
      modes == After(history)
    }

    constructor ()
      ensures Valid() && history == []
    {
      modes, history := map[], [];
    }

    ghost method Record(op: Op)
      requires modes == Next(After(history), op)
      modifies this`history
      ensures Valid() && history == old(history) + [op]
    {
      var ops := history + [op];
      assert ops[..|ops| - 1] == history;
      history := ops;
    }

    /** Insert, or replace the mode of the same kind. */
    method Activate(kind: ModeKind, mode: ActiveMode)
      requires Valid()
      modifies this
      ensures Valid() && history == old(history) + [Op.Activate(kind, mode)]
    {
      modes := modes[kind := mode];
      Record(Op.Activate(kind, mode));
    }

    method Cancel(kind: ModeKind) returns (removed: bool)
      requires Valid()
      modifies this
      ensures Valid() && history == old(history) + [Op.Cancel(kind)]
      ensures removed <==> exists i, mode :: InForce(old(history), i, kind, mode)
    {
      removed := kind in modes;
      WhetherActive(history, kind);
      modes := modes - {kind};
      Record(Op.Cancel(kind));
    }

    /** Drops expired modes and returns what is left. */
    method ActiveAt(now: int) returns (active: Active)
      requires Valid()
      modifies this
      ensures Valid() && history == old(history) + [Read(now)]
      ensures active == modes
      ensures forall k :: k in active <==> k in old(modes) && !old(modes)[k].Expired(now)
    {
      modes := Unexpired(modes, now);
      active := modes;
      Record(Read(now));
    }

    method PruneSocReached(soc: real)
      requires Valid()
      modifies this
      ensures Valid() && history == old(history) + [Prune(soc)]
      ensures Buy in modes && modes[Buy].socCutoff.Some? ==> soc < modes[Buy].socCutoff.value
    {
      if Buy in modes && modes[Buy].socCutoff.Some? && soc >= modes[Buy].socCutoff.value {
        modes := modes - {Buy};
      }
      Record(Prune(soc));
    }

    method ToOverrides(now: int, slots: seq<int>) returns (o: ModeOverrides)
      requires Valid()
      modifies this
      ensures Valid() && history == old(history) + [Read(now)]
      ensures o == OverridesOf(After(history), slots)
      ensures ThresholdsOf(history, o)
      ensures forall t :: 0 <= t < |slots| ==>
        && (o.buyAt[t] <==> Covered(history, Buy, slots[t]))
        && (o.conserveAt[t] <==> Covered(history, Conserve, slots[t]))
    {
      var active := ActiveAt(now);
      o := OverridesOf(active, slots);
      ThresholdsExactly(history, slots);
      forall t | 0 <= t < |slots|
        ensures o.buyAt[t] <==> Covered(history, Buy, slots[t])
        ensures o.conserveAt[t] <==> Covered(history, Conserve, slots[t])
      {
        MaskExactly(history, Buy, slots, t);
        MaskExactly(history, Conserve, slots, t);
      }
    }

    /** What a tick does before it builds the problem (service.py, `_run_lp`). */
    method OverridesForTick(soc: real, now: int, slots: seq<int>) returns (o: ModeOverrides)
      requires Valid()
      modifies this
      ensures Valid() && history == old(history) + [Prune(soc), Read(now)]
      ensures o == OverridesOf(After(history), slots)
      ensures ThresholdsOf(history, o)
      ensures forall t :: 0 <= t < |slots| ==>
        && (o.buyAt[t] <==> Covered(history, Buy, slots[t]))
        && (o.conserveAt[t] <==> Covered(history, Conserve, slots[t]))
      ensures CutoffAhead(o, soc)
    {
      PruneSocReached(soc);
      o := ToOverrides(now, slots);
    }
  }
}
