/**
  What the solver returns: for every compound scenario, the battery, grid and PV flows of each
  slot, the SOC at the end of each slot, and the relay schedule of each managed load.
 */
module Plans {

  /** The per-slot decision variables of one scenario (lp/formulation.py, `LPVars`). */
  datatype Kind = Bcg | Bcp | Bd | Gi | Ge | Pvh | Pvb | Pve | Pvc | Soc | Over

  datatype Slot = Slot(
    bcg: real,   // grid -> battery, kW
    bcp: real,   // PV -> battery, kW
    bd: real,    // battery discharge, kW
    gi: real,    // grid import, kW
    ge: real,    // grid export, kW
    pvh: real,   // PV -> house, kW
    pvb: real,   // PV -> battery as booked on the PV side, kW
    pve: real,   // PV -> export, kW
    pvc: real,   // PV curtailed, kW
    soc: real,   // SOC at the end of the slot, percent
    over: real)  // slack above the SOC ceiling, percent
  {
    function Get(k: Kind): real {
      match k
      case Bcg => bcg
      case Bcp => bcp
      case Bd => bd
      case Gi => gi
      case Ge => ge
      case Pvh => pvh
      case Pvb => pvb
      case Pve => pve
      case Pvc => pvc
      case Soc => soc
      case Over => over
    }

    /** Signed battery power: positive charges, negative discharges. */
    function Net(): real { bcg + bcp - bd }
  }

  datatype Plan = Plan(slots: seq<Slot>, terminalSlack: real, relays: seq<seq<real>>)

  /** One plan per compound scenario. */
  type Assignment = seq<Plan>

  /** A PuLP variable: the scenario index stands for the name prefix. */
  datatype Var =
    | At(kind: Kind, s: nat, t: nat)
    | TerminalSlack(s: nat)
    | Relay(s: nat, load: nat, t: nat)

  function Value(x: Assignment, v: Var): real {
    match v
    case At(k, s, t) => if s < |x| && t < |x[s].slots| then x[s].slots[t].Get(k) else 0.0
    case TerminalSlack(s) => if s < |x| then x[s].terminalSlack else 0.0
    case Relay(s, l, t) =>
      if s < |x| && l < |x[s].relays| && t < |x[s].relays[l]| then x[s].relays[l][t] else 0.0
  }

  predicate PlanShaped(p: Plan, n: nat, loads: nat) {
    && |p.slots| == n
    && |p.relays| == loads
    && forall l :: 0 <= l < loads ==> |p.relays[l]| == n
  }

  predicate Shaped(x: Assignment, k: nat, n: nat, loads: nat) {
    && |x| == k
    && forall s :: 0 <= s < k ==> PlanShaped(x[s], n, loads)
  }
}
