/** Acquisition of a runtime-backed window: the registry in place and the bounded repair loop. */
module WindowAcquisition {
  import opened Common
  import opened WindowRegistry

  /** What the stores answer about the window's natural state. */
  datatype Natural = NaturalOld | NaturalCommitted | NaturalCollision | NeedsRepair | NaturalFails

  datatype Commitment = CommandCommitted | CommandNotCommitted | CommandIndeterminate

  datatype Repair = Repaired | RepairNotCommitted | RepairUnknown

  /** The answers one turn of the loop may meet. */
  datatype Turn = Turn(cancelled: bool, natural: Natural, prepares: bool, commitment: Commitment, repair: Repair)

  datatype Reason =
    | Cancelled | Preparation | Command | IdentityCollision | NaturalState | BudgetExhausted | RepairFailed

  /** The outcomes that are indeterminate carry the flight with their reconciliation. */
  datatype Outcome =
    | Committed | ExactCommitted | NotCommitted(reason: Reason) | Indeterminate | RepairIndeterminate
    | Refused(error: Error)

  datatype Resolution = Pending | ExactOld | ExactNew | Collision

  predicate KeepsFlight(outcome: Outcome)
  {
    outcome == Indeterminate || outcome == RepairIndeterminate
  }

  function Execute(commitment: Commitment): (outcome: Outcome)
  {
    match commitment
    case CommandCommitted => Committed
    case CommandNotCommitted => NotCommitted(Command)
    case CommandIndeterminate => Indeterminate
  }

  /** A turn that asks for a repair. */
  predicate AsksRepair(t: Turn)
  {
    !t.cancelled && t.natural == NeedsRepair
  }

  /** A turn that neither ends the acquisition nor fails to repair. */
  predicate Repairs(t: Turn)
  {
    AsksRepair(t) && t.repair == Repaired
  }

  /** How a turn that does not repair ends the acquisition. */
  function Ends(t: Turn): (outcome: Outcome)
  {
    if t.cancelled then NotCommitted(Cancelled)
    else
      match t.natural
      case NaturalOld => if t.prepares then Execute(t.commitment) else NotCommitted(Preparation)
      case NaturalCommitted => ExactCommitted
      case NaturalCollision => NotCommitted(IdentityCollision)
      case NaturalFails => NotCommitted(NaturalState)
      case NeedsRepair => if t.repair == RepairUnknown then RepairIndeterminate else NotCommitted(RepairFailed)
  }

  /** What the outcome of a last turn says: committed by this command or before, unknown exactly where the command or
      the repair is, and otherwise the first thing that failed. */
  lemma EndsSays(t: Turn)
    requires !Repairs(t)
    ensures var running := !t.cancelled && t.natural == NaturalOld && t.prepares;
            && (Ends(t) == Committed <==> running && t.commitment == CommandCommitted)
            && (Ends(t) == Indeterminate <==> running && t.commitment == CommandIndeterminate)
            && (Ends(t) == NotCommitted(Command) <==> running && t.commitment == CommandNotCommitted)
            && (Ends(t) == NotCommitted(Preparation) <==> !t.cancelled && t.natural == NaturalOld && !t.prepares)
            && (Ends(t) == ExactCommitted <==> !t.cancelled && t.natural == NaturalCommitted)
            && (Ends(t) == NotCommitted(IdentityCollision) <==> !t.cancelled && t.natural == NaturalCollision)
            && (Ends(t) == NotCommitted(NaturalState) <==> !t.cancelled && t.natural == NaturalFails)
            && (Ends(t) == RepairIndeterminate <==>
                  !t.cancelled && t.natural == NeedsRepair && t.repair == RepairUnknown)
            && (Ends(t) == NotCommitted(RepairFailed) <==>
                  !t.cancelled && t.natural == NeedsRepair && t.repair == RepairNotCommitted)
            && (Ends(t) == NotCommitted(Cancelled) <==> t.cancelled)
    ensures Repairs(t) <==> !t.cancelled && t.natural == NeedsRepair && t.repair == Repaired
  {
  }

  /** The acquisition ended with this outcome after so many repairs. */
  ghost predicate EndedAfter(turns: nat -> Turn, budget: nat, repairs: nat, outcome: Outcome)
  {
    && repairs <= budget && (forall k: nat :: k < repairs ==> Repairs(turns(k)))
    && (if repairs == budget && AsksRepair(turns(repairs)) then outcome == NotCommitted(BudgetExhausted)
        else !Repairs(turns(repairs)) && outcome == Ends(turns(repairs)))
  }

  class RuntimeBackedWindowProcessRegistry {
    var active: set<nat>
    var members: set<nat>
    var membership: nat
    var close: Option<nat>
    var selection: Option<nat>
    var next: nat

    ghost function Value(): (r: Registry)
      reads this
    {
      Registry(active, members, membership, close, selection, next)
    }

    constructor ()
      ensures Value() == EMPTY
    {
      active, members, membership, close, selection, next := {}, {}, 0, None, None, 1;
    }

    method AcquireFlight(window: nat) returns (x: Result<Done, Error>)
      modifies this`active
      ensures (Value(), x) == TakeOff(old(Value()), window)
    {
      if selection.Some? || close.Some? {
        return Err(MutationInProgress);
      }
      if window in active {
        return Err(Duplicate);
      }
      if |active| >= MAX_RESTORABLE_WINDOWS {
        return Err(Capacity);
      }
      active := active + {window};
      return Ok(Done);
    }

    method DropFlight(window: nat)
      modifies this`active
      ensures Value() == Land(old(Value()), window)
    {
      active := active - {window};
    }

    method ReserveMainWindow(window: nat, admitted: bool) returns (x: Result<Done, Error>)
      modifies this`members, this`membership, this`next
      ensures (Value(), x) == Reserve(old(Value()), window, admitted)
    {
      if !admitted {
        return Err(ProcessAdmission);
      }
      if selection.Some? {
        return Err(SelectionInProgress);
      }
      if close.Some? {
        return Err(CloseInProgress);
      }
      if window in members {
        return Err(Duplicate);
      }
      if |members| >= MAX_RESTORABLE_WINDOWS {
        return Err(Capacity);
      }
      members := members + {window};
      membership, next := next, next + 1;
      return Ok(Done);
    }

    method DropMainWindow(window: nat)
      modifies this`members, this`membership, this`next
      ensures Value() == Unreserve(old(Value()), window)
    {
      if window in members {
        members := members - {window};
        membership, next := next, next + 1;
      }
    }

    method AdmitSelection(residents: seq<nat>, invoking: nat, admitted: bool) returns (x: Result<Lease, Error>)
      modifies this`selection, this`next
      ensures (Value(), x) == Select(old(Value()), residents, invoking, admitted)
    {
      if |residents| == 0 || |residents| > MAX_RESTORABLE_WINDOWS {
        return Err(WindowSetChanged);
      }
      var presented := ToSet(residents);
      if |presented| != |residents| || invoking !in presented {
        return Err(WindowSetChanged);
      }
      if !admitted || close.Some? || selection.Some? || active != {} {
        return Err(Busy);
      }
      if members != presented {
        return Err(WindowSetChanged);
      }
      var owner := next;
      selection, next := Some(owner), next + 1;
      return Ok(Lease(owner, membership, invoking));
    }

    method AdmitCloseOf(snapshot: Snapshot, admitted: bool) returns (x: Result<nat, Error>)
      modifies this`close, this`next
      ensures (Value(), x) == AdmitClose(old(Value()), snapshot, admitted)
    {
      if !admitted {
        return Err(ProcessAdmission);
      }
      if close.Some? || selection.Some? {
        return Err(Busy);
      }
      if membership != snapshot.membership {
        return Err(WindowSetChanged);
      }
      var owner := next;
      close, next := Some(owner), next + 1;
      return Ok(owner);
    }

    /** The acquisition repairs the catalogue once for every turn before the one that ends it, never more often than the
        budget, and keeps the flight only with an outcome that is unknown. */
    method AcquireInFlight(window: nat, turns: nat -> Turn, budget: nat) returns (outcome: Outcome, repairs: nat)
      modifies this`active
      ensures EndedAfter(turns, budget, repairs, outcome)
      ensures Value() == if KeepsFlight(outcome) then old(Value()) else Land(old(Value()), window)
    {
      repairs := 0;
      outcome := NotCommitted(BudgetExhausted);
      for count := 0 to budget + 1
        invariant repairs == count <= budget && (forall k: nat :: k < count ==> Repairs(turns(k)))
        invariant Value() == old(Value())
      {
        var t := turns(count);
        if t.cancelled || t.natural != NeedsRepair {
          outcome := Ends(t);
          if !KeepsFlight(outcome) {
            DropFlight(window);
          }
          return;
        }
        if count == budget {
          DropFlight(window);
          return NotCommitted(BudgetExhausted), repairs;
        }
        if t.repair != Repaired {
          outcome := Ends(t);
          if !KeepsFlight(outcome) {
            DropFlight(window);
          }
          return;
        }
        repairs := repairs + 1;
      }
      assert false;
    }

    method Acquire(window: nat, turns: nat -> Turn, budget: nat) returns (outcome: Outcome)
      modifies this`active
      ensures Value().(active := {}) == old(Value()).(active := {})
      ensures match TakeOff(old(Value()), window).1
              case Err(e) => outcome == Refused(e)
              case Ok(_) => !outcome.Refused? && exists repairs :: EndedAfter(turns, budget, repairs, outcome)
      ensures active == if outcome == Indeterminate || outcome == RepairIndeterminate then old(active) + {window}
                        else old(active)
    {
      var x := AcquireFlight(window);
      if x.Err? {
        return Refused(x.error);
      }
      var repairs;
      outcome, repairs := AcquireInFlight(window, turns, budget);
      assert old(active) + {window} - {window} == old(active);
    }

    /** Both `reconcile` methods: a pending answer hands the flight back. */
    method Reconcile(window: nat, resolution: Resolution) returns (flight: bool)
      modifies this`active
      ensures flight <==> resolution == Pending
      ensures Value() == if flight then old(Value()) else Land(old(Value()), window)
    {
      if resolution == Pending {
        return true;
      }
      DropFlight(window);
      return false;
    }
  }
}
