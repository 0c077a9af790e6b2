/** The process admission gate: epoch-fenced permits, counted reservations, fences and reopening. */
module ProcessGate {
  import opened Common

  datatype Gate = Gate(epoch: nat, fenced: bool, admissions: nat)

  datatype Error = Fenced | Stale | Unsettled | Unavailable

  /** Tokens carry the identity of the gate that issued them. */
  datatype Permit = Permit(gate: nat, epoch: Option<nat>)

  datatype Fence = Fence(gate: nat, epoch: nat)

  /** The critical sections. `Close` and `Reopen` hold the lock from preparation to the final decision
      (`publish`, `proceed`), which is therefore one step. */
  datatype Op =
    | Issue
    | Admit
    | RaiseFence
    | Close(publish: bool)
    | Commit(permit: Permit)
    | Reserve(permit: Permit)
    | ReserveWith(admitted: bool)
    | Settled(fence: Fence, gate: nat)
    | Reopen(permit: Permit, fence: Fence, proceed: bool)
    | Release(reservation: nat)

  datatype Outcome =
    | Issued(permit: Permit)
    | Raised(fence: Fence)
    | Reserved
    | Passed
    | Declined
    | Refused(error: Error)

  function Validate(g: Gate, permit: Permit): (e: Option<Error>)
  {
    if g.fenced then Some(Fenced)
    else if permit.epoch != Some(g.epoch) then Some(Stale)
    else None
  }

  function SettledFence(g: Gate, fence: Fence): (e: Option<Error>)
  {
    if !g.fenced || g.epoch != fence.epoch then Some(Stale)
    else if g.admissions != 0 then Some(Unsettled)
    else None
  }

  function Take(g: Gate): (r: (Gate, Outcome))
  {
    if g.admissions < USIZE_MAX then (g.(admissions := g.admissions + 1), Reserved)
    else (g, Refused(Unavailable))
  }

  /** The gate's response to one critical section. */
  function Respond(id: nat, g: Gate, op: Op): (r: (Gate, Outcome))
  {
    match op
    case Issue => (g, Issued(Permit(id, if g.fenced then None else Some(g.epoch))))
    case Admit => (g, if g.fenced then Refused(Fenced) else Passed)
    case RaiseFence =>
      if g.fenced then (g, Raised(Fence(id, g.epoch)))
      else (match CheckedNext(g.epoch)
            case None => (g, Refused(Unavailable))
            case Some(next) => (g.(epoch := next, fenced := true), Raised(Fence(id, next))))
    case Close(publish) =>
      if g.fenced then (g, Refused(Fenced))
      else if g.admissions != 0 then (g, Refused(Unsettled))
      else (match CheckedNext(g.epoch)
            case None => (g, Refused(Unavailable))
            case Some(next) =>
              if publish then (g.(epoch := next, fenced := true), Raised(Fence(id, next))) else (g, Declined))
    case Commit(permit) =>
      (g, match Validate(g, permit) case Some(e) => Refused(e) case None => Passed)
    case Reserve(permit) =>
      (match Validate(g, permit) case Some(e) => (g, Refused(e)) case None => Take(g))
    case ReserveWith(admitted) =>
      if g.fenced then (g, Refused(Fenced))
      else if g.admissions >= USIZE_MAX then (g, Refused(Unavailable))
      else if admitted then Take(g) else (g, Declined)
    case Settled(fence, gate) =>
      (g, if fence.gate != gate then Refused(Stale)
          else match SettledFence(g, fence) case Some(e) => Refused(e) case None => Passed)
    case Reopen(permit, fence, proceed) =>
      if permit.gate != fence.gate then (g, Refused(Stale))
      else (match SettledFence(g, fence)
            case Some(e) => (g, Refused(e))
            case None => if proceed then (g.(fenced := false), Passed) else (g, Declined))
    case Release(_) => (if g.admissions > 0 then g.(admissions := g.admissions - 1) else g, Passed)
  }

  /** The shared state, updated in place under its mutex. */
  class ProcessAdmissionGate {
    const id: nat
    var epoch: nat
    var fenced: bool
    var admissions: nat

    ghost function Value(): (g: Gate)
      reads this
    {
      Gate(epoch, fenced, admissions)
    }

    constructor (id: nat)
      ensures this.id == id && Value() == Gate(1, false, 0)
    {
      this.id := id;
      epoch, fenced, admissions := 1, false, 0;
    }

    method ExecutionPermit() returns (permit: Permit)
      ensures (Value(), Issued(permit)) == Respond(id, old(Value()), Issue)
    {
      permit := Permit(id, if fenced then None else Some(epoch));
    }

    method FenceOff() returns (r: Result<Fence, Error>)
      modifies this
      ensures Respond(id, old(Value()), RaiseFence) ==
              (Value(), match r case Ok(f) => Raised(f) case Err(e) => Refused(e))
    {
      if !fenced {
        var next := CheckedNext(epoch);
        if next.None? {
          return Err(Unavailable);
        }
        epoch := next.value;
        fenced := true;
      }
      return Ok(Fence(id, epoch));
    }

    method CloseSettled(publish: bool) returns (r: Result<Option<Fence>, Error>)
      modifies this
      ensures Respond(id, old(Value()), Close(publish)) ==
              (Value(), match r
                        case Ok(Some(f)) => Raised(f)
                        case Ok(None) => Declined
                        case Err(e) => Refused(e))
    {
      if fenced {
        return Err(Fenced);
      }
      if admissions != 0 {
        return Err(Unsettled);
      }
      var next := CheckedNext(epoch);
      if next.None? {
        return Err(Unavailable);
      }
      if !publish {
        return Ok(None);
      }
      epoch := next.value;
      fenced := true;
      return Ok(Some(Fence(id, next.value)));
    }

    method ReserveFor(permit: Permit) returns (r: Result<Done, Error>)
      modifies this
      ensures Respond(id, old(Value()), Reserve(permit)) ==
              (Value(), match r case Ok(_) => Reserved case Err(e) => Refused(e))
    {
      if fenced {
        return Err(Fenced);
      }
      if permit.epoch != Some(epoch) {
        return Err(Stale);
      }
      if admissions >= USIZE_MAX {
        return Err(Unavailable);
      }
      admissions := admissions + 1;
      return Ok(Done);
    }

    method CommitUnder(permit: Permit) returns (r: Result<Done, Error>)
      ensures Respond(id, Value(), Commit(permit)) ==
              (Value(), match r case Ok(_) => Passed case Err(e) => Refused(e))
    {
      if fenced {
        return Err(Fenced);
      }
      if permit.epoch != Some(epoch) {
        return Err(Stale);
      }
      return Ok(Done);
    }

    method TryReserveWith(admitted: bool) returns (r: Result<bool, Error>)
      modifies this
      ensures Respond(id, old(Value()), ReserveWith(admitted)) ==
              (Value(), match r
                        case Ok(true) => Reserved
                        case Ok(false) => Declined
                        case Err(e) => Refused(e))
    {
      if fenced {
        return Err(Fenced);
      }
      if admissions >= USIZE_MAX {
        return Err(Unavailable);
      }
      if admitted {
        admissions := admissions + 1;
      }
      return Ok(admitted);
    }

    /** Called on a fence, so the state locked is that of the fence's own gate. */
    method WithSettledFor(fence: Fence, gate: nat) returns (r: Result<Done, Error>)
      requires fence.gate == id
      ensures Respond(id, Value(), Settled(fence, gate)) ==
              (Value(), match r case Ok(_) => Passed case Err(e) => Refused(e))
    {
      if fence.gate != gate || !fenced || epoch != fence.epoch {
        return Err(Stale);
      }
      if admissions != 0 {
        return Err(Unsettled);
      }
      return Ok(Done);
    }

    /** Called with a fence of this gate, whose state is the one locked. */
    method ReopenAfter(permit: Permit, fence: Fence, proceed: bool) returns (r: Result<bool, Error>)
      requires fence.gate == id
      modifies this
      ensures Respond(id, old(Value()), Reopen(permit, fence, proceed)) ==
              (Value(), match r
                        case Ok(true) => Passed
                        case Ok(false) => Declined
                        case Err(e) => Refused(e))
    {
      if permit.gate != fence.gate || !fenced || epoch != fence.epoch {
        return Err(Stale);
      }
      if admissions != 0 {
        return Err(Unsettled);
      }
      if proceed {
        fenced := false;
      }
      return Ok(proceed);
    }

    method DropReservation(reservation: nat)
      requires admissions > 0
      modifies this
      ensures (Value(), Passed) == Respond(id, old(Value()), Release(reservation))
    {
      admissions := admissions - 1;
    }
  }

  // Runs

  /** The gate with every token it has handed out: live reservations, permits and fences (both clonable),
      and the epochs already reopened. */
  datatype World = World(
    gate: Gate, live: set<nat>, issued: nat, permits: set<Permit>, fences: set<Fence>, reopened: set<nat>)

  const HOME: nat := 0

  function Start(): (w: World)
  {
    World(Gate(1, false, 0), {}, 0, {}, {}, {})
  }

  function OutcomeOf(w: World, op: Op): (o: Outcome)
  {
    Respond(HOME, w.gate, op).1
  }

  /** Nobody forges a token of this gate, a fence locks its own gate, and a reservation is dropped once. */
  predicate Enabled(w: World, op: Op)
  {
    match op
    case Commit(p) => p in w.permits
    case Reserve(p) => p in w.permits
    case Settled(f, _) => f in w.fences
    case Reopen(p, f, _) => p in w.permits && f in w.fences
    case Release(r) => r in w.live
    case _ => true
  }

  function Next(w: World, op: Op): (w': World)
  {
    var (g, outcome) := Respond(HOME, w.gate, op);
    match outcome
    case Issued(p) => w.(gate := g, permits := w.permits + {p})
    case Raised(f) => w.(gate := g, fences := w.fences + {f})
    case Reserved => w.(gate := g, live := w.live + {w.issued}, issued := w.issued + 1)
    case _ =>
      match op
      case Release(r) => w.(gate := g, live := w.live - {r})
      case Reopen(_, f, _) =>
        w.(gate := g, reopened := if outcome == Passed then w.reopened + {f.epoch} else w.reopened)
      case _ => w.(gate := g)
  }

  ghost predicate Counted(w: World)
  {
    && w.gate.admissions == |w.live|
    && (forall r :: r in w.live ==> r < w.issued)
  }

  /** No token of this gate lies in the future, and while fenced none belongs to the fenced epoch except
      its own fences. */
  ghost predicate Dated(w: World)
  {
    && (forall p :: p in w.permits ==> p.gate == HOME)
    && (forall p :: p in w.permits && p.epoch.Some? ==>
                      p.epoch.value <= w.gate.epoch && (w.gate.fenced ==> p.epoch.value < w.gate.epoch))
    && (forall f :: f in w.fences ==> f.gate == HOME && f.epoch <= w.gate.epoch)
    && (forall e :: e in w.reopened ==> e <= w.gate.epoch && (w.gate.fenced ==> e < w.gate.epoch))
  }

  ghost predicate Inv(w: World)
  {
    Counted(w) && Dated(w)
  }

  lemma CountedReserve(w: World, op: Op)
    requires Counted(w) && OutcomeOf(w, op).Reserved?
    ensures Counted(Next(w, op))
  {
    assert w.issued !in w.live;
    assert |Next(w, op).live| == |w.live| + 1;
  }

  lemma CountedKept(w: World, op: Op)
    requires Counted(w) && Enabled(w, op)
    ensures Counted(Next(w, op))
  {
    if OutcomeOf(w, op).Reserved? {
      CountedReserve(w, op);
    } else if op.Release? {
      assert |Next(w, op).live| == |w.live| - 1;
    }
  }

  /** An open-to-fenced step takes a fresh epoch; no other step moves the epoch. */
  lemma EpochStep(id: nat, g: Gate, op: Op)
    ensures var g' := Respond(id, g, op).0;
            g'.epoch == if !g.fenced && g'.fenced then g.epoch + 1 else g.epoch
  {
  }

  lemma DatedKept(w: World, op: Op)
    requires Dated(w) && Enabled(w, op)
    ensures Dated(Next(w, op))
  {
    EpochStep(HOME, w.gate, op);
  }

  /** A run: `states[i + 1]` follows `states[i]` by `ops[i]`. */
  ghost predicate Run(states: seq<World>, ops: seq<Op>)
  {
    && |states| == |ops| + 1
    && states[0] == Start()
    && (forall i {:trigger ops[i]} ::
          0 <= i < |ops| ==> Enabled(states[i], ops[i]) && states[i + 1] == Next(states[i], ops[i]))
  }

  lemma {:induction false} RunInv(states: seq<World>, ops: seq<Op>, i: nat)
    requires Run(states, ops) && i < |states|
    ensures Inv(states[i])
  {
    if i > 0 {
      RunInv(states, ops, i - 1);
      CountedKept(states[i - 1], ops[i - 1]);
      DatedKept(states[i - 1], ops[i - 1]);
    }
  }

  /** `admissions` counts exactly the live reservations, and dropping one never underflows. */
  lemma AdmissionsCountReservations(states: seq<World>, ops: seq<Op>, i: nat)
    requires Run(states, ops) && i < |states|
    ensures states[i].gate.admissions == |states[i].live|
    ensures i < |ops| && ops[i].Release? ==> states[i].gate.admissions > 0
  {
    RunInv(states, ops, i);
    if i < |ops| && ops[i].Release? {
      assert ops[i].reservation in states[i].live;
    }
  }

  /** Epochs never fall, and once the gate has been fenced the epoch has passed every earlier open epoch. */
  lemma {:induction false} EpochsGrow(states: seq<World>, ops: seq<Op>, i: nat, k: nat)
    requires Run(states, ops) && i <= k < |states|
    ensures states[i].gate.epoch <= states[k].gate.epoch
    ensures forall j :: i <= j <= k && !states[i].gate.fenced && states[j].gate.fenced ==>
              states[i].gate.epoch < states[k].gate.epoch
    decreases k
  {
    if i < k {
      EpochStep(HOME, states[k - 1].gate, ops[k - 1]);
      EpochsGrow(states, ops, i, k - 1);
    }
  }

  lemma {:induction false} OpenThroughout(states: seq<World>, ops: seq<Op>, i: nat, k: nat)
    requires Run(states, ops) && i <= k < |states|
    requires forall j :: i <= j <= k ==> !states[j].gate.fenced
    ensures states[i].gate.epoch == states[k].gate.epoch
    decreases k
  {
    if i < k {
      EpochStep(HOME, states[k - 1].gate, ops[k - 1]);
      OpenThroughout(states, ops, i, k - 1);
    }
  }

  ghost predicate Uses(op: Op, permit: Permit)
  {
    op == Commit(permit) || op == Reserve(permit)
  }

  /** A permit works exactly while the gate has stayed open since the permit was taken: a permit taken
      before a fence, or while fenced, is refused ever after, whatever is reopened in between. */
  lemma PermitLifetime(states: seq<World>, ops: seq<Op>, i: nat, k: nat, permit: Permit)
    requires Run(states, ops) && i < k < |ops|
    requires ops[i] == Issue && OutcomeOf(states[i], ops[i]) == Issued(permit) && Uses(ops[k], permit)
    ensures Validate(states[k].gate, permit).None? <==> forall j :: i <= j <= k ==> !states[j].gate.fenced
    ensures OutcomeOf(states[k], ops[k]).Passed? || OutcomeOf(states[k], ops[k]).Reserved? ==>
              forall j :: i <= j <= k ==> !states[j].gate.fenced
  {
    EpochsGrow(states, ops, i, k);
    if forall j :: i <= j <= k ==> !states[j].gate.fenced {
      OpenThroughout(states, ops, i, k);
    } else {
      var j :| i <= j <= k && states[j].gate.fenced;
    }
  }

  /** A fence guards its publication and its reopening: they happen only with no live reservation, in the
      fence's own epoch, and each epoch is reopened at most once however often its fence was cloned. */
  lemma FencedPublication(states: seq<World>, ops: seq<Op>, k: nat)
    requires Run(states, ops) && k < |ops| && (ops[k].Settled? || ops[k].Reopen?)
    requires OutcomeOf(states[k], ops[k]) == Passed
    ensures states[k].live == {} && states[k].gate.fenced && states[k].gate.epoch == ops[k].fence.epoch
    ensures ops[k].Reopen? ==> ops[k].fence.epoch !in states[k].reopened && !states[k + 1].gate.fenced
  {
    RunInv(states, ops, k);
  }

  lemma ReopenedOnce(states: seq<World>, ops: seq<Op>, i: nat, k: nat)
    requires Run(states, ops) && i < k < |ops| && ops[i].Reopen? && ops[k].Reopen?
    requires OutcomeOf(states[i], ops[i]) == Passed && OutcomeOf(states[k], ops[k]) == Passed
    ensures ops[i].fence.epoch < ops[k].fence.epoch
  {
    FencedPublication(states, ops, i);
    FencedPublication(states, ops, k);
    EpochsGrow(states, ops, i + 1, k);
  }

  /** While a fence stands the reservations only drain. */
  lemma {:induction false} FenceDrains(states: seq<World>, ops: seq<Op>, i: nat, k: nat)
    requires Run(states, ops) && i <= k < |states|
    requires forall j :: i <= j <= k ==> states[j].gate.fenced
    ensures states[k].live <= states[i].live && states[k].gate.epoch == states[i].gate.epoch
    decreases k
  {
    if i < k {
      EpochStep(HOME, states[k - 1].gate, ops[k - 1]);
      FenceDrains(states, ops, i, k - 1);
    }
  }

  // What every call answers, in terms of the history of the gate

  ghost predicate OpenFrom(states: seq<World>, i: nat, k: nat)
    requires k < |states|
  {
    forall j :: i <= j <= k ==> !states[j].gate.fenced
  }

  ghost predicate FencedFrom(states: seq<World>, i: nat, k: nat)
    requires k < |states|
  {
    forall j :: i <= j <= k ==> states[j].gate.fenced
  }

  /** How often the gate went from open to fenced before `k`. */
  ghost function Closings(states: seq<World>, k: nat): (n: nat)
    requires k < |states|
  {
    if k == 0 then 0
    else Closings(states, k - 1) + if !states[k - 1].gate.fenced && states[k].gate.fenced then 1 else 0
  }

  lemma {:induction false} EpochCountsClosings(states: seq<World>, ops: seq<Op>, k: nat)
    requires Run(states, ops) && k < |states|
    ensures states[k].gate.epoch == 1 + Closings(states, k)
  {
    if k > 0 {
      EpochStep(HOME, states[k - 1].gate, ops[k - 1]);
      EpochCountsClosings(states, ops, k - 1);
    }
  }

  /** A commit passes if and only if the gate has been open at every moment since its permit was issued. */
  lemma CommitAnswer(states: seq<World>, ops: seq<Op>, i: nat, k: nat, permit: Permit)
    requires Run(states, ops) && i < k < |ops|
    requires ops[i] == Issue && OutcomeOf(states[i], ops[i]) == Issued(permit) && ops[k] == Commit(permit)
    ensures OutcomeOf(states[k], ops[k]) ==
            if OpenFrom(states, i, k) then Passed
            else if states[k].gate.fenced then Refused(Fenced) else Refused(Stale)
  {
    PermitLifetime(states, ops, i, k, permit);
  }

  /** A reservation is granted if and only if the same holds and the counter has room. */
  lemma ReserveAnswer(states: seq<World>, ops: seq<Op>, i: nat, k: nat, permit: Permit)
    requires Run(states, ops) && i < k < |ops|
    requires ops[i] == Issue && OutcomeOf(states[i], ops[i]) == Issued(permit) && ops[k] == Reserve(permit)
    ensures OutcomeOf(states[k], ops[k]) ==
            if OpenFrom(states, i, k) then
              (if |states[k].live| < 0xFFFF_FFFF_FFFF_FFFF then Reserved else Refused(Unavailable))
            else if states[k].gate.fenced then Refused(Fenced) else Refused(Stale)
  {
    RunInv(states, ops, k);
    PermitLifetime(states, ops, i, k, permit);
  }

  /** The calls that bring no token: entry, permits, reservations under a decision, fencing and settled closing. */
  lemma PlainAnswer(states: seq<World>, ops: seq<Op>, k: nat)
    requires Run(states, ops) && k < |ops|
    ensures var w, o := states[k], OutcomeOf(states[k], ops[k]);
            match ops[k]
            case Issue => o.Issued?
            case Admit => o == if w.gate.fenced then Refused(Fenced) else Passed
            case ReserveWith(admitted) =>
              o == if w.gate.fenced then Refused(Fenced)
                   else if |w.live| >= 0xFFFF_FFFF_FFFF_FFFF then Refused(Unavailable)
                   else if admitted then Reserved else Declined
            case RaiseFence =>
              if w.gate.fenced || 1 + Closings(states, k) < 0xFFFF_FFFF_FFFF_FFFF then o.Raised?
              else o == Refused(Unavailable)
            case Close(publish) =>
              if w.gate.fenced then o == Refused(Fenced)
              else if w.live != {} then o == Refused(Unsettled)
              else if 1 + Closings(states, k) >= 0xFFFF_FFFF_FFFF_FFFF then o == Refused(Unavailable)
              else if publish then o.Raised? else o == Declined
            case Release(_) => o == Passed
            case _ => true
  {
    RunInv(states, ops, k);
    EpochCountsClosings(states, ops, k);
  }

  /** What a fence allows depends on it still being the one that stands, and on the reservations having drained. */
  ghost function Standing(states: seq<World>, i: nat, k: nat, granted: Outcome): (o: Outcome)
    requires k < |states|
  {
    if !FencedFrom(states, i + 1, k) then Refused(Stale)
    else if states[k].live != {} then Refused(Unsettled)
    else granted
  }

  /** A fence raised at `i` stands at `k` if and only if the gate has been fenced at every moment since. */
  lemma FenceLifetime(states: seq<World>, ops: seq<Op>, i: nat, k: nat, fence: Fence)
    requires Run(states, ops) && i < k < |states|
    requires OutcomeOf(states[i], ops[i]) == Raised(fence)
    ensures states[k].gate.fenced && states[k].gate.epoch == fence.epoch <==> FencedFrom(states, i + 1, k)
    ensures fence.gate == HOME
  {
    assert states[i + 1].gate.fenced && states[i + 1].gate.epoch == fence.epoch;
    if FencedFrom(states, i + 1, k) {
      FenceDrains(states, ops, i + 1, k);
    } else {
      var j :| i + 1 <= j <= k && !states[j].gate.fenced;
      EpochsGrow(states, ops, i + 1, j);
      EpochsGrow(states, ops, j, k);
    }
  }

  /** Publishing under a fence and reopening after it: exactly when nothing reopened the gate since the fence was raised
      and no reservation is live. */
  lemma FenceAnswer(states: seq<World>, ops: seq<Op>, i: nat, k: nat, fence: Fence)
    requires Run(states, ops) && i < k < |ops|
    requires OutcomeOf(states[i], ops[i]) == Raised(fence)
    ensures var o := OutcomeOf(states[k], ops[k]);
            match ops[k]
            case Settled(f, gate) =>
              f == fence ==> o == if gate == HOME then Standing(states, i, k, Passed) else Refused(Stale)
            case Reopen(_, f, proceed) =>
              f == fence ==> o == Standing(states, i, k, if proceed then Passed else Declined)
            case _ => true
  {
    RunInv(states, ops, k);
    FenceLifetime(states, ops, i, k, fence);
  }

  /** The gate is fenced by the calls that raise a fence, and opened again only by a reopening that passes. */
  lemma FencedMoves(states: seq<World>, ops: seq<Op>, k: nat)
    requires Run(states, ops) && k < |ops|
    ensures var o := OutcomeOf(states[k], ops[k]);
            states[k + 1].gate.fenced <==> o.Raised? || (states[k].gate.fenced && !(ops[k].Reopen? && o == Passed))
    ensures !states[0].gate.fenced
  {
  }
}
