/** Lifetime of the runtime-admission service: one worker at a time, retirement, and validation cleanups. */
module AdmissionLifetime {
  import opened Common

  /** `held` are the identities of the cleanups that still hold a selection lease. */
  datatype Life = Life(retired: bool, active: Option<nat>, cleanup: Option<nat>, held: set<nat>, next: nat)

  /** An unsettled cleanup blocks entry; a settled one is forgotten, even when entry is then refused. */
  function Enter(s: Life, worker: nat, cancelled: bool): (r: (Life, bool))
  {
    if s.cleanup.Some? && s.cleanup.value in s.held then (s, false)
    else
      var t := s.(cleanup := None);
      if t.retired || t.active.Some? || cancelled then (t, false) else (t.(active := Some(worker)), true)
  }

  /** The custody branch of `finish_validation`. */
  function Keep(s: Life): (s': Life)
  {
    s.(cleanup := Some(s.next), held := s.held + {s.next}, next := s.next + 1)
  }

  function Leave(s: Life): (s': Life)
  {
    s.(active := None)
  }

  function Dispose(s: Life, id: nat, succeeds: bool): (s': Life)
  {
    if succeeds then s.(held := s.held - {id}) else s
  }

  /** Only the cleanup on record may hold a lease. */
  predicate Recorded(s: Life, id: nat)
  {
    id in s.held ==> s.cleanup == Some(id) && id < s.next
  }

  // The lifetime in place

  class Lifetime {
    var retired: bool
    var active: Option<nat>
    var cleanup: Option<nat>
    var held: set<nat>
    var next: nat

    ghost function Value(): (s: Life)
      reads this
    {
      Life(retired, active, cleanup, held, next)
    }

    ghost predicate Valid()
      reads this
    {
      forall id :: id in held ==> cleanup == Some(id) && id < next
    }

    constructor ()
      ensures Valid() && Value() == Life(false, None, None, {}, 0)
    {
      retired, active, cleanup, held, next := false, None, None, {}, 0;
    }

    /** `contended` is a lock that could not be taken at once. */
    method EnterWorker(worker: nat, cancelled: bool, contended: bool) returns (entered: bool)
      requires Valid()
      modifies this`cleanup, this`active
      ensures Valid()
      ensures (Value(), entered) == if contended then (old(Value()), false) else Enter(old(Value()), worker, cancelled)
    {
      if contended {
        return false;
      }
      if cleanup.Some? {
        if cleanup.value in held {
          return false;
        }
        cleanup := None;
      }
      if retired || active.Some? || cancelled {
        return false;
      }
      active := Some(worker);
      return true;
    }

    method FinishValidation(custody: bool)
      modifies this`cleanup, this`held, this`next
      ensures Value() == if custody then Keep(old(Value())) else old(Value())
      ensures old(Valid()) && (custody ==> old(cleanup).None?) ==> Valid()
    {
      if custody {
        cleanup := Some(next);
        held := held + {next};
        next := next + 1;
      }
    }

    method DropWorker()
      requires Valid()
      modifies this`active
      ensures Valid() && Value() == Leave(old(Value()))
    {
      active := None;
    }

    method DisposeCleanup(id: nat, succeeds: bool) returns (ok: bool)
      requires Valid()
      modifies this`held
      ensures Valid() && ok == succeeds && Value() == Dispose(old(Value()), id, succeeds)
    {
      if !succeeds {
        return false;
      }
      held := held - {id};
      return true;
    }

    /** While it waits, the worker may still leave a cleanup behind before it ends; a worker entered without one on
        record. */
    method Retire(custody: bool, succeeds: bool) returns (ok: bool)
      requires Valid() && (active.Some? && custody ==> cleanup.None?)
      modifies this
      ensures Valid() && retired && active.None?
      ensures ok ==> held == {}
      ensures !ok ==> !succeeds && cleanup.Some?
    {
      retired := true;
      while active.Some?
        invariant Valid() && retired && (active.Some? && custody ==> cleanup.None?)
        decreases active.Some?
      {
        FinishValidation(custody);
        DropWorker();
      }
      if cleanup.None? {
        return true;
      }
      ok := DisposeCleanup(cleanup.value, succeeds);
    }
  }

  // Runs

  datatype WorkerStep = Validating | Ending

  datatype RetireStep = Waiting | Disposing(cleanup: Option<nat>) | Returned(ok: bool)

  datatype World = World(life: Life, workers: map<nat, WorkerStep>, retires: map<nat, RetireStep>)

  datatype Op =
    | EnterOp(worker: nat, cancelled: bool, contended: bool)
    | CustodyOp(worker: nat)
    | StopOp(worker: nat)
    | DropOp(worker: nat)
    | DisposeOp(id: nat, succeeds: bool)
    | RetireOp(call: nat)
    | WakeOp(call: nat)
    | ReturnOp(call: nat, succeeds: bool)

  /** A worker that leaves a cleanup behind returns with that error, so it validates no further. */
  predicate Enabled(w: World, op: Op)
  {
    match op
    case EnterOp(k, _, _) => k !in w.workers
    case CustodyOp(k) => k in w.workers && w.workers[k] == Validating
    case StopOp(k) => k in w.workers && w.workers[k] == Validating
    case DropOp(k) => k in w.workers && w.workers[k] == Ending
    case DisposeOp(_, _) => true
    case RetireOp(c) => c !in w.retires
    case WakeOp(c) => c in w.retires && w.retires[c] == Waiting && w.life.active.None?
    case ReturnOp(c, _) => c in w.retires && w.retires[c].Disposing?
  }

  function Next(w: World, op: Op): (w': World)
    requires Enabled(w, op)
  {
    match op
    case EnterOp(k, cancelled, contended) =>
      if contended then w
      else
        var (s, entered) := Enter(w.life, k, cancelled);
        w.(life := s, workers := if entered then w.workers[k := Validating] else w.workers)
    case CustodyOp(k) => w.(life := Keep(w.life), workers := w.workers[k := Ending])
    case StopOp(k) => w.(workers := w.workers[k := Ending])
    case DropOp(k) => w.(life := Leave(w.life), workers := w.workers - {k})
    case DisposeOp(id, succeeds) => w.(life := Dispose(w.life, id, succeeds))
    case RetireOp(c) => w.(life := w.life.(retired := true), retires := w.retires[c := Waiting])
    case WakeOp(c) => w.(retires := w.retires[c := Disposing(w.life.cleanup)])
    case ReturnOp(c, succeeds) =>
      if w.retires[c].cleanup.None? then w.(retires := w.retires[c := Returned(true)])
      else
        w.(life := Dispose(w.life, w.retires[c].cleanup.value, succeeds), retires := w.retires[c := Returned(succeeds)])
  }

  predicate Works(w: World, k: nat)
  {
    && (k in w.workers <==> w.life.active == Some(k))
    && (k in w.workers && w.workers[k] == Validating ==> w.life.cleanup.None?)
  }

  predicate Retires(w: World, c: nat, id: nat)
  {
    c in w.retires ==>
      && w.life.retired
      && (w.retires[c] != Waiting ==> w.life.active.None?)
      && (w.retires[c].Disposing? && id in w.life.held ==> w.retires[c].cleanup == Some(id))
      && (w.retires[c] == Returned(true) ==> id !in w.life.held)
  }

  ghost predicate Inv(w: World)
  {
    && (forall id: nat :: Recorded(w.life, id)) && (forall k: nat :: Works(w, k))
    && (forall c: nat, id: nat :: Retires(w, c, id))
  }

  /** The active worker when a step is taken by a worker. */
  predicate Stepping(w: World, op: Op)
  {
    match op
    case CustodyOp(k) => Works(w, k)
    case DropOp(k) => Works(w, k)
    case _ => true
  }

  lemma RecordedKept(w: World, op: Op, id: nat)
    requires Enabled(w, op) && Stepping(w, op) && Recorded(w.life, id)
    ensures Recorded(Next(w, op).life, id)
  {
  }

  lemma WorksKept(w: World, op: Op, k: nat)
    requires Enabled(w, op) && Stepping(w, op) && Works(w, k)
    ensures Works(Next(w, op), k)
  {
  }

  lemma RetiresKept(w: World, op: Op, c: nat, id: nat)
    requires Enabled(w, op) && Stepping(w, op) && Recorded(w.life, id) && Retires(w, c, id)
    ensures Retires(Next(w, op), c, id)
  {
  }

  lemma InvKept(w: World, op: Op)
    requires Inv(w) && Enabled(w, op)
    ensures Inv(Next(w, op))
  {
    assert Stepping(w, op);
    forall id: nat
      ensures Recorded(Next(w, op).life, id)
    {
      RecordedKept(w, op, id);
    }
    forall k: nat
      ensures Works(Next(w, op), k)
    {
      WorksKept(w, op, k);
    }
    forall c: nat, id: nat
      ensures Retires(Next(w, op), c, id)
    {
      RetiresKept(w, op, c, id);
    }
  }

  const START := World(Life(false, None, None, {}, 0), map[], map[])

  ghost predicate Run(ws: seq<World>, ops: seq<Op>)
  {
    && |ws| == |ops| + 1 && ws[0] == START
    && (forall i :: 0 <= i < |ops| ==> Enabled(ws[i], ops[i]) && ws[i + 1] == Next(ws[i], ops[i]))
  }

  lemma {:induction false} RunInv(ws: seq<World>, ops: seq<Op>, i: nat)
    requires Run(ws, ops) && i < |ws|
    ensures Inv(ws[i])
  {
    if i > 0 {
      RunInv(ws, ops, i - 1);
      InvKept(ws[i - 1], ops[i - 1]);
    }
  }

  /** There is at most one worker, and it is the one on record as active. */
  lemma OneWorker(ws: seq<World>, ops: seq<Op>, i: nat, k: nat, m: nat)
    requires Run(ws, ops) && i < |ws| && k in ws[i].workers
    ensures ws[i].life.active == Some(k) && (m in ws[i].workers ==> m == k)
  {
    RunInv(ws, ops, i);
    assert Works(ws[i], k) && Works(ws[i], m);
  }

  /** Once retirement starts, every worker still there was there already. */
  lemma {:induction false} NoneEntersRetired(ws: seq<World>, ops: seq<Op>, i: nat, j: nat, k: nat)
    requires Run(ws, ops) && i <= j < |ws| && ws[i].life.retired
    ensures ws[j].life.retired && (k in ws[j].workers ==> k in ws[i].workers)
  {
    if j > i {
      NoneEntersRetired(ws, ops, i, j - 1, k);
    }
  }

  /** An unsettled cleanup is the one on record until it is disposed of, and nobody enters meanwhile. */
  lemma {:induction false} UnsettledStays(ws: seq<World>, ops: seq<Op>, i: nat, j: nat, id: nat, k: nat)
    requires Run(ws, ops) && i <= j < |ws| && id in ws[i].life.held && id in ws[j].life.held
    ensures ws[j].life.cleanup == Some(id) && ws[j].life.held == {id}
    ensures k in ws[j].workers ==> k in ws[i].workers
  {
    RunInv(ws, ops, j);
    assert Recorded(ws[j].life, id);
    assert forall other: nat :: other in ws[j].life.held ==> Recorded(ws[j].life, other);
    if j > i {
      HeldBefore(ws, ops, i, j - 1, j, id);
      UnsettledStays(ws, ops, i, j - 1, id, k);
    }
  }

  /** A disposed cleanup never gets its lease back. */
  lemma {:induction false} HeldBefore(ws: seq<World>, ops: seq<Op>, i: nat, m: nat, j: nat, id: nat)
    requires Run(ws, ops) && i <= m <= j < |ws| && id in ws[i].life.held && id in ws[j].life.held
    ensures id in ws[m].life.held
    decreases j
  {
    if m < j {
      RunInv(ws, ops, i);
      assert Recorded(ws[i].life, id);
      NextGrows(ws, ops, i, j - 1);
      assert id in ws[j - 1].life.held;
      HeldBefore(ws, ops, i, m, j - 1, id);
    }
  }

  lemma {:induction false} NextGrows(ws: seq<World>, ops: seq<Op>, i: nat, j: nat)
    requires Run(ws, ops) && i <= j < |ws|
    ensures ws[i].life.next <= ws[j].life.next
  {
    if i < j {
      NextGrows(ws, ops, i, j - 1);
    }
  }

  /** After a retirement has returned success no worker is live and no cleanup holds a lease, for good. */
  lemma {:induction false} RetiredForGood(ws: seq<World>, ops: seq<Op>, i: nat, j: nat, c: nat)
    requires Run(ws, ops) && i <= j < |ws| && c in ws[i].retires && ws[i].retires[c] == Returned(true)
    ensures c in ws[j].retires && ws[j].retires[c] == Returned(true)
    ensures ws[j].life.retired && ws[j].life.active.None? && ws[j].life.held == {} && ws[j].workers == map[]
  {
    if j > i {
      RetiredForGood(ws, ops, i, j - 1, c);
    }
    RunInv(ws, ops, j);
    assert Retires(ws[j], c, 0);
    assert forall id: nat :: id in ws[j].life.held ==> Retires(ws[j], c, id);
    assert forall k: nat :: k in ws[j].workers ==> Works(ws[j], k);
  }

  // What every call answers

  lemma {:induction false} RetiredByCall(ws: seq<World>, ops: seq<Op>, i: nat)
    requires Run(ws, ops) && i < |ws|
    ensures ws[i].life.retired <==> ws[i].retires != map[]
  {
    if i > 0 {
      RetiredByCall(ws, ops, i - 1);
      if ops[i - 1].RetireOp? {
        assert ops[i - 1].call in ws[i].retires;
      } else if ws[i - 1].retires != map[] {
        var c :| c in ws[i - 1].retires;
        assert c in ws[i].retires;
      }
    }
  }

  /** A worker enters if and only if nobody contends or cancels, no retirement was ever called, no worker is there and
      every cleanup has been disposed of. */
  lemma EnterAnswer(ws: seq<World>, ops: seq<Op>, i: nat)
    requires Run(ws, ops) && i < |ops| && ops[i].EnterOp?
    ensures ops[i].worker in ws[i + 1].workers <==>
              && !ops[i].contended && !ops[i].cancelled
              && ws[i].retires == map[] && ws[i].workers == map[] && ws[i].life.held == {}
    ensures forall k :: k != ops[i].worker ==> (k in ws[i + 1].workers <==> k in ws[i].workers)
    ensures ws[i + 1].life.held == ws[i].life.held
  {
    var life := ws[i].life;
    RunInv(ws, ops, i);
    RetiredByCall(ws, ops, i);
    if life.active.Some? {
      assert Works(ws[i], life.active.value);
    }
    assert forall k: nat :: k in ws[i].workers ==> Works(ws[i], k);
    assert forall id: nat :: id in life.held ==> Recorded(life, id);
  }

  /** Which cleanups hold a lease after a step: a validation that ends in custody leaves the only one, a disposal that
      succeeds takes its own away, a retirement that succeeds leaves none, and nothing else changes them. */
  lemma HeldAnswer(ws: seq<World>, ops: seq<Op>, i: nat)
    requires Run(ws, ops) && i < |ops|
    ensures ws[i + 1].life.held == match ops[i]
                                   case CustodyOp(_) => {ws[i].life.next}
                                   case DisposeOp(id, true) => ws[i].life.held - {id}
                                   case ReturnOp(_, true) => {}
                                   case _ => ws[i].life.held
  {
    var w := ws[i];
    RunInv(ws, ops, i);
    assert forall id: nat :: id in w.life.held ==> Recorded(w.life, id);
    match ops[i]
    case CustodyOp(k) => assert Works(w, k);
    case ReturnOp(c, _) =>
      assert forall id: nat :: id in w.life.held ==> Retires(w, c, id);
    case _ =>
  }

  /** A retirement waits until no worker is there, and returns success if and only if nothing was left to dispose of
      when it woke, or its disposal succeeds. */
  lemma RetireAnswer(ws: seq<World>, ops: seq<Op>, i: nat, k: nat, c: nat)
    requires Run(ws, ops) && i < k < |ops| && ops[i] == WakeOp(c) && ops[k].ReturnOp? && ops[k].call == c
    ensures ws[i].workers == map[]
    ensures c in ws[k + 1].retires
    ensures ws[k + 1].retires[c] == Returned(ops[k].succeeds || ws[i].life.cleanup.None?)
  {
    RunInv(ws, ops, i);
    assert forall m: nat :: m in ws[i].workers ==> Works(ws[i], m);
    DisposingKept(ws, ops, i + 1, k, c);
  }

  lemma {:induction false} DisposingKept(ws: seq<World>, ops: seq<Op>, i: nat, k: nat, c: nat)
    requires Run(ws, ops) && i <= k < |ws| && c in ws[i].retires && ws[i].retires[c].Disposing?
    ensures c in ws[k].retires && (ws[k].retires[c] == ws[i].retires[c] || ws[k].retires[c].Returned?)
    decreases k
  {
    if i < k {
      DisposingKept(ws, ops, i, k - 1, c);
    }
  }
}
