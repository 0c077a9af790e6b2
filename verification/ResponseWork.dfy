/** The response-work tracker of one request: its revision counter and its completion waker. */
module ResponseWork {
  import opened Common

  datatype Error = ForeignRevision | StaleRevision | RevisionUnavailable | CompletionAlreadyRegistered

  /** What a snapshot reports besides its revision. */
  datatype Facts = Facts(generation: Option<nat>, written: bool, capabilities: nat)

  datatype Revision = Revision(owner: nat, serial: nat)

  datatype Snapshot = Snapshot(revision: Revision, facts: Facts)

  datatype Work = Work(owner: nat, revision: Option<nat>, facts: Facts, registered: bool, waker: Option<nat>)

  function Fresh(owner: nat, capabilities: nat, generation: Option<nat>): (s: Work)
  {
    Work(owner, Some(0), Facts(generation, false, capabilities), false, None)
  }

  predicate Complete(s: Work)
  {
    s.facts.written || s.facts.capabilities == 0
  }

  /** `changed`: a counter that cannot be raised is lost for good. */
  function Changed(s: Work, facts: Facts): (s': Work)
  {
    s.(facts := facts, revision := if s.revision.Some? then CheckedNext(s.revision.value) else None)
  }

  /** `take_completion_waker` */
  function TakeWaker(s: Work): (r: (Work, Option<nat>))
  {
    if Complete(s) then (s.(waker := None), s.waker) else (s, None)
  }

  function Register(s: Work, waker: nat): (r: (Work, Result<Option<nat>, Error>))
  {
    if s.registered then (s, Err(CompletionAlreadyRegistered))
    else
      var (t, wake) := TakeWaker(s.(registered := true, waker := Some(waker)));
      (t, Ok(wake))
  }

  function Bind(s: Work, generation: nat, succeeds: bool): (s': Work)
  {
    if succeeds then Changed(s, s.facts.(generation := Some(generation))) else s
  }

  function Record(s: Work, written: bool): (r: (Work, Option<nat>))
  {
    TakeWaker(if s.facts.written != written then Changed(s, s.facts.(written := written)) else s)
  }

  function ReleaseOne(s: Work): (r: (Work, Option<nat>))
  {
    TakeWaker(if s.facts.capabilities > 0 then Changed(s, s.facts.(capabilities := s.facts.capabilities - 1))
              else s.(revision := None))
  }

  function Look(s: Work): (r: Result<Snapshot, Error>)
  {
    if s.revision.None? then Err(RevisionUnavailable)
    else Ok(Snapshot(Revision(s.owner, s.revision.value), s.facts))
  }

  function Validate(s: Work, revision: Revision): (r: Result<Done, Error>)
  {
    if s.owner != revision.owner then Err(ForeignRevision)
    else if s.revision.None? then Err(RevisionUnavailable)
    else if s.revision.value != revision.serial then Err(StaleRevision)
    else Ok(Done)
  }

  // The tracker in place

  class ResponseWorkTracker {
    const owner: nat
    var revision: Option<nat>
    var generation: Option<nat>
    var written: bool
    var capabilities: nat
    var registered: bool
    var waker: Option<nat>

    ghost function Value(): (s: Work)
      reads this
    {
      Work(owner, revision, Facts(generation, written, capabilities), registered, waker)
    }

    constructor (owner: nat, capabilities: nat, generation: Option<nat>)
      ensures Value() == Fresh(owner, capabilities, generation)
    {
      this.owner := owner;
      revision, this.generation, written, this.capabilities := Some(0), generation, false, capabilities;
      registered, waker := false, None;
    }

    method BumpRevision()
      modifies this`revision
      ensures Value() == Changed(old(Value()), old(Value()).facts)
    {
      if revision.Some? {
        revision := CheckedNext(revision.value);
      }
    }

    method TakeCompletionWaker() returns (wake: Option<nat>)
      modifies this`waker
      ensures (Value(), wake) == TakeWaker(old(Value()))
    {
      if written || capabilities == 0 {
        wake := waker;
        waker := None;
      } else {
        wake := None;
      }
    }

    method RegisterCompletionWaker(completion: nat) returns (r: Result<Option<nat>, Error>)
      modifies this`registered, this`waker
      ensures (Value(), r) == Register(old(Value()), completion)
    {
      if registered {
        return Err(CompletionAlreadyRegistered);
      }
      registered, waker := true, Some(completion);
      var wake := TakeCompletionWaker();
      return Ok(wake);
    }

    method BindSession(session: nat, succeeds: bool) returns (ok: bool)
      modifies this`generation, this`revision
      ensures ok == succeeds && Value() == Bind(old(Value()), session, succeeds)
    {
      if !succeeds {
        return false;
      }
      generation := Some(session);
      BumpRevision();
      return true;
    }

    method RecordResponse(value: bool) returns (wake: Option<nat>)
      modifies this`written, this`revision, this`waker
      ensures (Value(), wake) == Record(old(Value()), value)
    {
      if written != value {
        written := value;
        BumpRevision();
      }
      wake := TakeCompletionWaker();
    }

    method ReleaseCapability() returns (wake: Option<nat>)
      modifies this`capabilities, this`revision, this`waker
      ensures (Value(), wake) == ReleaseOne(old(Value()))
    {
      if capabilities > 0 {
        capabilities := capabilities - 1;
        BumpRevision();
      } else {
        revision := None;
      }
      wake := TakeCompletionWaker();
    }
  }

  // Runs

  /** `taken` are the wakers taken out of the tracker, in order, and the first `woken` of them have been called. */
  datatype World = World(work: Work, taken: seq<nat>, woken: nat)

  datatype Op =
    | RegisterOp(waker: nat)
    | BindOp(generation: nat, succeeds: bool)
    | RecordOp(written: bool)
    | ReleaseOp
    | WakeOp

  predicate Enabled(w: World, op: Op)
  {
    op.WakeOp? ==> w.woken < |w.taken|
  }

  function Take(w: World, r: (Work, Option<nat>)): (w': World)
  {
    w.(work := r.0, taken := if r.1.Some? then w.taken + [r.1.value] else w.taken)
  }

  function Next(w: World, op: Op): (w': World)
    requires Enabled(w, op)
  {
    match op
    case RegisterOp(waker) =>
      var (s, r) := Register(w.work, waker);
      if r.Ok? then Take(w, (s, r.value)) else w
    case BindOp(generation, succeeds) => w.(work := Bind(w.work, generation, succeeds))
    case RecordOp(written) => Take(w, Record(w.work, written))
    case ReleaseOp => Take(w, ReleaseOne(w.work))
    case WakeOp => w.(woken := w.woken + 1)
  }

  ghost predicate Run(ws: seq<World>, ops: seq<Op>)
  {
    && |ws| == |ops| + 1 && ws[0].taken == [] && ws[0].woken == 0
    && ws[0].work == Fresh(ws[0].work.owner, ws[0].work.facts.capabilities, ws[0].work.facts.generation)
    && (forall i {:trigger ops[i]} :: 0 <= i < |ops| ==> Enabled(ws[i], ops[i]) && ws[i + 1] == Next(ws[i], ops[i]))
  }

  /** A step keeps the revision and the facts, raises the revision by one, or loses it for good. */
  lemma StepRevision(w: World, op: Op)
    requires Enabled(w, op)
    ensures var s, t := w.work, Next(w, op).work;
            && t.owner == s.owner
            && (t.revision.Some? ==> s.revision.Some?)
            && (t.revision.Some? ==> t.revision.value == s.revision.value + 1 ||
                                     (t.revision == s.revision && t.facts == s.facts))
  {
  }

  /** Revisions never fall, and an available one was available before. */
  lemma {:induction false} RevisionsRise(ws: seq<World>, ops: seq<Op>, i: nat, j: nat)
    requires Run(ws, ops) && i <= j < |ws| && ws[j].work.revision.Some?
    ensures ws[i].work.revision.Some? && ws[i].work.revision.value <= ws[j].work.revision.value
    ensures ws[i].work.owner == ws[j].work.owner
    ensures ws[i].work.revision == ws[j].work.revision ==> ws[i].work.facts == ws[j].work.facts
  {
    if i < j {
      StepRevision(ws[j - 1], ops[j - 1]);
      RevisionsRise(ws, ops, i, j - 1);
    }
  }

  /** Two snapshots of one tracker with equal revisions are equal, whatever happened between them. */
  lemma EqualRevisionsEqualFacts(ws: seq<World>, ops: seq<Op>, i: nat, j: nat)
    requires Run(ws, ops) && i < |ws| && j < |ws| && Look(ws[i].work).Ok? && Look(ws[j].work).Ok?
    requires Look(ws[i].work).value.revision == Look(ws[j].work).value.revision
    ensures Look(ws[i].work) == Look(ws[j].work)
  {
    if i <= j {
      RevisionsRise(ws, ops, i, j);
    } else {
      RevisionsRise(ws, ops, j, i);
    }
  }

  /** A revision still validates exactly while every snapshot since has been the same. */
  lemma {:induction false} ValidIffUnchanged(ws: seq<World>, ops: seq<Op>, i: nat, j: nat)
    requires Run(ws, ops) && i <= j < |ws| && Look(ws[i].work).Ok?
    ensures Validate(ws[j].work, Look(ws[i].work).value.revision).Ok? <==>
              forall k :: i <= k <= j ==> Look(ws[k].work) == Look(ws[i].work)
  {
    Owners(ws, ops, i, j);
    if Validate(ws[j].work, Look(ws[i].work).value.revision).Ok? {
      forall k | i <= k <= j
        ensures Look(ws[k].work) == Look(ws[i].work)
      {
        RevisionsRise(ws, ops, i, k) by {
          RevisionsRise(ws, ops, k, j);
        }
        RevisionsRise(ws, ops, k, j);
      }
    } else {
      assert Look(ws[j].work) != Look(ws[i].work);
    }
  }

  lemma {:induction false} Owners(ws: seq<World>, ops: seq<Op>, i: nat, j: nat)
    requires Run(ws, ops) && i <= j < |ws|
    ensures ws[i].work.owner == ws[j].work.owner
  {
    if i < j {
      Owners(ws, ops, i, j - 1);
      StepRevision(ws[j - 1], ops[j - 1]);
    }
  }

  // The completion waker

  /** A waker in the tracker is waiting for completion. */
  predicate Waits(w: World, waker: Option<nat>)
  {
    && (w.work.registered <==> waker.Some?)
    && w.work.waker == (if w.taken == [] then waker else None)
    && (w.taken == [] || (waker.Some? && w.taken == [waker.value]))
    && w.woken <= |w.taken|
    && (w.work.registered && Complete(w.work) ==> w.work.waker.None?)
  }

  /** The waker of the first registration among the steps. */
  function Registered(ops: seq<Op>): (waker: Option<nat>)
  {
    if ops == [] then None
    else if ops[0].RegisterOp? then Some(ops[0].waker)
    else Registered(ops[1..])
  }

  lemma {:induction false} RegisteredMore(ops: seq<Op>, op: Op)
    ensures Registered(ops + [op]) ==
              if Registered(ops).Some? then Registered(ops) else if op.RegisterOp? then Some(op.waker) else None
  {
    if ops == [] {
      assert ops + [op] == [op];
    } else {
      RegisteredMore(ops[1..], op);
      assert (ops + [op])[1..] == ops[1..] + [op];
    }
  }

  lemma WaitsKept(w: World, op: Op, waker: Option<nat>)
    requires Waits(w, waker) && Enabled(w, op)
    ensures Waits(Next(w, op), if waker.Some? then waker else if op.RegisterOp? then Some(op.waker) else None)
    ensures Next(w, op).taken == [] <==>
              w.taken == [] && !(Next(w, op).work.registered && Complete(Next(w, op).work))
  {
  }

  lemma {:induction false} RunWaits(ws: seq<World>, ops: seq<Op>, i: nat)
    requires Run(ws, ops) && i < |ws|
    ensures Waits(ws[i], Registered(ops[..i]))
    ensures ws[i].taken == [] <==>
              forall k :: 0 <= k <= i ==> !(ws[k].work.registered && Complete(ws[k].work))
  {
    if i > 0 {
      RunWaits(ws, ops, i - 1);
      RegisteredMore(ops[..i - 1], ops[i - 1]);
      assert ops[..i] == ops[..i - 1] + [ops[i - 1]];
      WaitsKept(ws[i - 1], ops[i - 1], Registered(ops[..i - 1]));
    }
  }

  /** Only the first waker registered is ever woken, at most once; it is taken out to be woken if and only if some
      state at or after its registration was complete. */
  lemma WokenOnceIffComplete(ws: seq<World>, ops: seq<Op>, i: nat)
    requires Run(ws, ops) && i < |ws|
    ensures ws[i].woken <= |ws[i].taken| <= 1
    ensures forall waker :: waker in ws[i].taken <==>
              Registered(ops[..i]) == Some(waker) &&
              exists k :: 0 <= k <= i && ws[k].work.registered && Complete(ws[k].work)
  {
    RunWaits(ws, ops, i);
  }

  // What the facts say of the steps taken

  /** The releases among the first `i` steps. */
  function Releases(ops: seq<Op>, i: nat): (n: nat)
    requires i <= |ops|
  {
    if i == 0 then 0 else Releases(ops, i - 1) + if ops[i - 1].ReleaseOp? then 1 else 0
  }

  /** The value of the last response recorded in the first `i` steps. */
  function LastWritten(ops: seq<Op>, i: nat): (written: bool)
    requires i <= |ops|
  {
    if i == 0 then false else if ops[i - 1].RecordOp? then ops[i - 1].written else LastWritten(ops, i - 1)
  }

  /** The generation of the last bind that succeeded in the first `i` steps. */
  function LastBound(ops: seq<Op>, i: nat, initial: Option<nat>): (generation: Option<nat>)
    requires i <= |ops|
  {
    if i == 0 then initial
    else if ops[i - 1].BindOp? && ops[i - 1].succeeds then Some(ops[i - 1].generation)
    else LastBound(ops, i - 1, initial)
  }

  predicate Reflects(s: Work, start: Facts, ops: seq<Op>, i: nat)
    requires i <= |ops|
  {
    var n := Releases(ops, i);
    && s.facts.written == LastWritten(ops, i) && s.facts.generation == LastBound(ops, i, start.generation)
    && s.facts.capabilities == (if n <= start.capabilities then start.capabilities - n else 0)
    && (n > start.capabilities ==> s.revision.None?)
  }

  lemma ReflectsStep(w: World, start: Facts, ops: seq<Op>, i: nat)
    requires i < |ops| && Reflects(w.work, start, ops, i) && Enabled(w, ops[i])
    ensures Reflects(Next(w, ops[i]).work, start, ops, i + 1)
  {
  }

  /** The facts are the last response, the last generation bound and the capabilities not yet released; one release too
      many costs the revision. */
  lemma {:induction false} FactsExact(ws: seq<World>, ops: seq<Op>, i: nat)
    requires Run(ws, ops) && i < |ws|
    ensures Reflects(ws[i].work, ws[0].work.facts, ops, i)
  {
    if i > 0 {
      FactsExact(ws, ops, i - 1);
      ReflectsStep(ws[i - 1], ws[0].work.facts, ops, i - 1);
    }
  }

  // What every call answers

  /** A waker is accepted if and only if none was registered before, and is handed back at once if the work is complete
      already. */
  lemma RegisterAnswer(ws: seq<World>, ops: seq<Op>, i: nat)
    requires Run(ws, ops) && i < |ops| && ops[i].RegisterOp?
    ensures var s := ws[i].work;
            Register(s, ops[i].waker).1 ==
            if Registered(ops[..i]).Some? then Err(CompletionAlreadyRegistered)
            else Ok(if s.facts.written || s.facts.capabilities == 0 then Some(ops[i].waker) else None)
  {
    RunWaits(ws, ops, i);
  }

  /** The changes of the facts among the first `i` steps: binds that succeed, responses unlike the last, releases. */
  function Changes(ops: seq<Op>, i: nat): (n: nat)
    requires i <= |ops|
  {
    if i == 0 then 0
    else
      Changes(ops, i - 1) +
      match ops[i - 1]
      case BindOp(_, succeeds) => One(succeeds)
      case RecordOp(written) => One(written != LastWritten(ops, i - 1))
      case ReleaseOp => 1
      case _ => 0
  }

  lemma ChangeStep(w: World, start: Facts, ops: seq<Op>, i: nat)
    requires i < |ops| && Reflects(w.work, start, ops, i) && Enabled(w, ops[i])
    requires w.work.revision ==
             if Releases(ops, i) <= start.capabilities && Changes(ops, i) <= U64_MAX
             then Some(Changes(ops, i)) else None
    ensures Next(w, ops[i]).work.revision ==
            if Releases(ops, i + 1) <= start.capabilities && Changes(ops, i + 1) <= U64_MAX
            then Some(Changes(ops, i + 1)) else None
  {
  }

  /** The revision counts the changes; it is lost exactly by one release too many or by more changes than it can
      count. */
  lemma {:induction false} RevisionExact(ws: seq<World>, ops: seq<Op>, i: nat)
    requires Run(ws, ops) && i < |ws|
    ensures ws[i].work.revision ==
            if Releases(ops, i) <= ws[0].work.facts.capabilities && Changes(ops, i) <= 0xFFFF_FFFF_FFFF_FFFF
            then Some(Changes(ops, i)) else None
  {
    if i > 0 {
      RevisionExact(ws, ops, i - 1);
      FactsExact(ws, ops, i - 1);
      ChangeStep(ws[i - 1], ws[0].work.facts, ops, i - 1);
    }
  }

  /** Which revisions validate, and why the others do not. */
  lemma ValidateAnswer(ws: seq<World>, ops: seq<Op>, i: nat, revision: Revision)
    requires Run(ws, ops) && i < |ws|
    ensures Validate(ws[i].work, revision) ==
            if revision.owner != ws[0].work.owner then Err(ForeignRevision)
            else if Releases(ops, i) > ws[0].work.facts.capabilities || Changes(ops, i) > 0xFFFF_FFFF_FFFF_FFFF
            then Err(RevisionUnavailable)
            else if revision.serial != Changes(ops, i) then Err(StaleRevision)
            else Ok(Done)
  {
    Owners(ws, ops, 0, i);
    RevisionExact(ws, ops, i);
  }
}
