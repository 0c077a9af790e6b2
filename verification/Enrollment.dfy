/** Custody of runtime-activity enrollments whose commit outcome may stay unknown. */
module Enrollment {
  import opened Common

  datatype Error = Identity | Occupied | Capacity | SubmissionPending | Cancelled | Conflict | Environment

  /** One attempt, known by the identity of its shared entry. */
  datatype Attempt = Attempt(runtime: nat, generation: nat, hasWitness: bool, reconciliation: bool)

  /** `entries` maps a runtime to the identity of its entry; `attempts` holds every entry ever made. */
  datatype Slots = Slots(home: nat, capacity: nat, entries: map<nat, nat>, attempts: map<nat, Attempt>, next: nat)

  datatype Outcome = NotCommitted | Committed | Indeterminate

  /** Reconciliation of an indeterminate command against the natural state. */
  datatype Resolution = Agrees(committed: bool) | Disagrees | Fails

  predicate Owns(s: Slots, e: nat)
  {
    e in s.attempts && s.attempts[e].runtime in s.entries && s.entries[s.attempts[e].runtime] == e
  }

  /** `release`: only the entry's own identity removes it. */
  function Release(s: Slots, e: nat): (s': Slots)
  {
    if Owns(s, e) then s.(entries := s.entries - {s.attempts[e].runtime}) else s
  }

  function Reserve(s: Slots, storeHome: nat, generation: Option<nat>, preparedHome: nat, runtime: nat)
    : (r: (Slots, Result<nat, Error>))
  {
    if storeHome != s.home || preparedHome != s.home || generation.None? then (s, Err(Identity))
    else if runtime in s.entries then (s, Err(Occupied))
    else if |s.entries| == s.capacity then (s, Err(Capacity))
    else
      (s.(entries := s.entries[runtime := s.next],
          attempts := s.attempts[s.next := Attempt(runtime, generation.value, true, false)],
          next := s.next + 1),
       Ok(s.next))
  }

  /** The end of `execute`, under the attempt's lock. */
  function Conclude(s: Slots, e: nat, outcome: Outcome): (s': Slots)
    requires e in s.attempts
  {
    if outcome == Indeterminate then s.(attempts := s.attempts[e := s.attempts[e].(reconciliation := true)])
    else Release(s.(attempts := s.attempts[e := s.attempts[e].(hasWitness := false)]), e)
  }

  /** The identity check that opens `settle_attempt`. */
  predicate Current(s: Slots, e: nat, storeHome: nat, generation: Option<nat>)
  {
    storeHome == s.home && Owns(s, e) && generation == Some(s.attempts[e].generation)
  }

  /** The entry that a turn of `settle_retired_candidate` may go on with. */
  predicate Pickable(s: Slots, r: nat, candidateHome: nat, candidate: nat)
  {
    candidateHome == s.home && r in s.entries && s.entries[r] in s.attempts &&
    s.attempts[s.entries[r]].generation != candidate
  }

  /** The rest of `settle_attempt` and of one turn of `settle_retired_candidate`, under the attempt's lock. */
  function Settle(s: Slots, e: nat, resolution: Resolution): (r: (Slots, Result<bool, Error>))
    requires e in s.attempts
  {
    if !s.attempts[e].reconciliation || !s.attempts[e].hasWitness then (s, Err(SubmissionPending))
    else
      match resolution
      case Fails => (s, Err(Environment))
      case Disagrees => (s, Err(Conflict))
      case Agrees(committed) => (Release(s, e), Ok(committed))
  }

  // The operations in place

  class RuntimeActivityEnrollmentOperations {
    const home: nat
    const capacity: nat
    var entries: map<nat, nat>
    var attempts: map<nat, Attempt>
    var next: nat

    ghost function Value(): (s: Slots)
      reads this
    {
      Slots(home, capacity, entries, attempts, next)
    }

    /** Every entry is the attempt of its own runtime, and identities are fresh. */
    ghost predicate Valid()
      reads this
    {
      && (forall e :: e in attempts ==> e < next)
      && forall r :: r in entries ==> entries[r] in attempts && attempts[entries[r]].runtime == r
    }

    constructor (home: nat, capacity: nat)
      requires capacity > 0
      ensures Valid() && Value() == Slots(home, capacity, map[], map[], 0)
    {
      this.home, this.capacity := home, capacity;
      entries, attempts, next := map[], map[], 0;
    }

    method ReserveFor(storeHome: nat, generation: Option<nat>, preparedHome: nat, runtime: nat)
      returns (r: Result<nat, Error>)
      requires Valid()
      modifies this
      ensures Valid() && (Value(), r) == Reserve(old(Value()), storeHome, generation, preparedHome, runtime)
    {
      if storeHome != home || preparedHome != home || generation.None? {
        return Err(Identity);
      }
      if runtime in entries {
        return Err(Occupied);
      }
      if |entries| == capacity {
        return Err(Capacity);
      }
      var e := next;
      attempts := attempts[e := Attempt(runtime, generation.value, true, false)];
      entries := entries[runtime := e];
      next := next + 1;
      return Ok(e);
    }

    method ReleaseEntry(e: nat)
      requires Valid() && e in attempts
      modifies this`entries
      ensures Valid() && Value() == Release(old(Value()), e)
    {
      var runtime := attempts[e].runtime;
      if runtime in entries && entries[runtime] == e {
        entries := entries - {runtime};
      }
    }

    method Execute(e: nat, outcome: Outcome)
      requires Valid() && e in attempts && attempts[e].hasWitness
      modifies this`entries, this`attempts
      ensures Valid() && Value() == Conclude(old(Value()), e, outcome)
    {
      if outcome == Indeterminate {
        attempts := attempts[e := attempts[e].(reconciliation := true)];
      } else {
        attempts := attempts[e := attempts[e].(hasWitness := false)];
        ReleaseEntry(e);
      }
    }

    method SettleAttempt(e: nat, storeHome: nat, generation: Option<nat>, resolution: Resolution)
      returns (r: Result<bool, Error>)
      requires Valid() && e in attempts
      modifies this`entries
      ensures Valid()
      ensures (Value(), r) == if Current(old(Value()), e, storeHome, generation)
                              then Settle(old(Value()), e, resolution) else (old(Value()), Err(Identity))
    {
      var a := attempts[e];
      if storeHome != home || generation != Some(a.generation) || a.runtime !in entries || entries[a.runtime] != e {
        return Err(Identity);
      }
      if !a.reconciliation || !a.hasWitness {
        return Err(SubmissionPending);
      }
      match resolution
      case Fails => return Err(Environment);
      case Disagrees => return Err(Conflict);
      case Agrees(committed) =>
        ReleaseEntry(e);
        return Ok(committed);
    }

    /** `settle_retired_candidate`: whichever entry each turn picks, nothing is lost between what was settled
        and what remains, and success means that nothing remains. */
    method SettleRetiredCandidate(candidateHome: nat, generation: nat, reliable: bool)
      returns (r: Result<nat, Error>, ghost settled: map<nat, nat>)
      requires Valid()
      modifies this`entries
      ensures Valid() && Divides(old(entries), settled, entries)
      ensures forall k :: k in settled ==> Ripe(attempts, settled[k], generation)
      ensures r.Ok? ==> candidateHome == home && entries == map[] && r.value == |old(entries)|
      ensures r.Err? && candidateHome == home && reliable ==>
                exists k :: && k in entries && !Ripe(attempts, entries[k], generation)
                            && r == Err(if attempts[entries[k]].generation == generation then Identity
                                        else SubmissionPending)
      ensures candidateHome != home ==> r == Err(Identity) && settled == map[]
    {
      settled := map[];
      if candidateHome != home {
        return Err(Identity), map[];
      }
      var count := 0;
      while true
        invariant Valid() && count == |settled| && Divides(old(entries), settled, entries)
        invariant forall k :: k in settled ==> Ripe(attempts, settled[k], generation)
        decreases |entries|
      {
        var cancelled := false;
        if !reliable {
          cancelled := *;
        }
        if cancelled {
          return Err(Cancelled), settled;
        }
        if entries == map[] {
          assert settled == old(entries);
          return Ok(count), settled;
        }
        var runtime :| runtime in entries;
        var e := entries[runtime];
        if !Ripe(attempts, e, generation) {
          return Err(if attempts[e].generation == generation then Identity else SubmissionPending), settled;
        }
        var resolution := Agrees(true);
        if !reliable {
          resolution := *;
        }
        match resolution
        case Fails => return Err(Environment), settled;
        case Disagrees => return Err(Conflict), settled;
        case Agrees(_) =>
          DivideOne(old(entries), settled, entries, runtime);
          settled := settled[runtime := e];
          ReleaseEntry(e);
          count := count + 1;
      }
    }
  }

  /** An entry that a candidate of another generation can settle. */
  predicate Ripe(attempts: map<nat, Attempt>, e: nat, generation: nat)
  {
    e in attempts && attempts[e].generation != generation && attempts[e].reconciliation && attempts[e].hasWitness
  }

  /** `settled` and `rest` split `all` without loss or overlap. */
  ghost predicate Divides(all: map<nat, nat>, settled: map<nat, nat>, rest: map<nat, nat>)
  {
    && (forall k :: k in all ==> k in settled || k in rest)
    && (forall k :: k in settled ==> k in all && settled[k] == all[k] && k !in rest)
    && (forall k :: k in rest ==> k in all && rest[k] == all[k])
  }

  lemma DivideOne(all: map<nat, nat>, settled: map<nat, nat>, rest: map<nat, nat>, k: nat)
    requires Divides(all, settled, rest) && k in rest
    ensures Divides(all, settled[k := rest[k]], rest - {k})
    ensures |settled[k := rest[k]]| == |settled| + 1 && |rest - {k}| == |rest| - 1
  {
    assert k !in settled;
    assert settled[k := rest[k]].Keys == settled.Keys + {k};
    assert (rest - {k}).Keys == rest.Keys - {k};
  }

  // Runs

  /** Where an attempt stands: its reservation unexecuted, its command running, its outcome unknown, or over. */
  datatype Phase = Reserved | Executing | Unknown | Over

  /** `reported` counts the settlements of the attempt that returned success. */
  datatype Status = Status(phase: Phase, reported: nat)

  /** `settling` are the calls between their identity check and their locked remainder. */
  datatype World = World(slots: Slots, status: map<nat, Status>, settling: map<nat, nat>)

  datatype Op =
    | ReserveOp(storeHome: nat, generation: Option<nat>, preparedHome: nat, runtime: nat)
    | DropOp(entry: nat)
    | BeginOp(entry: nat)
    | EndOp(entry: nat, outcome: Outcome)
    | CheckOp(call: nat, entry: nat, storeHome: nat, generation: Option<nat>)
    | PickOp(call: nat, runtime: nat, candidateHome: nat, candidate: nat)
    | SettleOp(call: nat, resolution: Resolution)

  predicate In(w: World, e: nat, phase: Phase)
  {
    e in w.status && e in w.slots.attempts && w.status[e].phase == phase
  }

  /** A reservation is dropped or executed once, and the attempt's lock is held while its command runs. */
  predicate Enabled(w: World, op: Op)
  {
    match op
    case ReserveOp(_, _, _, _) => true
    case DropOp(e) => In(w, e, Reserved)
    case BeginOp(e) => In(w, e, Reserved)
    case EndOp(e, _) => In(w, e, Executing)
    case CheckOp(call, _, _, _) => call !in w.settling
    case PickOp(call, _, _, _) => call !in w.settling
    case SettleOp(call, _) =>
      call in w.settling && w.settling[call] in w.status && w.settling[call] in w.slots.attempts &&
      w.status[w.settling[call]].phase != Executing
  }

  function To(w: World, e: nat, phase: Phase): (status: map<nat, Status>)
    requires e in w.status
  {
    w.status[e := w.status[e].(phase := phase)]
  }

  function Next(w: World, op: Op): (w': World)
    requires Enabled(w, op)
  {
    match op
    case ReserveOp(storeHome, generation, preparedHome, runtime) =>
      var (s, r) := Reserve(w.slots, storeHome, generation, preparedHome, runtime);
      if r.Ok? then w.(slots := s, status := w.status[r.value := Status(Reserved, 0)]) else w
    case DropOp(e) => w.(slots := Release(w.slots, e), status := To(w, e, Over))
    case BeginOp(e) => w.(status := To(w, e, Executing))
    case EndOp(e, outcome) =>
      w.(slots := Conclude(w.slots, e, outcome), status := To(w, e, if outcome == Indeterminate then Unknown else Over))
    case CheckOp(call, e, storeHome, generation) =>
      if Current(w.slots, e, storeHome, generation) then w.(settling := w.settling[call := e]) else w
    case PickOp(call, r, candidateHome, candidate) =>
      if !Pickable(w.slots, r, candidateHome, candidate) then w
      else w.(settling := w.settling[call := w.slots.entries[r]])
    case SettleOp(call, resolution) =>
      var e := w.settling[call];
      var (s, r) := Settle(w.slots, e, resolution);
      if r.Ok? then World(s, w.status[e := Status(Over, w.status[e].reported + 1)], w.settling - {call})
      else w.(settling := w.settling - {call})
  }

  predicate Filed(s: Slots, r: nat)
  {
    r in s.entries ==> s.entries[r] in s.attempts && s.attempts[s.entries[r]].runtime == r
  }

  /** An attempt is filed exactly until it is over. */
  predicate Fits(w: World, e: nat)
  {
    && (e in w.status <==> e in w.slots.attempts)
    && (e in w.status ==> e < w.slots.next && (Owns(w.slots, e) <==> w.status[e].phase != Over))
  }

  /** Its witness and its reconciliation tell its phase. */
  predicate Told(w: World, e: nat)
  {
    e in w.status && e in w.slots.attempts ==>
      var a, p := w.slots.attempts[e], w.status[e];
      && (p.phase != Over || p.reported > 0 ==> a.hasWitness)
      && (a.reconciliation <==> p.phase == Unknown || p.reported > 0)
      && (p.reported > 0 ==> p.phase == Over)
  }

  ghost predicate Inv(w: World)
  {
    && (forall r: nat :: Filed(w.slots, r)) && (forall e: nat :: Fits(w, e) && Told(w, e))
    && |w.slots.entries| <= w.slots.capacity
  }

  lemma EntriesSize(entries: map<nat, nat>, r: nat, e: nat)
    ensures |entries - {r}| <= |entries|
    ensures |entries[r := e]| <= |entries| + 1
  {
    assert (entries - {r}).Keys == entries.Keys - {r};
    assert entries[r := e].Keys == entries.Keys + {r};
  }

  lemma ReleaseOwns(s: Slots, e: nat, f: nat)
    requires e in s.attempts
    ensures Owns(Release(s, e), f) <==> Owns(s, f) && f != e
  {
  }

  lemma FitsReserve(w: World, op: Op, e: nat)
    requires op.ReserveOp? && Fits(w, e) && w.slots.next !in w.slots.attempts
    ensures Fits(Next(w, op), e)
  {
  }

  lemma FitsEnd(w: World, op: Op, e: nat)
    requires op.EndOp? && Enabled(w, op) && Fits(w, e)
    ensures Fits(Next(w, op), e)
  {
  }

  lemma FitsSettle(w: World, op: Op, e: nat)
    requires op.SettleOp? && Enabled(w, op) && Fits(w, e)
    ensures Fits(Next(w, op), e)
  {
  }

  lemma FitsKept(w: World, op: Op, e: nat)
    requires Enabled(w, op) && Fits(w, e) && w.slots.next !in w.slots.attempts
    ensures Fits(Next(w, op), e)
  {
    match op
    case ReserveOp(_, _, _, _) => FitsReserve(w, op, e);
    case DropOp(f) => ReleaseOwns(w.slots, f, e);
    case EndOp(_, _) => FitsEnd(w, op, e);
    case SettleOp(_, _) => FitsSettle(w, op, e);
    case _ =>
  }

  lemma ToldKept(w: World, op: Op, e: nat)
    requires Enabled(w, op) && Fits(w, e) && Told(w, e) && w.slots.next !in w.slots.attempts
    ensures Told(Next(w, op), e)
  {
    match op
    case ReserveOp(h, g, p, r) => assert e in w.slots.attempts ==> e in Reserve(w.slots, h, g, p, r).0.attempts;
    case EndOp(f, outcome) => ToldEnd(w, f, outcome, e);
    case SettleOp(call, resolution) =>
    case _ =>
  }

  lemma ToldEnd(w: World, f: nat, outcome: Outcome, e: nat)
    requires Enabled(w, EndOp(f, outcome)) && Fits(w, e) && Told(w, e)
    ensures Told(Next(w, EndOp(f, outcome)), e)
  {
    if e in w.slots.attempts {
      ConcludeAttempt(w.slots, f, outcome, e);
    }
  }

  lemma ReleaseSize(s: Slots, e: nat)
    ensures |Release(s, e).entries| <= |s.entries|
  {
    if Owns(s, e) {
      EntriesSize(s.entries, s.attempts[e].runtime, e);
    }
  }

  lemma ConcludeSize(s: Slots, e: nat, outcome: Outcome)
    requires e in s.attempts
    ensures |Conclude(s, e, outcome).entries| <= |s.entries|
  {
  }

  lemma ReserveSize(s: Slots, storeHome: nat, generation: Option<nat>, preparedHome: nat, runtime: nat)
    requires |s.entries| <= s.capacity
    ensures |Reserve(s, storeHome, generation, preparedHome, runtime).0.entries| <= s.capacity
  {
  }

  lemma CapacityKept(w: World, op: Op)
    requires Enabled(w, op) && |w.slots.entries| <= w.slots.capacity
    ensures |Next(w, op).slots.entries| <= Next(w, op).slots.capacity
  {
    match op
    case ReserveOp(h, g, p, r) => ReserveSize(w.slots, h, g, p, r);
    case DropOp(e) => ReleaseSize(w.slots, e);
    case EndOp(e, outcome) => ConcludeSize(w.slots, e, outcome);
    case SettleOp(call, _) => ReleaseSize(w.slots, w.settling[call]);
    case _ =>
  }

  lemma FiledKept(w: World, op: Op, r: nat)
    requires Enabled(w, op) && Filed(w.slots, r) && w.slots.next !in w.slots.attempts
    ensures Filed(Next(w, op).slots, r)
  {
  }

  lemma InvKept(w: World, op: Op)
    requires Inv(w) && Enabled(w, op)
    ensures Inv(Next(w, op))
  {
    assert Fits(w, w.slots.next);
    CapacityKept(w, op);
    forall e: nat
      ensures Fits(Next(w, op), e) && Told(Next(w, op), e)
    {
      assert Fits(w, e) && Told(w, e);
      FitsKept(w, op, e);
      ToldKept(w, op, e);
    }
    forall r: nat
      ensures Filed(Next(w, op).slots, r)
    {
      assert Filed(w.slots, r);
      FiledKept(w, op, r);
    }
  }

  function Start(home: nat, capacity: nat): (w: World)
  {
    World(Slots(home, capacity, map[], map[], 0), map[], map[])
  }

  ghost predicate Run(ws: seq<World>, ops: seq<Op>)
  {
    && |ws| == |ops| + 1 && ws[0] == Start(ws[0].slots.home, ws[0].slots.capacity)
    && (forall i {:trigger ops[i]} :: 0 <= i < |ops| ==> Enabled(ws[i], ops[i]) && ws[i + 1] == Next(ws[i], ops[i]))
  }

  lemma {:induction false} RunInv(ws: seq<World>, ops: seq<Op>, i: nat)
    requires Run(ws, ops) && i < |ws|
    ensures Inv(ws[i])
  {
    if i > 0 {
      RunInv(ws, ops, i - 1);
      InvKept(ws[i - 1], ops[i - 1]);
    }
  }

  /** The attempt whose own end a step may be. */
  function Subject(w: World, op: Op): (e: Option<nat>)
  {
    match op
    case DropOp(e) => Some(e)
    case EndOp(e, _) => Some(e)
    case SettleOp(call, _) => if call in w.settling then Some(w.settling[call]) else None
    case _ => None
  }

  /** A runtime's entry leaves only with the end of the very attempt that filed it. */
  lemma RemovedByItsOwner(ws: seq<World>, ops: seq<Op>, i: nat, r: nat)
    requires Run(ws, ops) && i < |ops| && r in ws[i].slots.entries
    ensures var e := ws[i].slots.entries[r];
            if Subject(ws[i], ops[i]) == Some(e) && e in ws[i + 1].status && ws[i + 1].status[e].phase == Over
            then r !in ws[i + 1].slots.entries
            else r in ws[i + 1].slots.entries && ws[i + 1].slots.entries[r] == e
  {
    var e := ws[i].slots.entries[r];
    RunInv(ws, ops, i);
    RunInv(ws, ops, i + 1);
    assert Filed(ws[i].slots, r) && Fits(ws[i], e) && Fits(ws[i + 1], e);
    assert Fits(ws[i], ws[i].slots.next);
    RuntimeKept(ws[i], ops[i], e);
    StaysUnlessSubject(ws[i], ops[i], r);
    assert Filed(ws[i + 1].slots, r);
  }

  lemma RuntimeKept(w: World, op: Op, e: nat)
    requires Enabled(w, op) && e in w.slots.attempts && w.slots.next !in w.slots.attempts
    ensures var w' := Next(w, op);
            e in w'.slots.attempts && w'.slots.attempts[e].runtime == w.slots.attempts[e].runtime
  {
    match op
    case ReserveOp(h, g, p, r) => assert e in Reserve(w.slots, h, g, p, r).0.attempts;
    case EndOp(f, outcome) => assert e in Conclude(w.slots, f, outcome).attempts;
    case _ =>
  }

  lemma StaysUnlessSubject(w: World, op: Op, r: nat)
    requires Enabled(w, op) && r in w.slots.entries && Filed(w.slots, r) && Fits(w, w.slots.next)
    requires Fits(w, w.slots.entries[r]) && w.slots.entries[r] in w.status
    ensures r in Next(w, op).slots.entries ==> Next(w, op).slots.entries[r] == w.slots.entries[r]
    ensures Subject(w, op) != Some(w.slots.entries[r]) ==> r in Next(w, op).slots.entries
    ensures w.slots.entries[r] in Next(w, op).status
  {
  }

  lemma NextUnused(ws: seq<World>, ops: seq<Op>, i: nat)
    requires Run(ws, ops) && i < |ws|
    ensures ws[i].slots.next !in ws[i].status
  {
    RunInv(ws, ops, i);
    assert Fits(ws[i], ws[i].slots.next);
  }

  /** An attempt that is over stays over. */
  lemma {:induction false} OverForever(ws: seq<World>, ops: seq<Op>, i: nat, j: nat, e: nat)
    requires Run(ws, ops) && i <= j < |ws| && e in ws[i].status && ws[i].status[e].phase == Over
    ensures e in ws[j].status && ws[j].status[e].phase == Over
  {
    if j > i {
      OverForever(ws, ops, i, j - 1, e);
      NextUnused(ws, ops, j - 1);
      OverStep(ws[j - 1], ops[j - 1], e);
    }
  }

  lemma OverStep(w: World, op: Op, e: nat)
    requires Enabled(w, op) && e in w.status && w.status[e].phase == Over && w.slots.next !in w.status
    ensures e in Next(w, op).status && Next(w, op).status[e].phase == Over
  {
  }

  /** The entry of an attempt that is over never returns. */
  lemma NeverFiledAgain(ws: seq<World>, ops: seq<Op>, i: nat, j: nat, e: nat)
    requires Run(ws, ops) && i <= j < |ws| && e in ws[i].status && ws[i].status[e].phase == Over
    ensures !Owns(ws[j].slots, e)
  {
    OverForever(ws, ops, i, j, e);
    RunInv(ws, ops, j);
    assert Fits(ws[j], e);
  }

  /** In every run: no more entries than the capacity, and the entries are exactly the attempts not yet over. */
  lemma CustodyExact(ws: seq<World>, ops: seq<Op>, i: nat, r: nat, e: nat)
    requires Run(ws, ops) && i < |ws|
    ensures |ws[i].slots.entries| <= ws[i].slots.capacity
    ensures r in ws[i].slots.entries && ws[i].slots.entries[r] == e <==>
              e in ws[i].status && e in ws[i].slots.attempts && ws[i].slots.attempts[e].runtime == r &&
              ws[i].status[e].phase != Over
  {
    RunInv(ws, ops, i);
    assert Fits(ws[i], e) && Filed(ws[i].slots, r);
  }

  // How often one attempt is reported settled

  predicate Reports(w: World, op: Op)
  {
    op.SettleOp? && Enabled(w, op) && Settle(w.slots, w.settling[op.call], op.resolution).1.Ok?
  }

  /** A settlement reports an attempt for the first time if and only if the attempt is still filed when its lock is
      taken. */
  lemma FirstReportIffFiled(ws: seq<World>, ops: seq<Op>, i: nat)
    requires Run(ws, ops) && i < |ops| && Reports(ws[i], ops[i])
    ensures var e := ws[i].settling[ops[i].call];
            && (ws[i].status[e].reported == 0 <==> Owns(ws[i].slots, e))
            && (Owns(ws[i].slots, e) <==> ws[i + 1].slots.entries != ws[i].slots.entries)
            && e in ws[i + 1].status && ws[i + 1].status[e].reported == ws[i].status[e].reported + 1
  {
    var e := ws[i].settling[ops[i].call];
    RunInv(ws, ops, i);
    assert Fits(ws[i], e) && Told(ws[i], e);
    if Owns(ws[i].slots, e) {
      assert ws[i].slots.attempts[e].runtime !in ws[i + 1].slots.entries;
    }
  }

  lemma Extend(ws: seq<World>, ops: seq<Op>, op: Op, w: World) returns (ws': seq<World>, ops': seq<Op>)
    requires Run(ws, ops) && Enabled(ws[|ws| - 1], op) && w == Next(ws[|ws| - 1], op)
    ensures Run(ws', ops') && ws'[|ws'| - 1] == w
  {
    ws', ops' := ws + [w], ops + [op];
  }

  /** Home 0 with room for one entry, and one attempt, of runtime 0. */
  function Lone(filed: bool, reconciliation: bool, status: Status, settling: map<nat, nat>): (w: World)
  {
    World(Slots(0, 1, if filed then map[0 := 0] else map[], map[0 := Attempt(0, 0, true, reconciliation)], 1),
          map[0 := status], settling)
  }

  /** One attempt whose outcome stays unknown. */
  lemma OneUnknown() returns (ws: seq<World>, ops: seq<Op>)
    ensures Run(ws, ops) && ws[|ws| - 1] == Lone(true, true, Status(Unknown, 0), map[])
  {
    ws, ops := [Start(0, 1)], [];
    ws, ops := Extend(ws, ops, ReserveOp(0, Some(0), 0, 0), Lone(true, false, Status(Reserved, 0), map[]));
    ws, ops := Extend(ws, ops, BeginOp(0), Lone(true, false, Status(Executing, 0), map[]));
    ws, ops := Extend(ws, ops, EndOp(0, Indeterminate), Lone(true, true, Status(Unknown, 0), map[]));
  }

  /** The same with two settlements past their check. */
  lemma TwoSettlements() returns (ws: seq<World>, ops: seq<Op>)
    ensures Run(ws, ops) && ws[|ws| - 1] == Lone(true, true, Status(Unknown, 0), map[0 := 0, 1 := 0])
  {
    ws, ops := OneUnknown();
    ws, ops := Extend(ws, ops, CheckOp(0, 0, 0, Some(0)), Lone(true, true, Status(Unknown, 0), map[0 := 0]));
    ws, ops := Extend(ws, ops, CheckOp(1, 0, 0, Some(0)), Lone(true, true, Status(Unknown, 0), map[0 := 0, 1 := 0]));
  }

  /** Two settlements that overlap both report success. */
  lemma SettledTwice() returns (ws: seq<World>, ops: seq<Op>)
    ensures Run(ws, ops) && 0 in ws[|ws| - 1].status && ws[|ws| - 1].status[0].reported == 2
  {
    ws, ops := TwoSettlements();
    ws, ops := Extend(ws, ops, SettleOp(0, Agrees(true)), Lone(false, true, Status(Over, 1), map[1 := 0]));
    ws, ops := Extend(ws, ops, SettleOp(1, Agrees(true)), Lone(false, true, Status(Over, 2), map[]));
  }

  /** No settlement of an attempt starts while another one of the same attempt is under way. */
  ghost predicate Serial(ws: seq<World>)
  {
    forall i, c, d ::
      (0 <= i < |ws| && c in ws[i].settling && d in ws[i].settling && ws[i].settling[c] == ws[i].settling[d])
      ==> c == d
  }

  ghost predicate Fresh(w: World)
  {
    forall c :: c in w.settling ==> w.settling[c] in w.status && w.status[w.settling[c]].reported == 0
  }

  /** Settlements of one attempt that do not overlap report it at most once. */
  lemma {:induction false} SettledOnce(ws: seq<World>, ops: seq<Op>, i: nat, e: nat)
    requires Run(ws, ops) && Serial(ws) && i < |ws|
    ensures Fresh(ws[i])
    ensures e in ws[i].status ==> ws[i].status[e].reported <= 1
  {
    if i > 0 {
      SettledOnce(ws, ops, i - 1, e);
      RunInv(ws, ops, i - 1);
      FreshStep(ws[i - 1], ops[i - 1]);
      ReportedStep(ws[i - 1], ops[i - 1], e);
    }
  }

  lemma ReportedStep(w: World, op: Op, e: nat)
    requires Enabled(w, op) && Fresh(w) && (e in w.status ==> w.status[e].reported <= 1)
    ensures e in Next(w, op).status ==> Next(w, op).status[e].reported <= 1
  {
  }

  lemma FreshStep(w: World, op: Op)
    requires Inv(w) && Enabled(w, op) && Fresh(w)
    requires forall c, d :: c in w.settling && d in w.settling && w.settling[c] == w.settling[d] ==> c == d
    ensures Fresh(Next(w, op))
  {
    var w' := Next(w, op);
    forall c | c in w'.settling
      ensures w'.settling[c] in w'.status && w'.status[w'.settling[c]].reported == 0
    {
      var e := w'.settling[c];
      assert Fits(w, e) && Told(w, e);
      FreshCall(w, op, c);
    }
  }

  lemma FreshCall(w: World, op: Op, c: nat)
    requires Enabled(w, op) && c in Next(w, op).settling
    requires Fits(w, Next(w, op).settling[c]) && Told(w, Next(w, op).settling[c])
    requires c in w.settling ==> w.settling[c] in w.status && w.status[w.settling[c]].reported == 0
    requires op.PickOp? ==> Filed(w.slots, op.runtime)
    requires c in w.settling && op.SettleOp? && op.call != c ==> w.settling[op.call] != w.settling[c]
    ensures var e := Next(w, op).settling[c];
            e in Next(w, op).status && Next(w, op).status[e].reported == 0
  {
  }

  /** The settlement at step `i` reports this attempt. */
  predicate ReportsOf(w: World, op: Op, e: nat)
  {
    Reports(w, op) && w.settling[op.call] == e
  }

  lemma ReportedCount(w: World, op: Op, e: nat)
    requires Enabled(w, op) && e in w.status && w.slots.next !in w.status
    ensures e in Next(w, op).status
    ensures Next(w, op).status[e].reported == w.status[e].reported + if ReportsOf(w, op, e) then 1 else 0
  {
  }

  lemma {:induction false} ReportedGrows(ws: seq<World>, ops: seq<Op>, i: nat, j: nat, e: nat)
    requires Run(ws, ops) && i <= j < |ws| && e in ws[i].status
    ensures e in ws[j].status && ws[i].status[e].reported <= ws[j].status[e].reported
  {
    if i < j {
      ReportedGrows(ws, ops, i, j - 1, e);
      NextUnused(ws, ops, j - 1);
      ReportedCount(ws[j - 1], ops[j - 1], e);
    }
  }

  /** The settlement at step `i` reports this attempt though it is no longer filed. */
  predicate Strays(ws: seq<World>, ops: seq<Op>, i: nat, e: nat)
    requires i < |ops| < |ws|
  {
    ReportsOf(ws[i], ops[i], e) && !Owns(ws[i].slots, e)
  }

  lemma CountStep(ws: seq<World>, ops: seq<Op>, n: nat, e: nat)
    requires Run(ws, ops) && n < |ops| && e in ws[n].status
    ensures e in ws[n + 1].status
    ensures ws[n + 1].status[e].reported == ws[n].status[e].reported + if ReportsOf(ws[n], ops[n], e) then 1 else 0
    ensures ReportsOf(ws[n], ops[n], e) && !Strays(ws, ops, n, e) ==> ws[n].status[e].reported == 0
  {
    NextUnused(ws, ops, n);
    ReportedCount(ws[n], ops[n], e);
    if ReportsOf(ws[n], ops[n], e) {
      FirstReportIffFiled(ws, ops, n);
    }
  }

  lemma NewUnreported(w: World, op: Op, e: nat)
    requires Enabled(w, op) && e !in w.status && e in Next(w, op).status
    ensures Next(w, op).status[e].reported == 0
  {
  }

  lemma {:induction false} FiledReportsOnce(ws: seq<World>, ops: seq<Op>, n: nat, e: nat)
    requires Run(ws, ops) && n < |ws| && e in ws[n].status
    requires forall i :: 0 <= i < n ==> !Strays(ws, ops, i, e)
    ensures ws[n].status[e].reported <= 1
  {
    if n > 0 {
      if e in ws[n - 1].status {
        FiledReportsOnce(ws, ops, n - 1, e);
        assert !Strays(ws, ops, n - 1, e);
        CountStep(ws, ops, n - 1, e);
      } else {
        NewUnreported(ws[n - 1], ops[n - 1], e);
      }
    }
  }

  /** Over a whole run an attempt is reported at most once if and only if every settlement that reported it found it
      still filed when its lock was taken. */
  lemma ReportedOnceIff(ws: seq<World>, ops: seq<Op>, n: nat, e: nat)
    requires Run(ws, ops) && n < |ws| && e in ws[n].status
    ensures ws[n].status[e].reported <= 1 <==> forall i :: 0 <= i < n ==> !Strays(ws, ops, i, e)
  {
    if forall i :: 0 <= i < n ==> !Strays(ws, ops, i, e) {
      FiledReportsOnce(ws, ops, n, e);
    } else {
      var i :| 0 <= i < n && Strays(ws, ops, i, e);
      FirstReportIffFiled(ws, ops, i);
      ReportedGrows(ws, ops, i + 1, n, e);
    }
  }

  // What every call answers, in terms of the calls before it

  /** What a settlement returns. */
  function AnswerOf(w: World, op: Op): (r: Result<bool, Error>)
    requires Enabled(w, op) && op.SettleOp?
  {
    Settle(w.slots, w.settling[op.call], op.resolution).1
  }

  /** The reservation at step `i` was granted, to this attempt. */
  predicate Grants(ws: seq<World>, ops: seq<Op>, i: nat, e: nat)
    requires i < |ops| < |ws|
  {
    ops[i].ReserveOp? && ops[i].generation.Some? && ws[i].slots.next == e < ws[i + 1].slots.next
  }

  lemma HomeStep(w: World, op: Op)
    requires Enabled(w, op)
    ensures Next(w, op).slots.home == w.slots.home && Next(w, op).slots.capacity == w.slots.capacity
  {
  }

  lemma {:induction false} HomeKept(ws: seq<World>, ops: seq<Op>, k: nat)
    requires Run(ws, ops) && k < |ws|
    ensures ws[k].slots.home == ws[0].slots.home && ws[k].slots.capacity == ws[0].slots.capacity
  {
    if k > 0 {
      HomeKept(ws, ops, k - 1);
      HomeStep(ws[k - 1], ops[k - 1]);
    }
  }

  /** A reservation is granted if and only if it names the home and a generation, no attempt of its runtime is still
      under way, and there is room. */
  lemma ReserveAnswer(ws: seq<World>, ops: seq<Op>, i: nat)
    requires Run(ws, ops) && i < |ops| && ops[i].ReserveOp?
    ensures var (op, s, home) := (ops[i], ws[i].slots, ws[0].slots.home);
            var answer := Reserve(s, op.storeHome, op.generation, op.preparedHome, op.runtime).1;
            var named := op.storeHome == home && op.preparedHome == home && op.generation.Some?;
            && (answer == Err(Identity) <==> !named)
            && (answer == Err(Occupied) <==> named && op.runtime in s.entries)
            && (answer == Err(Capacity) <==> named && op.runtime !in s.entries && |s.entries| >= ws[0].slots.capacity)
            && (answer == Ok(s.next) <==> Grants(ws, ops, i, s.next))
            && (answer.Err? ==> ws[i + 1] == ws[i])
            && (answer.Ok? <==> named && op.runtime !in s.entries && |s.entries| < ws[0].slots.capacity)
  {
    HomeKept(ws, ops, i);
    RunInv(ws, ops, i);
  }

  lemma ConcludeAttempt(s: Slots, f: nat, outcome: Outcome, e: nat)
    requires f in s.attempts && e in s.attempts
    ensures var a, t := s.attempts[e], Conclude(s, f, outcome).attempts;
            && e in t && (f != e ==> t[e] == a)
            && (f == e ==> t[e] == if outcome == Indeterminate then a.(reconciliation := true)
                                   else a.(hasWitness := false))
  {
  }

  lemma AttemptStep(w: World, op: Op, e: nat)
    requires Enabled(w, op) && e in w.slots.attempts && w.slots.next !in w.slots.attempts
    ensures var a, t := w.slots.attempts[e], Next(w, op).slots.attempts;
            && e in t && t[e].runtime == a.runtime && t[e].generation == a.generation
            && (t[e].reconciliation <==> a.reconciliation || op == EndOp(e, Indeterminate))
  {
    match op
    case ReserveOp(h, g, p, r) => assert e in Reserve(w.slots, h, g, p, r).0.attempts;
    case EndOp(f, outcome) => ConcludeAttempt(w.slots, f, outcome, e);
    case _ =>
  }

  /** The command of this attempt ended with an unknown outcome before `k`. */
  ghost predicate EndedUnknown(ops: seq<Op>, k: nat, e: nat)
    requires k <= |ops|
  {
    exists i :: 0 <= i < k && ops[i] == EndOp(e, Indeterminate)
  }

  lemma {:induction false} AttemptStays(ws: seq<World>, ops: seq<Op>, m: nat, k: nat, e: nat)
    requires Run(ws, ops) && m <= k < |ws| && e in ws[m].slots.attempts
    ensures e in ws[k].slots.attempts
    decreases k
  {
    if m < k {
      AttemptStays(ws, ops, m, k - 1, e);
      NextFree(ws, ops, k - 1);
      AttemptStep(ws[k - 1], ops[k - 1], e);
    }
  }

  lemma Unmade(ws: seq<World>, ops: seq<Op>, k: nat, e: nat)
    requires Run(ws, ops) && k < |ws| && ws[k].slots.next <= e
    ensures e !in ws[k].slots.attempts
  {
    RunInv(ws, ops, k);
    assert Fits(ws[k], e);
  }

  lemma NoneBefore(ws: seq<World>, ops: seq<Op>, k: nat, e: nat)
    requires Run(ws, ops) && k < |ws| && ws[k].slots.next <= e
    ensures !EndedUnknown(ops, k, e)
  {
    if EndedUnknown(ops, k, e) {
      var m :| 0 <= m < k && ops[m] == EndOp(e, Indeterminate);
      assert Enabled(ws[m], ops[m]);
      AttemptStays(ws, ops, m, k, e);
      Unmade(ws, ops, k, e);
    }
  }

  /** What is on record of an attempt: the runtime and the generation of its reservation, and whether its outcome stayed
      unknown. */
  lemma {:induction false} AttemptOnRecord(ws: seq<World>, ops: seq<Op>, i: nat, k: nat, e: nat)
    requires Run(ws, ops) && i < k < |ws| && Grants(ws, ops, i, e)
    ensures e in ws[k].slots.attempts
    ensures ws[k].slots.attempts[e].runtime == ops[i].runtime
    ensures Some(ws[k].slots.attempts[e].generation) == ops[i].generation
    ensures ws[k].slots.attempts[e].reconciliation <==> EndedUnknown(ops, k, e)
  {
    if i + 1 < k {
      AttemptOnRecord(ws, ops, i, k - 1, e);
      NextFree(ws, ops, k - 1);
      AttemptStep(ws[k - 1], ops[k - 1], e);
    } else {
      NoneBefore(ws, ops, i, e);
    }
  }

  lemma NextFree(ws: seq<World>, ops: seq<Op>, i: nat)
    requires Run(ws, ops) && i < |ws|
    ensures ws[i].slots.next !in ws[i].slots.attempts
  {
    RunInv(ws, ops, i);
    assert Fits(ws[i], ws[i].slots.next);
  }

  lemma AttemptNew(w: World, op: Op, e: nat)
    requires Enabled(w, op) && e in Next(w, op).slots.attempts && e !in w.slots.attempts
    ensures op.ReserveOp? && op.generation.Some? && w.slots.next == e < Next(w, op).slots.next
  {
  }

  /** Every attempt was granted by a reservation. */
  lemma {:induction false} GrantedBy(ws: seq<World>, ops: seq<Op>, k: nat, e: nat) returns (i: nat)
    requires Run(ws, ops) && k < |ws| && e in ws[k].slots.attempts
    ensures i < k && Grants(ws, ops, i, e)
  {
    if e in ws[k - 1].slots.attempts {
      i := GrantedBy(ws, ops, k - 1, e);
    } else {
      i := k - 1;
      AttemptNew(ws[i], ops[i], e);
    }
  }

  /** A settlement reports if and only if the outcome had stayed unknown and both sources agree; what it reports is the
      side they agree on. */
  lemma SettleAnswer(ws: seq<World>, ops: seq<Op>, k: nat)
    requires Run(ws, ops) && k < |ops| && ops[k].SettleOp?
    ensures var e := ws[k].settling[ops[k].call];
            AnswerOf(ws[k], ops[k]) ==
            if !EndedUnknown(ops, k, e) then Err(SubmissionPending)
            else match ops[k].resolution
                 case Fails => Err(Environment)
                 case Disagrees => Err(Conflict)
                 case Agrees(committed) => Ok(committed)
    ensures ops[k].call !in ws[k + 1].settling
    ensures AnswerOf(ws[k], ops[k]).Ok? ==> !Owns(ws[k + 1].slots, ws[k].settling[ops[k].call])
    ensures AnswerOf(ws[k], ops[k]).Err? ==> ws[k + 1].slots == ws[k].slots && ws[k + 1].status == ws[k].status
  {
    var e := ws[k].settling[ops[k].call];
    RunInv(ws, ops, k);
    assert Fits(ws[k], e) && Told(ws[k], e);
    var i := GrantedBy(ws, ops, k, e);
    AttemptOnRecord(ws, ops, i, k, e);
    ReleaseOwns(ws[k].slots, e, e);
  }

  /** A check goes on if and only if it names the home and the generation of the attempt's reservation, and the attempt
      is still filed. */
  lemma CheckAnswer(ws: seq<World>, ops: seq<Op>, i: nat, k: nat, e: nat)
    requires Run(ws, ops) && i < k < |ops| && Grants(ws, ops, i, e) && ops[k].CheckOp? && ops[k].entry == e
    ensures ws[k + 1].settling ==
            if ops[k].storeHome == ws[0].slots.home && ops[k].generation == ops[i].generation && Filing(ws[k], e)
            then ws[k].settling[ops[k].call := e] else ws[k].settling
  {
    HomeKept(ws, ops, k);
    RunInv(ws, ops, k);
    AttemptOnRecord(ws, ops, i, k, e);
    assert Fits(ws[k], e);
  }

  /** The attempt is not over. */
  predicate Filing(w: World, e: nat)
  {
    e in w.status && w.status[e].phase != Over
  }

  /** A candidate goes on with the entry of a runtime if and only if it is of the home and of another generation. */
  lemma PickAnswer(ws: seq<World>, ops: seq<Op>, i: nat, k: nat, e: nat)
    requires Run(ws, ops) && i < k < |ops| && Grants(ws, ops, i, e) && Filing(ws[k], e)
    requires ops[k].PickOp? && ops[k].runtime == ops[i].runtime
    ensures ws[k + 1].settling ==
            if ops[k].candidateHome == ws[0].slots.home && ops[i].generation != Some(ops[k].candidate)
            then ws[k].settling[ops[k].call := e] else ws[k].settling
  {
    HomeKept(ws, ops, k);
    AttemptOnRecord(ws, ops, i, k, e);
    CustodyExact(ws, ops, k, ops[i].runtime, e);
  }

  lemma {:induction false} SettlingKept(ws: seq<World>, ops: seq<Op>, i: nat, k: nat, call: nat)
    requires Run(ws, ops) && i <= k < |ws| && call in ws[i].settling
    requires forall m :: i <= m < k ==> !(ops[m].SettleOp? && ops[m].call == call)
    ensures call in ws[k].settling && ws[k].settling[call] == ws[i].settling[call]
    decreases k
  {
    if i < k {
      SettlingKept(ws, ops, i, k - 1, call);
      assert Enabled(ws[k - 1], ops[k - 1]);
    }
  }

  /** A check, at the home and the generation of its reservation, of a filed attempt of unknown outcome, followed by an
      agreeing settlement, reports the agreed side and removes the attempt. */
  lemma CheckedSettles(ws: seq<World>, ops: seq<Op>, i: nat, j: nat, k: nat, e: nat)
    requires Run(ws, ops) && i < j < k < |ops| && Grants(ws, ops, i, e) && EndedUnknown(ops, j, e) && Filing(ws[j], e)
    requires ops[j].CheckOp? && ops[j].entry == e
    requires ops[j].storeHome == ws[0].slots.home && ops[j].generation == ops[i].generation
    requires ops[k].SettleOp? && ops[k].call == ops[j].call && ops[k].resolution.Agrees?
    requires forall m :: j < m < k ==> !(ops[m].SettleOp? && ops[m].call == ops[j].call)
    ensures AnswerOf(ws[k], ops[k]) == Ok(ops[k].resolution.committed)
    ensures !Filing(ws[k + 1], e) && !Owns(ws[k + 1].slots, e)
  {
    CheckAnswer(ws, ops, i, j, e);
    SettlingKept(ws, ops, j + 1, k, ops[j].call);
    assert EndedUnknown(ops, k, e);
    SettleAnswer(ws, ops, k);
    RunInv(ws, ops, k + 1);
    assert Fits(ws[k + 1], e);
  }
}
