/** Custody of draft-marker seal flights: admission, driving, release, retirement and recovery. */
module MarkerSeal {
  import opened Common

  datatype Request = Request(operation: nat, staging: nat, content: nat)

  datatype Handle = Handle(serial: nat, request: Request)

  datatype Phase = PendingBegin | Streaming(begun: Option<nat>) | SealingAsset(staging: nat, proof: nat)

  datatype Intent = Cancelled | SessionDisposed | ServiceDisposed | OperationalFailure | Superseded(successor: nat)

  datatype Flight = Flight(handle: Handle, phase: Phase, driving: bool, terminal: Option<Intent>, collision: bool)

  datatype Lifecycle = Active | Recovering | Disposing | Retired | Disposed

  /** Flights and orphans by serial; `reserved` counts flights held outside by a failed-home capture. */
  datatype Service = Service(
    flights: map<nat, Flight>, orphans: map<nat, Flight>, reserved: nat, recoveryOwned: bool, borrows: nat,
    nextSerial: nat, lifecycle: Lifecycle, generation: nat, limit: nat)

  datatype Error =
    | Unavailable
    | ReconciliationCollision
    | StaleFlight
    | FlightBusy
    | TerminalSettlementRequired
    | Other

  /** What the unlocked part of a drive or release reports back. */
  datatype Update = Keep(phase: Phase) | Complete | Collided | Failed(healthy: bool)

  datatype Verdict = Kept | Completed | Orphaned | Refused(error: Error)

  // The critical sections

  /** Who may borrow, and how many have. */
  function Desk(s: Service): (desk: (nat, bool))
  {
    (s.borrows, s.recoveryOwned)
  }

  predicate Has(flights: map<nat, Flight>, handle: Handle)
  {
    handle.serial in flights && flights[handle.serial].handle == handle
  }

  /** `MarkerAccess::validate` once the store itself is healthy and of this generation. */
  predicate Accessible(s: Service, candidate: bool)
  {
    if candidate then
      s.recoveryOwned && s.lifecycle == Recovering && (forall k :: k in s.orphans ==> !s.orphans[k].collision)
    else s.lifecycle == Active || s.lifecycle == Disposing
  }

  /** How an access is refused. */
  function Denial(s: Service, candidate: bool): (e: Error)
  {
    if candidate && s.recoveryOwned && s.lifecycle == Recovering then ReconciliationCollision else Unavailable
  }

  /** First section of `drive_with_access`. */
  function BeginDrive(s: Service, candidate: bool, handle: Handle): (r: Result<Service, Error>)
    ensures r.Ok? ==> Desk(r.value) == Desk(s)
  {
    if !Accessible(s, candidate) then Err(Denial(s, candidate))
    else if Has(s.orphans, handle) && s.orphans[handle.serial].collision then Err(ReconciliationCollision)
    else if !Has(s.flights, handle) then Err(StaleFlight)
    else
      var flight := s.flights[handle.serial];
      if flight.driving then Err(FlightBusy)
      else if flight.terminal.Some? then Err(TerminalSettlementRequired)
      else Ok(s.(flights := s.flights[handle.serial := flight.(driving := true)]))
  }

  function FinishDisposal(s: Service): (s': Service)
    ensures s'.flights == s.flights && s'.orphans == s.orphans
  {
    if s.flights == map[] && s.orphans == map[] && s.reserved == 0 && s.lifecycle == Disposing
    then s.(lifecycle := Disposed) else s
  }

  function Orphan(s: Service, serial: nat, collision: bool): (s': Service)
    requires serial in s.flights
  {
    var flight := s.flights[serial];
    s.(flights := s.flights - {serial},
       orphans := s.orphans[serial := flight.(driving := false, collision := flight.collision || collision)])
  }

  /** Last section of `drive_with_access` (`driving`) and of `release_with_access` (`!driving`). */
  function Finish(s: Service, serial: nat, update: Update, driving: bool, candidate: bool): (r: (Service, Verdict))
    requires serial in s.flights
    ensures Desk(r.0) == Desk(s)
  {
    var flight := s.flights[serial];
    if s.lifecycle == Retired then (Orphan(s, serial, update.Collided?), Orphaned)
    else
      match update
      case Keep(phase) =>
        var kept := flight.(driving := false, phase := if driving then phase else flight.phase);
        (s.(flights := s.flights[serial := kept]), Kept)
      case Complete => (FinishDisposal(s.(flights := s.flights - {serial})), Completed)
      case Collided => (FinishDisposal(Orphan(s, serial, true)), Orphaned)
      case Failed(healthy) =>
        var terminal := if driving && !candidate && healthy && flight.terminal.None?
                        then Some(OperationalFailure) else flight.terminal;
        (s.(flights := s.flights[serial := flight.(driving := false, terminal := terminal)]), Refused(Other))
  }

  datatype ReleaseStart = AlreadyReleased | Conflicting | Deferred | Began | Denied(error: Error)

  /** First section of `release_with_access`, the supersession authenticated. */
  function BeginRelease(s: Service, candidate: bool, handle: Handle, intent: Intent): (r: (Service, ReleaseStart))
    ensures Desk(r.0) == Desk(s)
  {
    if !Accessible(s, candidate) then (s, Denied(Denial(s, candidate)))
    else if Has(s.orphans, handle) && s.orphans[handle.serial].collision then (s, Denied(ReconciliationCollision))
    else if !Has(s.flights, handle) then (s, AlreadyReleased)
    else
      var flight := s.flights[handle.serial];
      if flight.terminal.Some? && flight.terminal.value != intent then (s, Conflicting)
      else
        var marked := flight.(terminal := Some(intent), driving := true);
        (s.(flights := s.flights[handle.serial := marked]), if flight.driving then Deferred else Began)
  }

  /** `retire`: driving flights stay for their own finish, the others become orphans. */
  function Retire(s: Service): (s': Service)
  {
    s.(lifecycle := Retired, flights := Drivers(s.flights), orphans := s.orphans + Parked(s.flights))
  }

  function Drivers(flights: map<nat, Flight>): (m: map<nat, Flight>)
  {
    map k | k in flights && flights[k].driving :: flights[k]
  }

  function Parked(flights: map<nat, Flight>): (m: map<nat, Flight>)
  {
    map k | k in flights && !flights[k].driving :: flights[k]
  }

  datatype Admission =
    | Admitted(handle: Handle) | Coalesced(handle: Handle) | Conflict | Saturated | NotAdmitted(error: Error)

  predicate OwnsOperation(flights: map<nat, Flight>, operation: nat)
  {
    exists k :: k in flights && flights[k].handle.request.operation == operation
  }

  predicate OwnsStaging(flights: map<nat, Flight>, staging: nat)
  {
    exists k :: k in flights && flights[k].handle.request.staging == staging
  }

  /** Why a request opens no new flight, if it does not. */
  ghost function Turned(s: Service, candidate: bool, request: Request): (r: Option<Admission>)
  {
    if !Accessible(s, candidate) then Some(NotAdmitted(Denial(s, candidate)))
    else if !candidate && s.lifecycle != Active then Some(NotAdmitted(Unavailable))
    else if OwnsOperation(s.flights + s.orphans, request.operation) then
      var all := s.flights + s.orphans;
      var k :| k in all && all[k].handle.request.operation == request.operation;
      Some(if all[k].handle.request == request then Coalesced(all[k].handle) else Conflict)
    else if OwnsStaging(s.flights + s.orphans, request.staging) then Some(Conflict)
    else if |s.flights| + |s.orphans| + s.reserved >= s.limit then Some(Saturated)
    else if s.nextSerial >= U64_MAX then Some(NotAdmitted(Other))
    else None
  }

  function Enroll(s: Service, request: Request): (s': Service)
    ensures Desk(s') == Desk(s)
  {
    s.(nextSerial := s.nextSerial + 1,
       flights := s.flights[s.nextSerial := Flight(Handle(s.nextSerial, request), PendingBegin, false, None, false)])
  }

  ghost function Admit(s: Service, candidate: bool, request: Request): (r: (Service, Admission))
    ensures Desk(r.0) == Desk(s)
  {
    match Turned(s, candidate, request)
    case Some(refusal) => (s, refusal)
    case None => (Enroll(s, request), Admitted(Handle(s.nextSerial, request)))
  }

  /** First section of `dispose`. */
  function MarkDisposed(s: Service): (s': Service)
    ensures Desk(s') == Desk(s)
  {
    var t := if s.lifecycle == Active then s.(lifecycle := Disposing) else s;
    if t.orphans != map[] || t.reserved != 0 then t
    else if t.lifecycle == Disposed || t.flights == map[] then t.(lifecycle := Disposed)
    else
      t.(flights := map k | k in t.flights ::
           if t.flights[k].terminal.None? then t.flights[k].(terminal := Some(ServiceDisposed)) else t.flights[k])
  }

  /** Flights taken out of a failed home, until a recovery candidate takes them over. */
  datatype Retained = Retained(
    original: nat, generation: nat, live: Option<map<nat, Flight>>, orphans: Option<map<nat, Flight>>, bound: bool)

  function Capture(s: Service): (r: (Service, Retained))
  {
    (s.(flights := map[], orphans := map[], reserved := |s.flights| + |s.orphans|, recoveryOwned := true,
        lifecycle := Retired),
     Retained(s.generation, s.generation, Some(s.flights), Some(s.orphans), false))
  }

  function Restore(s: Service, held: Retained): (s': Service)
  {
    s.(flights := if held.live.Some? then held.live.value else s.flights,
       orphans := if held.orphans.Some? then held.orphans.value else s.orphans,
       reserved := 0)
  }

  /** `bind_candidate`: the captured flights come back, and orphans without a collision become flights again. */
  function Bind(s: Service, held: Retained, generation: nat): (r: (Service, Retained))
  {
    var t := Restore(s, held);
    (t.(flights := t.flights + map k | k in t.orphans && !t.orphans[k].collision :: t.orphans[k],
        orphans := map k | k in t.orphans && t.orphans[k].collision :: t.orphans[k],
        generation := generation, lifecycle := Recovering),
     Retained(held.original, generation, None, None, true))
  }

  function Release(s: Service, held: Retained): (s': Service)
  {
    if s.generation != held.generation || s.borrows != 0 then s
    else Restore(s, held).(recoveryOwned := false, lifecycle := Retired)
  }

  // Runs

  /** A call between its first and last section works on one flight. */
  datatype Call = Call(candidate: bool, work: Option<Handle>, driving: bool)

  datatype World = World(service: Service, calls: map<nat, Call>, retained: Option<Retained>, completed: set<nat>)

  datatype Op =
    | Borrow(call: nat, candidate: bool)
    | Unborrow(call: nat)
    | AdmitOp(call: nat, request: Request)
    | BeginDriveOp(call: nat, handle: Handle)
    | BeginReleaseOp(call: nat, handle: Handle, intent: Intent)
    | FinishOp(call: nat, update: Update)
    | RetireOp
    | DisposeOp(call: nat)
    | CaptureOp
    | BindOp(generation: nat)
    | ReleaseOp

  predicate Idle(w: World, call: nat)
  {
    call in w.calls && w.calls[call].work.None?
  }

  /** Calls take turns as the borrow, the lock and the exclusive borrow of the retained flights allow. */
  predicate Enabled(w: World, op: Op)
  {
    var s := w.service;
    match op
    case Borrow(call, candidate) =>
      && call !in w.calls && s.recoveryOwned == candidate && s.borrows < USIZE_MAX
      && (candidate ==> w.retained.Some? && w.retained.value.bound)
    case Unborrow(call) => Idle(w, call)
    case AdmitOp(call, _) => Idle(w, call)
    case BeginDriveOp(call, _) => Idle(w, call)
    case BeginReleaseOp(call, _, _) => Idle(w, call)
    case FinishOp(call, _) => call in w.calls && w.calls[call].work.Some?
    case RetireOp => !s.recoveryOwned
    case DisposeOp(call) => Idle(w, call) && Accessible(s, w.calls[call].candidate) && !w.calls[call].candidate
    case CaptureOp => !s.recoveryOwned && s.borrows == 0
    case BindOp(generation) =>
      && w.retained.Some? && s.borrows == 0
      && generation != w.retained.value.original && generation != w.retained.value.generation
    case ReleaseOp => w.retained.Some? && w.calls == map[]
  }

  function FinishStep(w: World, call: nat, update: Update): (w': World)
    requires call in w.calls && w.calls[call].work.Some?
  {
    var c := w.calls[call];
    var idle := w.calls[call := c.(work := None)];
    if !Has(w.service.flights, c.work.value) then w.(calls := idle)
    else
      var serial := c.work.value.serial;
      var (t, verdict) := Finish(w.service, serial, update, c.driving, c.candidate);
      World(t, idle, w.retained, if verdict == Completed then w.completed + {serial} else w.completed)
  }

  ghost function Next(w: World, op: Op): (w': World)
    requires Enabled(w, op)
  {
    var s := w.service;
    match op
    case Borrow(call, candidate) =>
      w.(service := s.(borrows := s.borrows + 1), calls := w.calls[call := Call(candidate, None, false)])
    case Unborrow(call) =>
      w.(service := s.(borrows := if s.borrows > 0 then s.borrows - 1 else 0), calls := w.calls - {call})
    case AdmitOp(call, request) => w.(service := Admit(s, w.calls[call].candidate, request).0)
    case BeginDriveOp(call, handle) =>
      (match BeginDrive(s, w.calls[call].candidate, handle)
       case Err(_) => w
       case Ok(t) => w.(service := t, calls := w.calls[call := w.calls[call].(work := Some(handle), driving := true)]))
    case BeginReleaseOp(call, handle, intent) =>
      var (t, start) := BeginRelease(s, w.calls[call].candidate, handle, intent);
      w.(service := t,
         calls := if start == Began then w.calls[call := w.calls[call].(work := Some(handle), driving := false)]
                  else w.calls)
    case FinishOp(call, update) => FinishStep(w, call, update)
    case RetireOp => w.(service := Retire(s))
    case DisposeOp(call) => w.(service := MarkDisposed(s))
    case CaptureOp => var (t, held) := Capture(s); w.(service := t, retained := Some(held))
    case BindOp(generation) =>
      var (t, held) := Bind(s, w.retained.value, generation);
      w.(service := t, retained := Some(held))
    case ReleaseOp => w.(service := Release(s, w.retained.value), retained := None)
  }

  // Every admitted handle is in exactly one place

  function HeldLive(w: World): (m: map<nat, Flight>)
  {
    if w.retained.Some? && w.retained.value.live.Some? then w.retained.value.live.value else map[]
  }

  function HeldOrphans(w: World): (m: map<nat, Flight>)
  {
    if w.retained.Some? && w.retained.value.orphans.Some? then w.retained.value.orphans.value else map[]
  }

  /** The number of places that hold the flight with this serial. */
  function Places(w: World, serial: nat): (n: nat)
  {
    One(serial in w.service.flights) + One(serial in w.service.orphans) + One(serial in HeldLive(w)) +
    One(serial in HeldOrphans(w)) + One(serial in w.completed)
  }

  ghost predicate Placed(w: World)
  {
    forall k: nat :: Places(w, k) == One(1 <= k < w.service.nextSerial)
  }

  /** Every running call holds one borrow, of the kind the service is open to. */
  ghost predicate Borrowed(w: World)
  {
    && w.service.borrows == |w.calls|
    && (forall c :: c in w.calls ==> w.calls[c].candidate == w.service.recoveryOwned)
  }

  /** While the flights are captured the service holds none; otherwise the capture holds none. */
  ghost predicate Captured(w: World)
  {
    var s := w.service;
    && s.nextSerial >= 1
    && (s.recoveryOwned <==> w.retained.Some?)
    && (w.retained.Some? ==> w.retained.value.generation == s.generation)
    && (w.retained.Some? && !w.retained.value.bound ==>
          && w.retained.value.live.Some? && w.retained.value.orphans.Some? && w.calls == map[]
          && s.flights == map[] && s.orphans == map[] && s.lifecycle == Retired
          && s.reserved == |HeldLive(w)| + |HeldOrphans(w)|)
    && (w.retained.Some? && w.retained.value.bound ==> w.retained.value.live.None? && w.retained.value.orphans.None?)
    && (w.retained.None? || w.retained.value.bound ==> s.reserved == 0)
  }

  ghost predicate Bounded(s: Service)
  {
    |s.flights| + |s.orphans| + s.reserved <= s.limit
  }

  ghost predicate Custody(w: World)
  {
    Borrowed(w) && Captured(w) && Bounded(w.service)
  }

  ghost predicate Resting(flights: map<nat, Flight>)
  {
    forall k :: k in flights ==> !flights[k].driving
  }

  /** A flight is driving exactly while one call works on it, and no two calls work on one flight. */
  ghost predicate Working(flights: map<nat, Flight>, calls: map<nat, Call>)
  {
    && (forall c :: c in calls && calls[c].work.Some? ==>
                      Has(flights, calls[c].work.value) && flights[calls[c].work.value.serial].driving)
    && (forall c, d :: c in calls && d in calls && calls[c].work.Some? && calls[d].work.Some? && c != d ==>
                         calls[c].work.value.serial != calls[d].work.value.serial)
    && (forall k :: k in flights && flights[k].driving ==>
                      exists c :: c in calls && calls[c].work == Some(flights[k].handle))
  }

  predicate Live(f: Flight, k: nat)
  {
    f.handle.serial == k && !f.collision
  }

  predicate AtRest(f: Flight, k: nat)
  {
    f.handle.serial == k && !f.driving
  }

  /** Flights are filed under their serial; only a flight of the service may be driving, only an orphan may
      carry a collision. */
  predicate Tidy(w: World, k: nat)
  {
    && (k in w.service.flights ==> Live(w.service.flights[k], k))
    && (k in w.service.orphans ==> AtRest(w.service.orphans[k], k))
    && (k in HeldLive(w) ==> Live(HeldLive(w)[k], k) && AtRest(HeldLive(w)[k], k))
    && (k in HeldOrphans(w) ==> AtRest(HeldOrphans(w)[k], k))
  }

  ghost predicate AllTidy(w: World)
  {
    forall k: nat :: Tidy(w, k)
  }

  ghost predicate Inv(w: World)
  {
    Placed(w) && Custody(w) && AllTidy(w) && Working(w.service.flights, w.calls)
  }

  // Preservation

  lemma FinishPlaces(s: Service, serial: nat, update: Update, driving: bool, candidate: bool, k: nat)
    requires serial in s.flights
    ensures var (t, verdict) := Finish(s, serial, update, driving, candidate);
            && t.nextSerial == s.nextSerial
            && (k != serial ==> (k in t.flights <==> k in s.flights) && (k in t.orphans <==> k in s.orphans))
            && (verdict == Completed ==> serial !in t.flights && t.orphans == s.orphans)
            && (verdict == Orphaned ==> serial !in t.flights && serial in t.orphans)
            && (verdict != Orphaned && verdict != Completed ==> serial in t.flights && t.orphans == s.orphans)
  {
  }

  lemma AdmitPlaces(s: Service, candidate: bool, request: Request, k: nat)
    ensures var t := Admit(s, candidate, request).0;
            && t.orphans == s.orphans
            && (k in t.flights <==> k in s.flights || s.nextSerial <= k < t.nextSerial)
            && s.nextSerial <= t.nextSerial <= s.nextSerial + 1
  {
  }

  lemma BeginPlaces(s: Service, candidate: bool, handle: Handle, intent: Intent)
    ensures var t := BeginRelease(s, candidate, handle, intent).0;
            t.flights.Keys == s.flights.Keys && t.orphans == s.orphans && t.nextSerial == s.nextSerial
    ensures var r := BeginDrive(s, candidate, handle);
            r.Ok? ==> r.value.flights.Keys == s.flights.Keys && r.value.orphans == s.orphans &&
                      r.value.nextSerial == s.nextSerial
  {
  }

  lemma RestorePlaces(w: World, k: nat)
    requires Captured(w) && w.retained.Some?
    ensures var t := Restore(w.service, w.retained.value);
            && (k in t.flights <==> k in w.service.flights || k in HeldLive(w))
            && (k in t.orphans <==> k in w.service.orphans || k in HeldOrphans(w))
            && t.nextSerial == w.service.nextSerial
  {
  }

  lemma FinishStepPlaces(w: World, call: nat, update: Update, k: nat)
    requires call in w.calls && w.calls[call].work.Some? && Places(w, k) <= 1
    ensures var w' := FinishStep(w, call, update);
            Places(w', k) == Places(w, k) && w'.service.nextSerial == w.service.nextSerial
  {
    var c := w.calls[call];
    if Has(w.service.flights, c.work.value) {
      FinishPlaces(w.service, c.work.value.serial, update, c.driving, c.candidate, k);
    }
  }

  /** One step moves a flight between places, never in or out of all of them. */
  lemma PlacesKept(w: World, op: Op, k: nat)
    requires Borrowed(w) && Captured(w) && Enabled(w, op) && Places(w, k) == One(1 <= k < w.service.nextSerial)
    ensures Places(Next(w, op), k) == One(1 <= k < Next(w, op).service.nextSerial)
  {
    match op
    case AdmitOp(call, request) => AdmitPlaces(w.service, w.calls[call].candidate, request, k);
    case BeginDriveOp(call, handle) => BeginPlaces(w.service, w.calls[call].candidate, handle, Cancelled);
    case BeginReleaseOp(call, handle, intent) => BeginPlaces(w.service, w.calls[call].candidate, handle, intent);
    case FinishOp(call, update) => FinishStepPlaces(w, call, update, k);
    case BindOp(_) => RestorePlaces(w, k);
    case ReleaseOp => RestorePlaces(w, k);
    case _ =>
  }

  lemma PartSize(m: map<nat, Flight>, a: map<nat, Flight>, b: map<nat, Flight>)
    requires a.Keys !! b.Keys && m.Keys == a.Keys + b.Keys
    ensures |m| == |a| + |b|
  {
    assert |m.Keys| == |a.Keys| + |b.Keys|;
  }

  lemma UnionSize(a: map<nat, Flight>, b: map<nat, Flight>)
    ensures |a + b| <= |a| + |b|
  {
    assert (a + b).Keys == a.Keys + (b.Keys - a.Keys);
    assert |b.Keys - a.Keys| <= |b.Keys|;
  }

  lemma UpdateSize(m: map<nat, Flight>, k: nat, f: Flight)
    ensures |m[k := f]| == |m| + One(k !in m)
    ensures |m - {k}| == |m| - One(k in m)
  {
    assert m[k := f].Keys == m.Keys + {k};
    assert (m - {k}).Keys == m.Keys - {k};
  }

  lemma FinishSize(s: Service, serial: nat, update: Update, driving: bool, candidate: bool)
    requires serial in s.flights
    ensures var t := Finish(s, serial, update, driving, candidate).0;
            |t.flights| + |t.orphans| <= |s.flights| + |s.orphans|
  {
  }

  /** Finishing touches only the two collections and the end of a disposal. */
  lemma FinishFrame(s: Service, serial: nat, update: Update, driving: bool, candidate: bool)
    requires serial in s.flights
    ensures var t := Finish(s, serial, update, driving, candidate).0;
            && t.reserved == s.reserved && t.recoveryOwned == s.recoveryOwned && t.borrows == s.borrows
            && t.nextSerial == s.nextSerial && t.generation == s.generation && t.limit == s.limit
            && (s.lifecycle == Retired ==> t.lifecycle == Retired)
  {
  }

  lemma RetireSize(s: Service)
    ensures |Retire(s).flights| + |Retire(s).orphans| <= |s.flights| + |s.orphans|
  {
    DriversSize(s.flights);
    UnionSize(s.orphans, Parked(s.flights));
  }

  lemma DriversSize(flights: map<nat, Flight>)
    ensures |Drivers(flights)| + |Parked(flights)| == |flights|
  {
    var drivers, parked := Drivers(flights).Keys, Parked(flights).Keys;
    assert drivers !! parked;
    assert flights.Keys == drivers + parked;
  }

  lemma BindSize(s: Service, held: Retained, generation: nat)
    ensures var (t, r) := (Restore(s, held), Bind(s, held, generation).0);
            |r.flights| + |r.orphans| <= |t.flights| + |t.orphans|
  {
    var t, r := Restore(s, held), Bind(s, held, generation).0;
    var clean := map k | k in t.orphans && !t.orphans[k].collision :: t.orphans[k];
    PartSize(t.orphans, clean, r.orphans);
    UnionSize(t.flights, clean);
  }

  lemma CallsSize(calls: map<nat, Call>, call: nat, c: Call)
    ensures |calls[call := c]| == |calls| + if call in calls then 0 else 1
    ensures |calls - {call}| == |calls| - if call in calls then 1 else 0
  {
    assert calls[call := c].Keys == calls.Keys + {call};
    assert (calls - {call}).Keys == calls.Keys - {call};
  }

  lemma AdmitSize(s: Service, candidate: bool, request: Request)
    requires Bounded(s)
    ensures Bounded(Admit(s, candidate, request).0)
  {
    UpdateSize(s.flights, s.nextSerial, Flight(Handle(s.nextSerial, request), PendingBegin, false, None, false));
  }

  lemma MarkedSize(s: Service)
    ensures var t := MarkDisposed(s);
            t.flights.Keys == s.flights.Keys && |t.flights| == |s.flights| &&
            t.(flights := s.flights, lifecycle := s.lifecycle) == s
  {
    assert MarkDisposed(s).flights.Keys == s.flights.Keys;
  }

  lemma BorrowedSteady(w: World, op: Op)
    requires Borrowed(w) && Enabled(w, op) && !op.Borrow? && !op.Unborrow? && !op.CaptureOp? && !op.ReleaseOp?
    ensures Borrowed(Next(w, op))
  {
  }

  lemma BorrowedKept(w: World, op: Op)
    requires Borrowed(w) && Enabled(w, op)
    ensures Borrowed(Next(w, op))
  {
    match op
    case Borrow(call, candidate) => CallsSize(w.calls, call, Call(candidate, None, false));
    case Unborrow(call) => CallsSize(w.calls, call, w.calls[call]);
    case CaptureOp => assert w.calls == map[];
    case ReleaseOp =>
    case _ => BorrowedSteady(w, op);
  }

  lemma CapturedKept(w: World, op: Op)
    requires Borrowed(w) && Captured(w) && Enabled(w, op)
    ensures Captured(Next(w, op))
  {
    match op
    case FinishOp(call, update) =>
      var c := w.calls[call];
      if Has(w.service.flights, c.work.value) {
        FinishFrame(w.service, c.work.value.serial, update, c.driving, c.candidate);
      }
    case CaptureOp => assert w.calls == map[];
    case _ =>
  }

  lemma BoundedKept(w: World, op: Op)
    requires Borrowed(w) && Captured(w) && Bounded(w.service) && Enabled(w, op)
    ensures Bounded(Next(w, op).service)
  {
    var s := w.service;
    match op
    case AdmitOp(call, request) => AdmitSize(s, w.calls[call].candidate, request);
    case BeginDriveOp(call, handle) => BeginPlaces(s, w.calls[call].candidate, handle, Cancelled);
    case BeginReleaseOp(call, handle, intent) => BeginPlaces(s, w.calls[call].candidate, handle, intent);
    case FinishOp(call, update) =>
      var c := w.calls[call];
      if Has(s.flights, c.work.value) {
        FinishSize(s, c.work.value.serial, update, c.driving, c.candidate);
        FinishFrame(s, c.work.value.serial, update, c.driving, c.candidate);
      }
    case RetireOp => RetireSize(s);
    case DisposeOp(call) => MarkedSize(s);
    case BindOp(generation) => BindSize(s, w.retained.value, generation);
    case _ =>
  }

  lemma NoCalls(w: World)
    requires Borrowed(w) && Working(w.service.flights, w.calls) && w.service.borrows == 0
    ensures w.calls == map[] && Resting(w.service.flights)
  {
  }

  lemma FinishTidy(s: Service, serial: nat, update: Update, driving: bool, candidate: bool, k: nat)
    requires serial in s.flights
    requires k in s.flights ==> Live(s.flights[k], k)
    requires k in s.orphans ==> AtRest(s.orphans[k], k)
    ensures var t := Finish(s, serial, update, driving, candidate).0;
            (k in t.flights ==> Live(t.flights[k], k)) && (k in t.orphans ==> AtRest(t.orphans[k], k))
  {
  }

  lemma BeginTidy(s: Service, candidate: bool, handle: Handle, intent: Intent, k: nat)
    requires k in s.flights ==> Live(s.flights[k], k)
    ensures var t := BeginRelease(s, candidate, handle, intent).0;
            t.orphans == s.orphans && (k in t.flights ==> Live(t.flights[k], k))
    ensures var r := BeginDrive(s, candidate, handle);
            r.Ok? ==> r.value.orphans == s.orphans && (k in r.value.flights ==> Live(r.value.flights[k], k))
  {
  }

  lemma AdmitTidy(s: Service, candidate: bool, request: Request, k: nat)
    requires k in s.flights ==> Live(s.flights[k], k)
    ensures var t := Admit(s, candidate, request).0;
            t.orphans == s.orphans && (k in t.flights ==> Live(t.flights[k], k))
  {
  }

  lemma TransferTidy(w: World, op: Op, k: nat)
    requires Enabled(w, op) && Tidy(w, k) && (op.CaptureOp? || op.BindOp? || op.ReleaseOp?)
    requires op.CaptureOp? && k in w.service.flights ==> !w.service.flights[k].driving
    ensures Tidy(Next(w, op), k)
  {
  }

  lemma SweepTidy(w: World, op: Op, k: nat)
    requires Enabled(w, op) && Tidy(w, k) && (op.RetireOp? || op.DisposeOp?)
    ensures Tidy(Next(w, op), k)
  {
  }

  lemma TidyKept(w: World, op: Op, k: nat)
    requires Enabled(w, op) && Tidy(w, k)
    requires op.CaptureOp? && k in w.service.flights ==> !w.service.flights[k].driving
    ensures Tidy(Next(w, op), k)
  {
    match op
    case AdmitOp(call, request) => AdmitTidy(w.service, w.calls[call].candidate, request, k);
    case BeginDriveOp(call, handle) => BeginTidy(w.service, w.calls[call].candidate, handle, Cancelled, k);
    case BeginReleaseOp(call, handle, intent) => BeginTidy(w.service, w.calls[call].candidate, handle, intent, k);
    case FinishOp(call, update) =>
      var c := w.calls[call];
      if Has(w.service.flights, c.work.value) {
        FinishTidy(w.service, c.work.value.serial, update, c.driving, c.candidate, k);
      }
    case RetireOp => SweepTidy(w, op, k);
    case DisposeOp(_) => SweepTidy(w, op, k);
    case CaptureOp => TransferTidy(w, op, k);
    case BindOp(_) => TransferTidy(w, op, k);
    case ReleaseOp => TransferTidy(w, op, k);
    case _ =>
  }

  lemma WorkUpdate(flights: map<nat, Flight>, calls: map<nat, Call>, k: nat, f: Flight)
    requires Working(flights, calls) && k in flights
    requires f.handle == flights[k].handle && f.driving == flights[k].driving
    ensures Working(flights[k := f], calls)
  {
  }

  lemma WorkStart(flights: map<nat, Flight>, calls: map<nat, Call>, call: nat, f: Flight, driving: bool)
    requires Working(flights, calls) && call in calls && calls[call].work.None?
    requires Has(flights, f.handle) && !flights[f.handle.serial].driving && f.driving
    ensures Working(flights[f.handle.serial := f],
                    calls[call := calls[call].(work := Some(f.handle), driving := driving)])
  {
    var h := f.handle;
    var g, calls' := flights[h.serial := f], calls[call := calls[call].(work := Some(h), driving := driving)];
    forall j | j in g && g[j].driving
      ensures exists c :: c in calls' && calls'[c].work == Some(g[j].handle)
    {
      if j == h.serial {
        assert calls'[call].work == Some(g[j].handle);
      } else {
        var c :| c in calls && calls[c].work == Some(flights[j].handle);
        assert calls'[c].work == Some(g[j].handle);
      }
    }
  }

  lemma WorkEnd(flights: map<nat, Flight>, g: map<nat, Flight>, calls: map<nat, Call>, call: nat)
    requires Working(flights, calls) && call in calls && calls[call].work.Some?
    requires forall k :: k in flights ==> flights[k].handle.serial == k
    requires var serial := calls[call].work.value.serial;
             && (serial in g ==> !g[serial].driving)
             && (forall k :: k != serial ==> (k in g <==> k in flights) && (k in flights ==> g[k] == flights[k]))
    ensures Working(g, calls[call := calls[call].(work := None)])
  {
    var calls' := calls[call := calls[call].(work := None)];
    forall j | j in g && g[j].driving
      ensures exists c :: c in calls' && calls'[c].work == Some(g[j].handle)
    {
      var c :| c in calls && calls[c].work == Some(flights[j].handle);
      assert calls'[c].work == Some(g[j].handle);
    }
  }

  lemma WorkSame(flights: map<nat, Flight>, g: map<nat, Flight>, calls: map<nat, Call>)
    requires Working(flights, calls)
    requires forall k :: k in g ==> k in flights && g[k].handle == flights[k].handle
    requires forall k :: k in g ==> k in flights && g[k].driving == flights[k].driving
    requires forall k :: k in flights && flights[k].driving ==> k in g
    ensures Working(g, calls)
  {
  }

  lemma WorkIdle(flights: map<nat, Flight>, calls: map<nat, Call>, calls': map<nat, Call>)
    requires Working(flights, calls)
    requires forall c :: c in calls' && calls'[c].work.Some? ==> c in calls && calls[c] == calls'[c]
    requires forall c :: c in calls && calls[c].work.Some? ==> c in calls' && calls[c] == calls'[c]
    ensures Working(flights, calls')
  {
  }

  lemma WorkBeginDrive(w: World, call: nat, handle: Handle)
    requires Working(w.service.flights, w.calls) && Enabled(w, BeginDriveOp(call, handle))
    ensures var w' := Next(w, BeginDriveOp(call, handle));
            Working(w'.service.flights, w'.calls)
  {
    var s := w.service;
    if BeginDrive(s, w.calls[call].candidate, handle).Ok? {
      WorkStart(s.flights, w.calls, call, s.flights[handle.serial].(driving := true), true);
    }
  }

  lemma WorkBeginRelease(w: World, call: nat, handle: Handle, intent: Intent)
    requires Working(w.service.flights, w.calls) && Enabled(w, BeginReleaseOp(call, handle, intent))
    ensures var w' := Next(w, BeginReleaseOp(call, handle, intent));
            Working(w'.service.flights, w'.calls)
  {
    var s := w.service;
    var (t, start) := BeginRelease(s, w.calls[call].candidate, handle, intent);
    if start == Began {
      WorkStart(s.flights, w.calls, call, t.flights[handle.serial], false);
    } else if start == Deferred {
      WorkUpdate(s.flights, w.calls, handle.serial, t.flights[handle.serial]);
    }
  }

  lemma WorkFinish(w: World, call: nat, update: Update)
    requires Working(w.service.flights, w.calls) && AllTidy(w) && Enabled(w, FinishOp(call, update))
    ensures var w' := Next(w, FinishOp(call, update));
            Working(w'.service.flights, w'.calls)
  {
    var c := w.calls[call];
    assert forall k :: k in w.service.flights ==> Tidy(w, k);
    FinishOthers(w.service, c.work.value.serial, update, c.driving, c.candidate);
    WorkEnd(w.service.flights, Next(w, FinishOp(call, update)).service.flights, w.calls, call);
  }

  lemma WorkRetire(w: World)
    requires Working(w.service.flights, w.calls)
    ensures Working(Retire(w.service).flights, w.calls)
  {
  }

  lemma WorkDispose(w: World)
    requires Working(w.service.flights, w.calls)
    ensures Working(MarkDisposed(w.service).flights, w.calls)
  {
    MarkedFlights(w.service);
    WorkSame(w.service.flights, MarkDisposed(w.service).flights, w.calls);
  }

  lemma MarkedFlights(s: Service)
    ensures var g := MarkDisposed(s).flights;
            forall k :: (k in g <==> k in s.flights) &&
                        (k in g ==> g[k].handle == s.flights[k].handle && g[k].driving == s.flights[k].driving)
  {
  }

  lemma WorkRestored(w: World, op: Op)
    requires Borrowed(w) && AllTidy(w) && Working(w.service.flights, w.calls)
    requires Enabled(w, op) && (op.BindOp? || op.ReleaseOp? || op.CaptureOp?)
    ensures Next(w, op).calls == map[] && Resting(Next(w, op).service.flights)
  {
    NoCalls(w);
    forall k | k in Next(w, op).service.flights
      ensures !Next(w, op).service.flights[k].driving
    {
      assert Tidy(w, k);
    }
  }

  lemma WorkingKept(w: World, op: Op)
    requires Placed(w) && Borrowed(w) && AllTidy(w) && Working(w.service.flights, w.calls) && Enabled(w, op)
    ensures Working(Next(w, op).service.flights, Next(w, op).calls)
  {
    match op
    case Borrow(_, _) => WorkIdle(w.service.flights, w.calls, Next(w, op).calls);
    case Unborrow(_) => WorkIdle(w.service.flights, w.calls, Next(w, op).calls);
    case AdmitOp(_, _) => WorkAdmit(w, op);
    case BeginDriveOp(call, handle) => WorkBeginDrive(w, call, handle);
    case BeginReleaseOp(call, handle, intent) => WorkBeginRelease(w, call, handle, intent);
    case FinishOp(call, update) => WorkFinish(w, call, update);
    case RetireOp => WorkRetire(w);
    case DisposeOp(_) => WorkDispose(w);
    case _ => WorkRestored(w, op);
  }

  lemma WorkAdmit(w: World, op: Op)
    requires Placed(w) && Working(w.service.flights, w.calls) && Enabled(w, op) && op.AdmitOp?
    ensures Working(Next(w, op).service.flights, Next(w, op).calls)
  {
    var s, t := w.service, Next(w, op).service;
    assert Places(w, s.nextSerial) == 0;
    forall j | j in t.flights && t.flights[j].driving
      ensures exists c :: c in w.calls && w.calls[c].work == Some(t.flights[j].handle)
    {
      assert j in s.flights && s.flights[j].driving;
    }
  }

  lemma FinishOthers(s: Service, serial: nat, update: Update, driving: bool, candidate: bool)
    requires serial in s.flights
    ensures var t := Finish(s, serial, update, driving, candidate).0;
            && (serial in t.flights ==> !t.flights[serial].driving)
            && (forall k :: k != serial ==>
                  (k in t.flights <==> k in s.flights) && (k in s.flights ==> t.flights[k] == s.flights[k]))
  {
  }

  lemma InvKept(w: World, op: Op)
    requires Inv(w) && Enabled(w, op)
    ensures Inv(Next(w, op))
  {
    forall k: nat
      ensures Places(Next(w, op), k) == One(1 <= k < Next(w, op).service.nextSerial)
    {
      PlacesKept(w, op, k);
    }
    BorrowedKept(w, op);
    CapturedKept(w, op);
    BoundedKept(w, op);
    if op.CaptureOp? {
      NoCalls(w);
    }
    forall k: nat
      ensures Tidy(Next(w, op), k)
    {
      assert Tidy(w, k);
      TidyKept(w, op, k);
    }
    WorkingKept(w, op);
  }

  // Whole runs

  function Start(limit: nat): (w: World)
  {
    World(Service(map[], map[], 0, false, 0, 1, Active, 1, limit), map[], None, {})
  }

  ghost predicate Run(states: seq<World>, ops: seq<Op>)
  {
    && |states| == |ops| + 1
    && states[0] == Start(states[0].service.limit)
    && (forall i :: 0 <= i < |ops| ==> Enabled(states[i], ops[i]) && states[i + 1] == Next(states[i], ops[i]))
  }

  lemma {:induction false} RunInv(states: seq<World>, ops: seq<Op>, i: nat)
    requires Run(states, ops) && i < |states|
    ensures Inv(states[i])
  {
    if i == 0 {
      assert forall k: nat :: Tidy(states[0], k);
    } else {
      RunInv(states, ops, i - 1);
      InvKept(states[i - 1], ops[i - 1]);
    }
  }

  /** Every serial ever issued is in exactly one of flights, orphans, the two captured collections and the
      completed set, whatever was driven, released, retired, captured or recovered; and the custody never
      exceeds its configured limit. */
  lemma ExactlyOnePlace(states: seq<World>, ops: seq<Op>, i: nat, serial: nat)
    requires Run(states, ops) && i < |states|
    ensures Places(states[i], serial) == 1 <==> 1 <= serial < states[i].service.nextSerial
    ensures Places(states[i], serial) <= 1
    ensures |states[i].service.flights| + |states[i].service.orphans| + |HeldLive(states[i])| + |HeldOrphans(states[i])|
            <= states[i].service.limit
  {
    RunInv(states, ops, i);
  }

  /** A call always finds its own flight at its finish, driven: the early "generation changed" return of the last
      section is never taken. */
  lemma CallHoldsFlight(states: seq<World>, ops: seq<Op>, i: nat, c: nat)
    requires Run(states, ops) && i < |states| && c in states[i].calls && states[i].calls[c].work.Some?
    ensures Has(states[i].service.flights, states[i].calls[c].work.value)
    ensures states[i].service.flights[states[i].calls[c].work.value.serial].driving
  {
    RunInv(states, ops, i);
  }

  /** No flight is driven by two calls at once. */
  lemma OneDriver(states: seq<World>, ops: seq<Op>, i: nat, c: nat, d: nat)
    requires Run(states, ops) && i < |states| && c in states[i].calls && d in states[i].calls && c != d
    requires states[i].calls[c].work.Some? && states[i].calls[d].work.Some?
    ensures states[i].calls[c].work.value.serial != states[i].calls[d].work.value.serial
  {
    RunInv(states, ops, i);
  }

  /** After retirement a finishing flight always becomes an orphan; a collision always becomes a flagged one. */
  lemma FinishOrphans(states: seq<World>, ops: seq<Op>, i: nat)
    requires Run(states, ops) && i < |ops| && ops[i].FinishOp?
    requires states[i].service.lifecycle == Retired || ops[i].update.Collided?
    ensures var serial := states[i].calls[ops[i].call].work.value.serial;
            var orphans := states[i + 1].service.orphans;
            && serial in orphans && !orphans[serial].driving && serial !in states[i + 1].service.flights
            && (orphans[serial].collision <==> ops[i].update.Collided?)
  {
    RunInv(states, ops, i);
    assert Tidy(states[i], states[i].calls[ops[i].call].work.value.serial);
  }

  /** Every copy of the flight with this serial carries a release intent. */
  predicate Ended(w: World, k: nat)
  {
    && k < w.service.nextSerial
    && (k in w.service.flights ==> w.service.flights[k].terminal.Some?)
    && (k in w.service.orphans ==> w.service.orphans[k].terminal.Some?)
    && (k in HeldLive(w) ==> HeldLive(w)[k].terminal.Some?)
    && (k in HeldOrphans(w) ==> HeldOrphans(w)[k].terminal.Some?)
  }

  lemma FinishEnded(s: Service, serial: nat, update: Update, driving: bool, candidate: bool, k: nat)
    requires serial in s.flights
    requires k in s.flights ==> s.flights[k].terminal.Some?
    requires k in s.orphans ==> s.orphans[k].terminal.Some?
    ensures var t := Finish(s, serial, update, driving, candidate).0;
            (k in t.flights ==> t.flights[k].terminal.Some?) && (k in t.orphans ==> t.orphans[k].terminal.Some?)
  {
  }

  lemma BeginEnded(w: World, op: Op, k: nat)
    requires Enabled(w, op) && Ended(w, k) && (op.BeginDriveOp? || op.BeginReleaseOp?)
    ensures Ended(Next(w, op), k)
  {
  }

  lemma AdmitEnded(w: World, op: Op, k: nat)
    requires Enabled(w, op) && Ended(w, k) && op.AdmitOp?
    ensures Ended(Next(w, op), k)
  {
  }

  lemma LastEnded(w: World, call: nat, update: Update, k: nat)
    requires call in w.calls && w.calls[call].work.Some? && Ended(w, k)
    ensures Ended(FinishStep(w, call, update), k)
  {
    var c := w.calls[call];
    if Has(w.service.flights, c.work.value) {
      FinishEnded(w.service, c.work.value.serial, update, c.driving, c.candidate, k);
      FinishFrame(w.service, c.work.value.serial, update, c.driving, c.candidate);
      assert HeldLive(FinishStep(w, call, update)) == HeldLive(w);
      assert HeldOrphans(FinishStep(w, call, update)) == HeldOrphans(w);
    }
  }

  lemma TransferEnded(w: World, op: Op, k: nat)
    requires Enabled(w, op) && Ended(w, k) && (op.CaptureOp? || op.BindOp? || op.ReleaseOp?)
    ensures Ended(Next(w, op), k)
  {
  }

  lemma SweepEnded(w: World, op: Op, k: nat)
    requires Enabled(w, op) && Ended(w, k) && (op.RetireOp? || op.DisposeOp?)
    ensures Ended(Next(w, op), k)
  {
  }

  lemma EndedKept(w: World, op: Op, k: nat)
    requires Enabled(w, op) && Ended(w, k)
    ensures Ended(Next(w, op), k)
  {
    match op
    case AdmitOp(_, _) => AdmitEnded(w, op, k);
    case BeginDriveOp(_, _) => BeginEnded(w, op, k);
    case BeginReleaseOp(_, _, _) => BeginEnded(w, op, k);
    case FinishOp(call, update) => LastEnded(w, call, update, k);
    case RetireOp => SweepEnded(w, op, k);
    case DisposeOp(_) => SweepEnded(w, op, k);
    case CaptureOp => TransferEnded(w, op, k);
    case BindOp(_) => TransferEnded(w, op, k);
    case ReleaseOp => TransferEnded(w, op, k);
    case _ =>
  }

  /** Once a flight has a release intent no drive of it ever starts again, even after retirement, capture and
      rebinding to a recovery candidate. */
  lemma {:induction false} EndedNeverDriven(states: seq<World>, ops: seq<Op>, i: nat, k: nat, serial: nat)
    requires Run(states, ops) && i <= k < |ops| && Ended(states[i], serial)
    ensures Ended(states[k], serial)
    ensures ops[k].BeginDriveOp? && ops[k].handle.serial == serial ==> states[k + 1] == states[k]
    decreases k
  {
    if i < k {
      EndedNeverDriven(states, ops, i, k - 1, serial);
      EndedKept(states[k - 1], ops[k - 1], serial);
    }
  }

  // Every flight is what happened to it

  /** What is to be known of one serial, told from the calls alone. */
  datatype Story = Story(request: Option<Request>, phase: Phase, intent: Option<Intent>, collided: bool)

  /** The first intent wins. */
  function Ending(story: Story, intent: Intent): (r: Story)
  {
    if story.intent.None? then story.(intent := Some(intent)) else story
  }

  /** A finish of the flight itself: a drive that keeps it outside retirement gives its phase, a collision marks it, and
      an ordinary drive that fails on a healthy store ends it. */
  function Finished(story: Story, update: Update, driving: bool, candidate: bool, retired: bool): (r: Story)
  {
    match update
    case Keep(phase) => if driving && !retired then story.(phase := phase) else story
    case Collided => story.(collided := true)
    case Failed(healthy) =>
      if driving && !candidate && healthy && !retired then Ending(story, OperationalFailure) else story
    case Complete => story
  }

  predicate WorksOn(w: World, call: nat, serial: nat)
  {
    call in w.calls && w.calls[call].work.Some? && w.calls[call].work.value.serial == serial
  }

  /** How one step continues the story of a serial. */
  function Tell(w: World, op: Op, w': World, serial: nat, story: Story): (r: Story)
  {
    match op
    case AdmitOp(_, request) =>
      if w.service.nextSerial == serial < w'.service.nextSerial then story.(request := Some(request)) else story
    case BeginReleaseOp(call, handle, intent) =>
      if handle.serial == serial && call in w.calls && Accessible(w.service, w.calls[call].candidate) &&
         Has(w.service.flights, handle) then Ending(story, intent) else story
    case FinishOp(call, update) =>
      if WorksOn(w, call, serial)
      then Finished(story, update, w.calls[call].driving, w.calls[call].candidate, w.service.lifecycle == Retired)
      else story
    case DisposeOp(_) =>
      if serial in w.service.flights && w.service.orphans == map[] then Ending(story, ServiceDisposed) else story
    case _ => story
  }

  ghost function Told(states: seq<World>, ops: seq<Op>, i: nat, serial: nat): (r: Story)
    requires i < |states| == |ops| + 1
  {
    if i == 0 then Story(None, PendingBegin, None, false)
    else Tell(states[i - 1], ops[i - 1], states[i], serial, Told(states, ops, i - 1, serial))
  }

  predicate Fits(f: Flight, serial: nat, story: Story)
  {
    && story.request.Some? && f.handle == Handle(serial, story.request.value)
    && f.phase == story.phase && f.terminal == story.intent && f.collision == story.collided
  }

  predicate FitsIn(m: map<nat, Flight>, serial: nat, story: Story)
  {
    serial in m ==> Fits(m[serial], serial, story)
  }

  predicate Tells(w: World, serial: nat, story: Story)
  {
    && (serial >= w.service.nextSerial ==> story == Story(None, PendingBegin, None, false))
    && FitsIn(w.service.flights, serial, story) && FitsIn(w.service.orphans, serial, story)
    && FitsIn(HeldLive(w), serial, story) && FitsIn(HeldOrphans(w), serial, story)
  }

  lemma FinishFits(s: Service, serial: nat, update: Update, driving: bool, candidate: bool, story: Story)
    requires serial in s.flights && serial !in s.orphans && Fits(s.flights[serial], serial, story)
    requires !s.flights[serial].collision
    ensures var t := Finish(s, serial, update, driving, candidate).0;
            var told := Finished(story, update, driving, candidate, s.lifecycle == Retired);
            FitsIn(t.flights, serial, told) && FitsIn(t.orphans, serial, told)
  {
  }

  lemma FinishFitsOther(s: Service, serial: nat, update: Update, driving: bool, candidate: bool, k: nat)
    requires serial in s.flights && k != serial
    ensures var t := Finish(s, serial, update, driving, candidate).0;
            && (k in t.flights ==> k in s.flights && t.flights[k] == s.flights[k])
            && (k in t.orphans ==> k in s.orphans && t.orphans[k] == s.orphans[k])
  {
  }

  lemma FinishTells(w: World, call: nat, update: Update, k: nat, story: Story)
    requires Inv(w) && Enabled(w, FinishOp(call, update)) && Tells(w, k, story)
    ensures var w' := FinishStep(w, call, update);
            Tells(w', k, Tell(w, FinishOp(call, update), w', k, story))
  {
    var c, w' := w.calls[call], FinishStep(w, call, update);
    var serial := c.work.value.serial;
    assert Tidy(w, serial) && Places(w, serial) == One(1 <= serial < w.service.nextSerial);
    FinishFrame(w.service, serial, update, c.driving, c.candidate);
    assert HeldLive(w') == HeldLive(w) && HeldOrphans(w') == HeldOrphans(w);
    if k == serial {
      FinishFits(w.service, serial, update, c.driving, c.candidate, story);
    } else {
      FinishFitsOther(w.service, serial, update, c.driving, c.candidate, k);
    }
  }

  lemma BeginFits(s: Service, candidate: bool, handle: Handle, intent: Intent, k: nat, story: Story)
    requires FitsIn(s.flights, k, story) && (k in s.flights ==> k !in s.orphans)
    ensures var t := BeginRelease(s, candidate, handle, intent).0;
            var granted := handle.serial == k && Accessible(s, candidate) && Has(s.flights, handle);
            FitsIn(t.flights, k, if granted then Ending(story, intent) else story)
    ensures var r := BeginDrive(s, candidate, handle);
            r.Ok? ==> FitsIn(r.value.flights, k, story)
  {
  }

  lemma BeginDriveTells(w: World, call: nat, handle: Handle, k: nat, story: Story)
    requires Inv(w) && Enabled(w, BeginDriveOp(call, handle)) && Tells(w, k, story)
    ensures Tells(Next(w, BeginDriveOp(call, handle)), k, story)
  {
    assert Places(w, k) == One(1 <= k < w.service.nextSerial);
    BeginFits(w.service, w.calls[call].candidate, handle, Cancelled, k, story);
    BeginPlaces(w.service, w.calls[call].candidate, handle, Cancelled);
  }

  lemma BeginReleaseTells(w: World, call: nat, handle: Handle, intent: Intent, k: nat, story: Story)
    requires Inv(w) && Enabled(w, BeginReleaseOp(call, handle, intent)) && Tells(w, k, story)
    ensures var w' := Next(w, BeginReleaseOp(call, handle, intent));
            Tells(w', k, Tell(w, BeginReleaseOp(call, handle, intent), w', k, story))
  {
    assert Places(w, k) == One(1 <= k < w.service.nextSerial);
    BeginFits(w.service, w.calls[call].candidate, handle, intent, k, story);
    BeginPlaces(w.service, w.calls[call].candidate, handle, intent);
  }

  lemma AdmitTells(w: World, op: Op, k: nat, story: Story)
    requires Inv(w) && Enabled(w, op) && Tells(w, k, story) && op.AdmitOp?
    ensures Tells(Next(w, op), k, Tell(w, op, Next(w, op), k, story))
  {
    assert Places(w, k) == One(1 <= k < w.service.nextSerial);
  }

  lemma MarkedFits(s: Service, k: nat, story: Story)
    requires FitsIn(s.flights, k, story) && s.reserved == 0 && (s.lifecycle == Active || s.lifecycle == Disposing)
    ensures FitsIn(MarkDisposed(s).flights, k,
                   if k in s.flights && s.orphans == map[] then Ending(story, ServiceDisposed) else story)
  {
  }

  lemma DisposeTells(w: World, call: nat, k: nat, story: Story)
    requires Inv(w) && Enabled(w, DisposeOp(call)) && Tells(w, k, story)
    ensures var w' := Next(w, DisposeOp(call));
            Tells(w', k, Tell(w, DisposeOp(call), w', k, story))
  {
    assert Places(w, k) == One(1 <= k < w.service.nextSerial);
    MarkedFits(w.service, k, story);
    MarkedSize(w.service);
  }

  lemma RetireTells(w: World, k: nat, story: Story)
    requires Enabled(w, RetireOp) && Tells(w, k, story)
    ensures Tells(Next(w, RetireOp), k, story)
  {
  }

  lemma TransferTells(w: World, op: Op, k: nat, story: Story)
    requires Enabled(w, op) && Tells(w, k, story) && (op.CaptureOp? || op.BindOp? || op.ReleaseOp?)
    ensures Tells(Next(w, op), k, Tell(w, op, Next(w, op), k, story))
  {
  }

  lemma TellsKept(w: World, op: Op, k: nat, story: Story)
    requires Inv(w) && Enabled(w, op) && Tells(w, k, story)
    ensures Tells(Next(w, op), k, Tell(w, op, Next(w, op), k, story))
  {
    match op
    case AdmitOp(_, _) => AdmitTells(w, op, k, story);
    case BeginDriveOp(call, handle) => BeginDriveTells(w, call, handle, k, story);
    case BeginReleaseOp(call, handle, intent) => BeginReleaseTells(w, call, handle, intent, k, story);
    case FinishOp(call, update) => FinishTells(w, call, update, k, story);
    case RetireOp => RetireTells(w, k, story);
    case DisposeOp(call) => DisposeTells(w, call, k, story);
    case CaptureOp => TransferTells(w, op, k, story);
    case BindOp(_) => TransferTells(w, op, k, story);
    case ReleaseOp => TransferTells(w, op, k, story);
    case _ =>
  }

  /** A flight, live, orphaned or captured, carries exactly the request it was admitted with, the phase, the intent and
      the collision that the calls gave it, through release, retirement, capture and rebinding. */
  lemma {:induction false} FlightIsItsStory(states: seq<World>, ops: seq<Op>, i: nat, serial: nat)
    requires Run(states, ops) && i < |states|
    ensures Tells(states[i], serial, Told(states, ops, i, serial))
  {
    if i > 0 {
      FlightIsItsStory(states, ops, i - 1, serial);
      RunInv(states, ops, i - 1);
      TellsKept(states[i - 1], ops[i - 1], serial, Told(states, ops, i - 1, serial));
    }
  }

  /** The flight in custody under a serial: live, orphaned or captured. */
  function Copy(w: World, serial: nat): (f: Option<Flight>)
  {
    if serial in w.service.flights then Some(w.service.flights[serial])
    else if serial in w.service.orphans then Some(w.service.orphans[serial])
    else if serial in HeldLive(w) then Some(HeldLive(w)[serial])
    else if serial in HeldOrphans(w) then Some(HeldOrphans(w)[serial])
    else None
  }

  /** A drive of this flight finishes outside retirement and keeps it. */
  predicate Advances(w: World, op: Op, serial: nat)
  {
    op.FinishOp? && op.update.Keep? && WorksOn(w, op.call, serial) && w.calls[op.call].driving &&
    w.service.lifecycle != Retired
  }

  lemma {:induction false} SamePhase(states: seq<World>, ops: seq<Op>, from: nat, i: nat, serial: nat)
    requires from <= i < |states| == |ops| + 1
    requires forall m :: from <= m < i ==> !Advances(states[m], ops[m], serial)
    ensures Told(states, ops, i, serial).phase == Told(states, ops, from, serial).phase
    decreases i
  {
    if from < i {
      SamePhase(states, ops, from, i - 1, serial);
      assert !Advances(states[i - 1], ops[i - 1], serial);
    }
  }

  /** The phase of a flight is that of the last drive that kept it, and the first phase if none did. */
  lemma PhaseIsLastKeep(states: seq<World>, ops: seq<Op>, from: nat, i: nat, serial: nat)
    requires Run(states, ops) && from <= i < |states| && Copy(states[i], serial).Some?
    requires from > 0 ==> Advances(states[from - 1], ops[from - 1], serial)
    requires forall m :: from <= m < i ==> !Advances(states[m], ops[m], serial)
    ensures Copy(states[i], serial).value.phase == if from == 0 then PendingBegin else ops[from - 1].update.phase
  {
    FlightIsItsStory(states, ops, i, serial);
    SamePhase(states, ops, from, i, serial);
  }

  lemma {:induction false} SameIntent(states: seq<World>, ops: seq<Op>, i: nat, k: nat, serial: nat)
    requires i <= k < |states| == |ops| + 1 && Told(states, ops, i, serial).intent.Some?
    ensures Told(states, ops, k, serial).intent == Told(states, ops, i, serial).intent
    decreases k
  {
    if i < k {
      SameIntent(states, ops, i, k - 1, serial);
    }
  }

  /** The first intent of a flight is its last. */
  lemma FirstIntentWins(states: seq<World>, ops: seq<Op>, i: nat, k: nat, serial: nat)
    requires Run(states, ops) && i <= k < |states|
    requires Copy(states[i], serial).Some? && Copy(states[i], serial).value.terminal.Some?
    ensures Copy(states[k], serial).Some? ==>
              Copy(states[k], serial).value.terminal == Copy(states[i], serial).value.terminal
  {
    FlightIsItsStory(states, ops, i, serial);
    FlightIsItsStory(states, ops, k, serial);
    SameIntent(states, ops, i, k, serial);
  }

  /** A failed drive leaves the flight live, resting and in its phase. On a healthy store an ordinary drive also leaves
      exactly `OperationalFailure` where no intent was; any other failure leaves the intent as it was. */
  lemma FailedDriveEnds(states: seq<World>, ops: seq<Op>, i: nat, serial: nat)
    requires Run(states, ops) && i < |ops| && ops[i].FinishOp? && ops[i].update.Failed?
    requires WorksOn(states[i], ops[i].call, serial) && states[i].service.lifecycle != Retired
    ensures var call := states[i].calls[ops[i].call];
            var f, t := states[i].service.flights, states[i + 1].service.flights;
            && serial in f && serial in t && !t[serial].driving && t[serial].phase == f[serial].phase
            && t[serial].terminal ==
               if call.driving && !call.candidate && ops[i].update.healthy && f[serial].terminal.None?
               then Some(OperationalFailure) else f[serial].terminal
  {
    RunInv(states, ops, i);
    FlightIsItsStory(states, ops, i, serial);
    FlightIsItsStory(states, ops, i + 1, serial);
    FinishPlaces(states[i].service, serial, ops[i].update, states[i].calls[ops[i].call].driving,
                 states[i].calls[ops[i].call].candidate, serial);
    FinishOthers(states[i].service, serial, ops[i].update, states[i].calls[ops[i].call].driving,
                 states[i].calls[ops[i].call].candidate);
  }

  // One flight per operation and per staging area

  /** A serial is in custody from its admission to its completion. */
  lemma InCustody(w: World, k: nat)
    requires Placed(w)
    ensures Copy(w, k).Some? <==> 1 <= k < w.service.nextSerial && k !in w.completed
  {
    assert Places(w, k) == One(1 <= k < w.service.nextSerial);
  }

  lemma CompletedStays(w: World, op: Op)
    requires Enabled(w, op)
    ensures w.completed <= Next(w, op).completed
  {
  }

  /** Custody grows only by the serial of an admission. */
  lemma CustodyStep(w: World, op: Op, k: nat)
    requires Inv(w) && Enabled(w, op) && Copy(Next(w, op), k).Some?
    ensures Copy(w, k).Some? || (k == w.service.nextSerial < Next(w, op).service.nextSerial && op.AdmitOp?)
  {
    InvKept(w, op);
    InCustody(w, k);
    InCustody(Next(w, op), k);
    CompletedStays(w, op);
    SerialStep(w, op);
  }

  lemma SerialStep(w: World, op: Op)
    requires Inv(w) && Enabled(w, op)
    ensures w.service.nextSerial <= Next(w, op).service.nextSerial <= w.service.nextSerial + 1
    ensures !op.AdmitOp? ==> Next(w, op).service.nextSerial == w.service.nextSerial
  {
    if op.FinishOp? {
      var c := w.calls[op.call];
      FinishFrame(w.service, c.work.value.serial, op.update, c.driving, c.candidate);
    }
  }

  predicate Apart(a: Handle, b: Handle)
  {
    a.request.operation != b.request.operation && a.request.staging != b.request.staging
  }

  lemma FreshRequest(s: Service, candidate: bool, request: Request, k: nat)
    requires Turned(s, candidate, request).None? && k in s.flights + s.orphans
    ensures Apart((s.flights + s.orphans)[k].handle, Handle(s.nextSerial, request))
  {
  }

  /** Nothing is captured while an admission succeeds. */
  lemma AdmittedUncaptured(w: World, call: nat, request: Request)
    requires Inv(w) && Enabled(w, AdmitOp(call, request)) && Turned(w.service, w.calls[call].candidate, request).None?
    ensures HeldLive(w) == map[] && HeldOrphans(w) == map[]
  {
  }

  /** An admitted request shares its operation and its staging area with no flight in custody. */
  lemma AdmittedApart(w: World, call: nat, request: Request, k: nat)
    requires Inv(w) && Enabled(w, AdmitOp(call, request)) && Copy(w, k).Some?
    requires Turned(w.service, w.calls[call].candidate, request).None?
    ensures Apart(Copy(w, k).value.handle, Handle(w.service.nextSerial, request))
  {
    AdmittedUncaptured(w, call, request);
    FreshRequest(w.service, w.calls[call].candidate, request, k);
    assert Places(w, k) == One(1 <= k < w.service.nextSerial);
  }

  lemma TellRequest(w: World, op: Op, w': World, k: nat, story: Story)
    requires k < w.service.nextSerial
    ensures Tell(w, op, w', k, story).request == story.request
  {
  }

  lemma SameRequest(states: seq<World>, ops: seq<Op>, i: nat, k: nat)
    requires Run(states, ops) && i < |ops| && Copy(states[i], k).Some? && Copy(states[i + 1], k).Some?
    ensures Copy(states[i + 1], k).value.handle == Copy(states[i], k).value.handle
  {
    RunInv(states, ops, i);
    InCustody(states[i], k);
    FlightIsItsStory(states, ops, i, k);
    FlightIsItsStory(states, ops, i + 1, k);
    TellRequest(states[i], ops[i], states[i + 1], k, Told(states, ops, i, k));
  }

  /** At every moment no two flights in custody share an operation or a staging area. */
  lemma {:induction false} OneFlightPerRequest(states: seq<World>, ops: seq<Op>, i: nat, k: nat, m: nat)
    requires Run(states, ops) && i < |states| && k < m
    requires Copy(states[i], k).Some? && Copy(states[i], m).Some?
    ensures Apart(Copy(states[i], k).value.handle, Copy(states[i], m).value.handle)
  {
    if i > 0 {
      RunInv(states, ops, i - 1);
      CustodyStep(states[i - 1], ops[i - 1], k);
      CustodyStep(states[i - 1], ops[i - 1], m);
      if Copy(states[i - 1], k).Some? {
        SameRequest(states, ops, i - 1, k);
        if Copy(states[i - 1], m).Some? {
          OneFlightPerRequest(states, ops, i - 1, k, m);
          SameRequest(states, ops, i - 1, m);
        } else {
          AdmittedApart(states[i - 1], ops[i - 1].call, ops[i - 1].request, k);
        }
      } else {
        InCustody(states[i - 1], m);
      }
    }
  }

  // What every call answers

  /** Ordinary calls work until retirement, those of a candidate while it recovers and no orphan has collided. */
  predicate Serving(w: World, candidate: bool)
  {
    if candidate then w.service.lifecycle == Recovering && !Collides(w)
    else w.service.lifecycle == Active || w.service.lifecycle == Disposing
  }

  predicate Collides(w: World)
  {
    exists k :: k in w.service.orphans && w.service.orphans[k].collision
  }

  /** Some flight in custody has the operation or the staging area of this request. */
  ghost predicate Shares(w: World, request: Request)
  {
    exists k :: Copy(w, k).Some? && !Apart(Copy(w, k).value.handle, Handle(0, request))
  }

  ghost predicate Holds(w: World, request: Request)
  {
    exists k :: Copy(w, k).Some? && Copy(w, k).value.handle.request == request
  }

  lemma ServingIsAccess(w: World, call: nat)
    requires Inv(w) && call in w.calls
    ensures Serving(w, w.calls[call].candidate) <==> Accessible(w.service, w.calls[call].candidate)
    ensures Serving(w, w.calls[call].candidate) ==>
              w.service.reserved == 0 && HeldLive(w) == map[] && HeldOrphans(w) == map[]
  {
  }

  lemma CopyHere(w: World, k: nat)
    requires Placed(w) && HeldLive(w) == map[] && HeldOrphans(w) == map[]
    ensures var all := w.service.flights + w.service.orphans;
            (Copy(w, k).Some? <==> k in all) && (k in all ==> Copy(w, k).value == all[k])
  {
    assert Places(w, k) == One(1 <= k < w.service.nextSerial);
  }

  /** Sharing, on the collections the service searches. */
  lemma SharesHere(w: World, request: Request)
    requires Placed(w) && HeldLive(w) == map[] && HeldOrphans(w) == map[]
    ensures var all := w.service.flights + w.service.orphans;
            Shares(w, request) <==> OwnsOperation(all, request.operation) || OwnsStaging(all, request.staging)
  {
    forall k: nat
      ensures var all := w.service.flights + w.service.orphans;
              (Copy(w, k).Some? <==> k in all) && (k in all ==> Copy(w, k).value == all[k])
    {
      CopyHere(w, k);
    }
  }

  /** A request opens a flight if and only if the service admits, no flight in custody shares its operation or staging
      area, and there is room. */
  lemma AdmitAnswer(states: seq<World>, ops: seq<Op>, i: nat)
    requires Run(states, ops) && i < |ops| && ops[i].AdmitOp?
    ensures var w, request := states[i], ops[i].request;
            var candidate := w.calls[ops[i].call].candidate;
            var open := Serving(w, candidate) && w.service.lifecycle != Disposing;
            var answer := Admit(w.service, candidate, request).1;
            && (answer.NotAdmitted? && answer.error != Other <==> !open)
            && (answer == Saturated <==>
                  open && !Shares(w, request) && |w.service.flights| + |w.service.orphans| >= w.service.limit)
            && (answer == Admitted(Handle(w.service.nextSerial, request)) <==>
                  && open && !Shares(w, request) && |w.service.flights| + |w.service.orphans| < w.service.limit
                  && w.service.nextSerial < 0xFFFF_FFFF_FFFF_FFFF)
            && (answer.Coalesced? || answer == Conflict <==> open && Shares(w, request))
            && (answer.Admitted? <==> states[i + 1].service.nextSerial == w.service.nextSerial + 1)
  {
    var w := states[i];
    RunInv(states, ops, i);
    ServingIsAccess(w, ops[i].call);
    if Serving(w, w.calls[ops[i].call].candidate) {
      SharesHere(w, ops[i].request);
    }
  }

  lemma OneOwner(states: seq<World>, ops: seq<Op>, i: nat, k: nat, m: nat)
    requires Run(states, ops) && i < |states| && Copy(states[i], k).Some? && Copy(states[i], m).Some?
    requires Copy(states[i], k).value.handle.request.operation == Copy(states[i], m).value.handle.request.operation
    ensures k == m
  {
    if k < m {
      OneFlightPerRequest(states, ops, i, k, m);
    } else if m < k {
      OneFlightPerRequest(states, ops, i, m, k);
    }
  }

  /** A request that is already in custody is coalesced with its flight; one that only shares is refused. */
  lemma CoalescedAnswer(states: seq<World>, ops: seq<Op>, i: nat)
    requires Run(states, ops) && i < |ops| && ops[i].AdmitOp?
    requires Serving(states[i], states[i].calls[ops[i].call].candidate) && states[i].service.lifecycle != Disposing
    requires Shares(states[i], ops[i].request)
    ensures var w, request := states[i], ops[i].request;
            var answer := Admit(w.service, w.calls[ops[i].call].candidate, request).1;
            && (answer == Conflict <==> !Holds(w, request))
            && (answer.Coalesced? ==> exists k :: Copy(w, k).Some? && Copy(w, k).value.handle == answer.handle)
            && (answer.Coalesced? ==> answer.handle.request == request)
  {
    var w, request := states[i], ops[i].request;
    var all := w.service.flights + w.service.orphans;
    RunInv(states, ops, i);
    ServingIsAccess(w, ops[i].call);
    SharesHere(w, request);
    if OwnsOperation(all, request.operation) {
      var k :| k in all && all[k].handle.request.operation == request.operation &&
               Admit(w.service, w.calls[ops[i].call].candidate, request).1 ==
               if all[k].handle.request == request then Coalesced(all[k].handle) else Conflict;
      CopyHere(w, k);
      if Holds(w, request) {
        var h :| Copy(w, h).Some? && Copy(w, h).value.handle.request == request;
        OneOwner(states, ops, i, k, h);
      }
    } else if Holds(w, request) {
      var h :| Copy(w, h).Some? && Copy(w, h).value.handle.request == request;
      CopyHere(w, h);
      assert false;
    }
  }

  predicate Flying(w: World, handle: Handle)
  {
    handle.serial in w.service.flights && w.service.flights[handle.serial].handle == handle
  }

  predicate Crashed(w: World, handle: Handle)
  {
    handle.serial in w.service.orphans && w.service.orphans[handle.serial].handle == handle &&
    w.service.orphans[handle.serial].collision
  }

  /** A drive starts if and only if the service serves the call and the flight is live, resting and without intent. */
  lemma DriveAnswer(states: seq<World>, ops: seq<Op>, i: nat)
    requires Run(states, ops) && i < |ops| && ops[i].BeginDriveOp?
    ensures var w, h := states[i], ops[i].handle;
            var candidate := w.calls[ops[i].call].candidate;
            var answer := BeginDrive(w.service, candidate, h);
            && (answer.Ok? <==> states[i + 1].calls[ops[i].call].work == Some(h))
            && (!Serving(w, candidate) ==>
                  answer == Err(if candidate && w.service.lifecycle == Recovering then ReconciliationCollision
                                else Unavailable))
            && (Serving(w, candidate) && !Flying(w, h) ==>
                  answer == Err(if Crashed(w, h) then ReconciliationCollision else StaleFlight))
            && (Serving(w, candidate) && Flying(w, h) ==>
                  var f := w.service.flights[h.serial];
                  if f.driving then answer == Err(FlightBusy)
                  else if f.terminal.Some? then answer == Err(TerminalSettlementRequired)
                  else answer.Ok?)
  {
    RunInv(states, ops, i);
    ServingIsAccess(states[i], ops[i].call);
    assert Places(states[i], ops[i].handle.serial) == One(1 <= ops[i].handle.serial < states[i].service.nextSerial);
  }

  /** A release begins under the same access; it only waits where the flight is being driven, and conflicts exactly with
      another intent. */
  lemma ReleaseAnswer(states: seq<World>, ops: seq<Op>, i: nat)
    requires Run(states, ops) && i < |ops| && ops[i].BeginReleaseOp?
    ensures var w, h := states[i], ops[i].handle;
            var candidate := w.calls[ops[i].call].candidate;
            var answer := BeginRelease(w.service, candidate, h, ops[i].intent).1;
            && (answer == Began <==> states[i + 1].calls[ops[i].call].work == Some(h))
            && (answer.Denied? <==> !Serving(w, candidate) || Crashed(w, h))
            && (Serving(w, candidate) && !Flying(w, h) && !Crashed(w, h) ==> answer == AlreadyReleased)
            && (Serving(w, candidate) && Flying(w, h) ==>
                  var f := w.service.flights[h.serial];
                  if f.terminal.Some? && f.terminal.value != ops[i].intent then answer == Conflicting
                  else answer == if f.driving then Deferred else Began)
  {
    RunInv(states, ops, i);
    ServingIsAccess(states[i], ops[i].call);
    assert Places(states[i], ops[i].handle.serial) == One(1 <= ops[i].handle.serial < states[i].service.nextSerial);
  }

  /** What a finish answers is where the flight goes. */
  lemma FinishAnswer(states: seq<World>, ops: seq<Op>, i: nat)
    requires Run(states, ops) && i < |ops| && ops[i].FinishOp?
    ensures var w, call := states[i], states[i].calls[ops[i].call];
            var serial := call.work.value.serial;
            && serial in w.service.flights
            && (var verdict := Finish(w.service, serial, ops[i].update, call.driving, call.candidate).1;
                && (verdict == Orphaned <==> w.service.lifecycle == Retired || ops[i].update.Collided?)
                && (verdict == Completed <==> w.service.lifecycle != Retired && ops[i].update.Complete?)
                && (verdict == Kept <==> w.service.lifecycle != Retired && ops[i].update.Keep?)
                && (verdict == Orphaned <==> serial in states[i + 1].service.orphans)
                && (verdict == Completed <==> serial in states[i + 1].completed)
                && (verdict == Kept || verdict == Refused(Other) <==> serial in states[i + 1].service.flights))
  {
    var call := states[i].calls[ops[i].call];
    var serial := call.work.value.serial;
    RunInv(states, ops, i);
    assert Places(states[i], serial) == One(1 <= serial < states[i].service.nextSerial);
    FinishPlaces(states[i].service, serial, ops[i].update, call.driving, call.candidate, serial);
  }

  /** Where retirement, capture, rebinding and giving back put a flight. */
  lemma TransferAnswer(states: seq<World>, ops: seq<Op>, i: nat, k: nat)
    requires Run(states, ops) && i < |ops|
    ensures var w, w' := states[i], states[i + 1];
            match ops[i]
            case RetireOp =>
              && (k in w'.service.flights <==> k in w.service.flights && w.service.flights[k].driving)
              && (k in w'.service.orphans <==>
                    k in w.service.orphans || (k in w.service.flights && !w.service.flights[k].driving))
            case CaptureOp =>
              && (k in HeldLive(w') <==> k in w.service.flights) && (k in HeldOrphans(w') <==> k in w.service.orphans)
            case BindOp(_) =>
              && (k in w'.service.flights <==> Copy(w, k).Some? && !Copy(w, k).value.collision)
              && (k in w'.service.orphans <==> Copy(w, k).Some? && Copy(w, k).value.collision)
            case ReleaseOp =>
              && (k in w'.service.flights <==> k in w.service.flights || k in HeldLive(w))
              && (k in w'.service.orphans <==> k in w.service.orphans || k in HeldOrphans(w))
            case _ => true
  {
    RunInv(states, ops, i);
    assert Places(states[i], k) == One(1 <= k < states[i].service.nextSerial) && Tidy(states[i], k);
  }

  /** Who owns the service and what it accepts next. */
  lemma LifecycleAnswer(states: seq<World>, ops: seq<Op>, i: nat)
    requires Run(states, ops) && i < |ops|
    ensures var s, t := states[i].service, states[i + 1].service;
            var empty := t.flights == map[] && t.orphans == map[];
            t.lifecycle == match ops[i]
                           case RetireOp => Retired
                           case CaptureOp => Retired
                           case ReleaseOp => Retired
                           case BindOp(_) => Recovering
                           case DisposeOp(_) => if empty then Disposed else Disposing
                           case FinishOp(_, _) => if s.lifecycle == Disposing && empty then Disposed else s.lifecycle
                           case _ => s.lifecycle
    ensures states[i + 1].service.recoveryOwned <==>
              ops[i].CaptureOp? || (states[i].service.recoveryOwned && !ops[i].ReleaseOp?)
  {
    RunInv(states, ops, i);
    if ops[i].FinishOp? {
      FinishLifecycle(states[i], ops[i].call, ops[i].update);
    }
  }

  lemma FinishLifecycle(w: World, call: nat, update: Update)
    requires Inv(w) && Enabled(w, FinishOp(call, update))
    ensures var s, t := w.service, FinishStep(w, call, update).service;
            t.recoveryOwned == s.recoveryOwned &&
            t.lifecycle == if s.lifecycle == Disposing && t.flights == map[] && t.orphans == map[] then Disposed
                           else s.lifecycle
  {
  }
}
