/** The process registry of windows: acquisition flights, main-window reservations, and the selection and close
    leases that exclude them. */
module WindowRegistry {
  import opened Common

  const MAX_RESTORABLE_WINDOWS: nat := 256

  datatype Error =
    | MutationInProgress | SelectionInProgress | CloseInProgress | Duplicate | Capacity | Busy | WindowSetChanged
    | ProcessAdmission

  /** `membership` changes identity with the members; `close` and `selection` hold the identity of their lease. */
  datatype Registry = Registry(active: set<nat>, members: set<nat>, membership: nat, close: Option<nat>,
                               selection: Option<nat>, next: nat)

  datatype Lease = Lease(owner: nat, membership: nat, invoking: nat)

  /** A snapshot of the members, as a close takes it. */
  datatype Snapshot = Snapshot(membership: nat, members: set<nat>)

  const EMPTY := Registry({}, {}, 0, None, None, 1)

  predicate Leased(r: Registry)
  {
    r.selection.Some? || r.close.Some?
  }

  /** `AcquisitionFlight::acquire` */
  function TakeOff(r: Registry, window: nat): (x: (Registry, Result<Done, Error>))
  {
    if Leased(r) then (r, Err(MutationInProgress))
    else if window in r.active then (r, Err(Duplicate))
    else if |r.active| >= MAX_RESTORABLE_WINDOWS then (r, Err(Capacity))
    else (r.(active := r.active + {window}), Ok(Done))
  }

  /** The drop of a flight. */
  function Land(r: Registry, window: nat): (r': Registry)
  {
    r.(active := r.active - {window})
  }

  function WithMembers(r: Registry, members: set<nat>): (r': Registry)
  {
    r.(members := members, membership := r.next, next := r.next + 1)
  }

  /** `reserve_main_window`; `admitted` is the answer of the process admission gate. */
  function Reserve(r: Registry, window: nat, admitted: bool): (x: (Registry, Result<Done, Error>))
  {
    if !admitted then (r, Err(ProcessAdmission))
    else if r.selection.Some? then (r, Err(SelectionInProgress))
    else if r.close.Some? then (r, Err(CloseInProgress))
    else if window in r.members then (r, Err(Duplicate))
    else if |r.members| >= MAX_RESTORABLE_WINDOWS then (r, Err(Capacity))
    else (WithMembers(r, r.members + {window}), Ok(Done))
  }

  /** The drop of a main-window reservation. */
  function Unreserve(r: Registry, window: nat): (r': Registry)
  {
    if window in r.members then WithMembers(r, r.members - {window}) else r
  }

  function ToSet(s: seq<nat>): (t: set<nat>)
  {
    set x | x in s
  }

  /** `admit_selection` */
  function Select(r: Registry, residents: seq<nat>, invoking: nat, admitted: bool)
    : (x: (Registry, Result<Lease, Error>))
  {
    if residents == [] || |residents| > MAX_RESTORABLE_WINDOWS || |ToSet(residents)| != |residents| ||
       invoking !in residents
    then (r, Err(WindowSetChanged))
    else if !admitted then (r, Err(Busy))
    else if Leased(r) || r.active != {} then (r, Err(Busy))
    else if r.members != ToSet(residents) then (r, Err(WindowSetChanged))
    else (r.(selection := Some(r.next), next := r.next + 1), Ok(Lease(r.next, r.membership, invoking)))
  }

  function Deselect(r: Registry, owner: nat): (r': Registry)
  {
    if r.selection == Some(owner) then r.(selection := None) else r
  }

  predicate SelectionValid(r: Registry, lease: Lease)
  {
    r.close.None? && r.active == {} && r.selection == Some(lease.owner) && r.membership == lease.membership &&
    lease.invoking in r.members
  }

  /** `snapshot_for_close` */
  function Snap(r: Registry, residents: seq<nat>, admitted: bool): (x: Result<Snapshot, Error>)
  {
    if residents == [] || |residents| > MAX_RESTORABLE_WINDOWS || |ToSet(residents)| != |residents| then
      Err(WindowSetChanged)
    else if !admitted then Err(ProcessAdmission)
    else if Leased(r) then Err(Busy)
    else if r.members != ToSet(residents) then Err(WindowSetChanged)
    else Ok(Snapshot(r.membership, ToSet(residents)))
  }

  /** `admit_close` */
  function AdmitClose(r: Registry, snapshot: Snapshot, admitted: bool): (x: (Registry, Result<nat, Error>))
  {
    if !admitted then (r, Err(ProcessAdmission))
    else if Leased(r) then (r, Err(Busy))
    else if r.membership != snapshot.membership then (r, Err(WindowSetChanged))
    else (r.(close := Some(r.next), next := r.next + 1), Ok(r.next))
  }

  function Unclose(r: Registry, owner: nat): (r': Registry)
  {
    if r.close == Some(owner) then r.(close := None) else r
  }

  predicate CloseValid(r: Registry, snapshot: Snapshot, owner: nat)
  {
    r.close == Some(owner) && r.membership == snapshot.membership
  }

  // Runs

  /** `held` is set once the outcome of the flight's command is unknown. */
  datatype Flight = Flight(window: nat, held: bool)

  datatype World = World(registry: Registry, flights: map<nat, Flight>)

  datatype Op =
    | TakeOffOp(flight: nat, window: nat)
    | HoldOp(flight: nat)
    | ReconcileOp(flight: nat, pending: bool)
    | LandOp(flight: nat)
    | ReserveOp(window: nat, admitted: bool)
    | UnreserveOp(window: nat)
    | SelectOp(residents: seq<nat>, invoking: nat, admitted: bool)
    | DeselectOp(owner: nat)
    | CloseOp(snapshot: Snapshot, admitted: bool)
    | UncloseOp(owner: nat)

  /** A flight ends in its acquisition or, held, with its reconciliation. */
  predicate Enabled(w: World, op: Op)
  {
    match op
    case TakeOffOp(f, _) => f !in w.flights
    case HoldOp(f) => f in w.flights && !w.flights[f].held
    case ReconcileOp(f, _) => f in w.flights && w.flights[f].held
    case LandOp(f) => f in w.flights
    case _ => true
  }

  function End(w: World, f: nat): (w': World)
    requires f in w.flights
  {
    World(Land(w.registry, w.flights[f].window), w.flights - {f})
  }

  function Next(w: World, op: Op): (w': World)
    requires Enabled(w, op)
  {
    match op
    case TakeOffOp(f, window) =>
      var (r, x) := TakeOff(w.registry, window);
      if x.Ok? then World(r, w.flights[f := Flight(window, false)]) else w
    case HoldOp(f) => w.(flights := w.flights[f := w.flights[f].(held := true)])
    case ReconcileOp(f, pending) => if pending then w else End(w, f)
    case LandOp(f) => End(w, f)
    case ReserveOp(window, admitted) => w.(registry := Reserve(w.registry, window, admitted).0)
    case UnreserveOp(window) => w.(registry := Unreserve(w.registry, window))
    case SelectOp(residents, invoking, admitted) =>
      w.(registry := Select(w.registry, residents, invoking, admitted).0)
    case DeselectOp(owner) => w.(registry := Deselect(w.registry, owner))
    case CloseOp(snapshot, admitted) => w.(registry := AdmitClose(w.registry, snapshot, admitted).0)
    case UncloseOp(owner) => w.(registry := Unclose(w.registry, owner))
  }

  predicate Flies(w: World, f: nat)
  {
    f in w.flights ==> w.flights[f].window in w.registry.active
  }

  predicate Apart(w: World, f: nat, g: nat)
  {
    f in w.flights && g in w.flights && w.flights[f].window == w.flights[g].window ==> f == g
  }

  ghost predicate Flown(w: World, window: nat)
  {
    window in w.registry.active ==> exists f :: f in w.flights && w.flights[f].window == window
  }

  predicate Bounds(r: Registry)
  {
    && |r.active| <= MAX_RESTORABLE_WINDOWS && |r.members| <= MAX_RESTORABLE_WINDOWS && r.membership < r.next
    && (r.selection.Some? ==> r.selection.value < r.next && r.active == {} && r.close.None?)
    && (r.close.Some? ==> r.close.value < r.next)
  }

  ghost predicate Inv(w: World)
  {
    && Bounds(w.registry)
    && (forall f: nat :: Flies(w, f)) && (forall f: nat, g: nat :: Apart(w, f, g)) && (forall x: nat :: Flown(w, x))
  }

  lemma BoundsKept(w: World, op: Op)
    requires Bounds(w.registry) && Enabled(w, op)
    ensures Bounds(Next(w, op).registry)
  {
  }

  /** The flight that a step ends, if any. */
  function Ended(w: World, op: Op): (f: Option<nat>)
  {
    match op
    case ReconcileOp(f, pending) => if pending then None else Some(f)
    case LandOp(f) => Some(f)
    case _ => None
  }

  lemma FliesKept(w: World, op: Op, f: nat)
    requires Enabled(w, op) && Flies(w, f) && (Ended(w, op).Some? ==> Apart(w, f, Ended(w, op).value))
    ensures Flies(Next(w, op), f)
  {
  }

  lemma ApartKept(w: World, op: Op, f: nat, g: nat)
    requires Enabled(w, op) && Apart(w, f, g) && Flies(w, f) && Flies(w, g)
    ensures Apart(Next(w, op), f, g)
  {
  }

  lemma FlownKept(w: World, op: Op, window: nat)
    requires Enabled(w, op) && Flown(w, window)
    ensures Flown(Next(w, op), window)
  {
    var w' := Next(w, op);
    if window in w.registry.active && window in w'.registry.active {
      var f :| f in w.flights && w.flights[f].window == window;
      assert f in w'.flights && w'.flights[f].window == window;
    } else if window in w'.registry.active {
      assert op.flight in w'.flights && w'.flights[op.flight].window == window;
    }
  }

  lemma InvKept(w: World, op: Op)
    requires Inv(w) && Enabled(w, op)
    ensures Inv(Next(w, op))
  {
    BoundsKept(w, op);
    forall f: nat
      ensures Flies(Next(w, op), f)
    {
      assert Flies(w, f) && (Ended(w, op).Some? ==> Apart(w, f, Ended(w, op).value));
      FliesKept(w, op, f);
    }
    forall f: nat, g: nat
      ensures Apart(Next(w, op), f, g)
    {
      assert Apart(w, f, g) && Flies(w, f) && Flies(w, g);
      ApartKept(w, op, f, g);
    }
    forall x: nat
      ensures Flown(Next(w, op), x)
    {
      assert Flown(w, x);
      FlownKept(w, op, x);
    }
  }

  ghost predicate Run(ws: seq<World>, ops: seq<Op>)
  {
    && |ws| == |ops| + 1 && ws[0] == World(EMPTY, map[])
    && (forall i :: 0 <= i < |ops| ==> Enabled(ws[i], ops[i]) && ws[i + 1] == Next(ws[i], ops[i]))
  }

  lemma {:induction false} RunInv(ws: seq<World>, ops: seq<Op>, i: nat)
    requires Run(ws, ops) && i < |ws|
    ensures Inv(ws[i])
  {
    if i > 0 {
      RunInv(ws, ops, i - 1);
      InvKept(ws[i - 1], ops[i - 1]);
    }
  }

  /** The active windows are exactly the windows of the live flights, one flight each, and never more than 256. */
  lemma ActiveIsFlights(ws: seq<World>, ops: seq<Op>, i: nat, x: nat)
    requires Run(ws, ops) && i < |ws|
    ensures x in ws[i].registry.active <==> exists f :: f in ws[i].flights && ws[i].flights[f].window == x
    ensures forall f: nat, g: nat :: Apart(ws[i], f, g)
    ensures |ws[i].registry.active| <= MAX_RESTORABLE_WINDOWS && |ws[i].registry.members| <= MAX_RESTORABLE_WINDOWS
  {
    RunInv(ws, ops, i);
    assert Flown(ws[i], x);
    assert forall f: nat, g: nat :: f in ws[i].flights && g in ws[i].flights ==> Apart(ws[i], f, g);
    assert forall f: nat :: f in ws[i].flights ==> Flies(ws[i], f);
  }

  /** While a flight is live its window cannot take off again; a flight whose outcome is unknown outlives every pending
      reconciliation, and ends only when its reconciliation resolves or is dropped. */
  lemma {:induction false} LiveFlightBlocks(ws: seq<World>, ops: seq<Op>, i: nat, j: nat, f: nat)
    requires Run(ws, ops) && i <= j < |ws| && f in ws[i].flights
    requires forall k :: i <= k < j ==> Ended(ws[k], ops[k]) != Some(f)
    ensures f in ws[j].flights && ws[j].flights[f].window == ws[i].flights[f].window
    ensures ws[i].flights[f].held ==> ws[j].flights[f].held
    ensures TakeOff(ws[j].registry, ws[i].flights[f].window) == (ws[j].registry, Err(MutationInProgress)) ||
            TakeOff(ws[j].registry, ws[i].flights[f].window) == (ws[j].registry, Err(Duplicate))
  {
    if i < j {
      LiveFlightBlocks(ws, ops, i, j - 1, f);
      LiveStep(ws[j - 1], ops[j - 1], f);
    }
    RunInv(ws, ops, j);
    assert Flies(ws[j], f);
  }

  lemma LiveStep(w: World, op: Op, f: nat)
    requires Enabled(w, op) && f in w.flights && Ended(w, op) != Some(f)
    ensures f in Next(w, op).flights && Next(w, op).flights[f].window == w.flights[f].window
    ensures w.flights[f].held ==> Next(w, op).flights[f].held
  {
  }

  /** A step keeps membership and members, or makes a membership identity never used before. */
  lemma MembershipStep(w: World, op: Op)
    requires Enabled(w, op)
    ensures var (r, r') := (w.registry, Next(w, op).registry);
            && r.next <= r'.next
            && ((r'.membership == r.membership && r'.members == r.members) || r'.membership == r.next < r'.next)
  {
  }

  lemma NextAbove(ws: seq<World>, ops: seq<Op>, i: nat)
    requires Run(ws, ops) && i < |ws|
    ensures ws[i].registry.membership < ws[i].registry.next
  {
    RunInv(ws, ops, i);
  }

  lemma {:induction false} MembershipRises(ws: seq<World>, ops: seq<Op>, i: nat, j: nat)
    requires Run(ws, ops) && i <= j < |ws|
    ensures ws[i].registry.membership <= ws[j].registry.membership && ws[i].registry.next <= ws[j].registry.next
    ensures ws[i].registry.membership == ws[j].registry.membership ==> ws[i].registry.members == ws[j].registry.members
  {
    if i < j {
      MembershipRises(ws, ops, i, j - 1);
      NextAbove(ws, ops, j - 1);
      MembershipStep(ws[j - 1], ops[j - 1]);
    }
  }

  /** Equal membership identities mean equal members, however many windows came and went between. */
  lemma MembershipIdentifies(ws: seq<World>, ops: seq<Op>, i: nat, j: nat)
    requires Run(ws, ops) && i < |ws| && j < |ws| && ws[i].registry.membership == ws[j].registry.membership
    ensures ws[i].registry.members == ws[j].registry.members
  {
    if i <= j {
      MembershipRises(ws, ops, i, j);
    } else {
      MembershipRises(ws, ops, j, i);
    }
  }

  lemma SelectionStep(w: World, op: Op, owner: nat)
    requires Enabled(w, op) && owner < w.registry.next && Next(w, op).registry.selection == Some(owner)
    ensures w.registry.selection == Some(owner)
  {
  }

  lemma {:induction false} SelectionBefore(ws: seq<World>, ops: seq<Op>, i: nat, k: nat, j: nat, owner: nat)
    requires Run(ws, ops) && i <= k <= j < |ws| && owner < ws[i].registry.next
    requires ws[j].registry.selection == Some(owner)
    ensures ws[k].registry.selection == Some(owner)
    decreases j
  {
    if k < j {
      MembershipRises(ws, ops, i, j - 1);
      SelectionStep(ws[j - 1], ops[j - 1], owner);
      SelectionBefore(ws, ops, i, k, j - 1, owner);
    }
  }

  /** A selection lease that validates saw no flight, no close and no change of the windows it was admitted for, at any
      moment since its admission. */
  lemma SelectionExcludes(ws: seq<World>, ops: seq<Op>, i: nat, k: nat, j: nat, lease: Lease)
    requires Run(ws, ops) && i < k <= j < |ws| && ops[i].SelectOp?
    requires Select(ws[i].registry, ops[i].residents, ops[i].invoking, ops[i].admitted).1 == Ok(lease)
    requires SelectionValid(ws[j].registry, lease)
    ensures ws[k].registry.selection == Some(lease.owner) && ws[k].registry.close.None?
    ensures ws[k].registry.active == {} && ws[k].flights == map[]
    ensures ws[k].registry.members == ToSet(ops[i].residents)
  {
    SelectionBefore(ws, ops, i + 1, k, j, lease.owner);
    RunInv(ws, ops, k);
    assert forall f: nat :: f in ws[k].flights ==> Flies(ws[k], f);
    MembershipRises(ws, ops, i, k);
    MembershipRises(ws, ops, k, j);
  }

  /** A close lease that validates closes the very windows of its snapshot. */
  lemma CloseExact(ws: seq<World>, ops: seq<Op>, s: nat, j: nat, residents: seq<nat>, snapshot: Snapshot, owner: nat)
    requires Run(ws, ops) && s < |ws| && j < |ws| && Snap(ws[s].registry, residents, true) == Ok(snapshot)
    requires CloseValid(ws[j].registry, snapshot, owner)
    ensures ws[j].registry.members == snapshot.members == ToSet(residents)
    ensures ws[j].registry.selection.None?
  {
    MembershipIdentifies(ws, ops, s, j);
    RunInv(ws, ops, j);
  }

  // What every call answers

  /** No selection and no close is under way. */
  predicate Unleased(r: Registry)
  {
    r.selection == None && r.close == None
  }

  /** A flight takes off if and only if no lease is held, no flight of its window is live and there are fewer than
      256. */
  lemma TakeOffAnswer(ws: seq<World>, ops: seq<Op>, i: nat)
    requires Run(ws, ops) && i < |ops| && ops[i].TakeOffOp?
    ensures var (w, window) := (ws[i], ops[i].window);
            var flown := exists f :: f in w.flights && w.flights[f].window == window;
            && TakeOff(w.registry, window).1 ==
               (if !Unleased(w.registry) then Err(MutationInProgress)
                else if flown then Err(Duplicate)
                else if |w.registry.active| >= 256 then Err(Capacity) else Ok(Done))
            && (ops[i].flight in ws[i + 1].flights <==> TakeOff(w.registry, window).1.Ok?)
  {
    ActiveIsFlights(ws, ops, i, ops[i].window);
  }

  /** A main window is reserved if and only if the process admits it, no lease is held, and the window is new and within
      256; dropping the reservation removes just that window. */
  lemma ReserveAnswer(r: Registry, window: nat, admitted: bool)
    ensures Reserve(r, window, admitted).1.Ok? <==>
              admitted && Unleased(r) && window !in r.members && |r.members| < 256
    ensures !admitted ==> Reserve(r, window, admitted).1 == Err(ProcessAdmission)
    ensures admitted && !Unleased(r) ==>
              Reserve(r, window, admitted).1 ==
              Err(if r.selection != None then SelectionInProgress else CloseInProgress)
    ensures admitted && Unleased(r) && (window in r.members || |r.members| >= 256) ==>
              Reserve(r, window, admitted).1 == Err(if window in r.members then Duplicate else Capacity)
    ensures Reserve(r, window, admitted).1.Ok? ==> Reserve(r, window, admitted).0.members == r.members + {window}
    ensures Reserve(r, window, admitted).1.Err? ==> Reserve(r, window, admitted).0 == r
    ensures Unreserve(r, window).members == r.members - {window}
    ensures Unreserve(r, window).selection == r.selection && Unreserve(r, window).close == r.close
  {
  }

  ghost predicate NoRepeats(s: seq<nat>)
  {
    forall i, j :: 0 <= i < j < |s| ==> s[i] != s[j]
  }

  lemma {:induction false} SetSize(s: seq<nat>)
    ensures |ToSet(s)| <= |s| && (|ToSet(s)| == |s| <==> NoRepeats(s))
  {
    if s != [] {
      var n := |s| - 1;
      var front := s[..n];
      SetSize(front);
      assert ToSet(s) == ToSet(front) + {s[n]};
      if s[n] in front {
        var i :| 0 <= i < n && front[i] == s[n];
        assert s[i] == s[n];
        assert ToSet(s) == ToSet(front);
      } else {
        assert NoRepeats(front) ==> NoRepeats(s);
        assert NoRepeats(s) ==> NoRepeats(front) by {
          if NoRepeats(s) {
            forall i, j | 0 <= i < j < n
              ensures front[i] != front[j]
            {
              assert s[i] != s[j];
            }
          }
        }
      }
    }
  }

  /** The residents are the members, each once. */
  ghost predicate Resident(r: Registry, residents: seq<nat>)
  {
    0 < |residents| <= 256 && NoRepeats(residents) && forall x :: x in r.members <==> x in residents
  }

  /** From one to 256 windows, each once. */
  ghost predicate Presentable(residents: seq<nat>)
  {
    0 < |residents| <= 256 && NoRepeats(residents)
  }

  /** A selection is admitted if and only if the residents are the members, the invoking window among them, the process
      admits it, and nothing else is under way; its lease then validates at once. */
  lemma SelectIff(r: Registry, residents: seq<nat>, invoking: nat, admitted: bool)
    ensures var (t, x) := Select(r, residents, invoking, admitted);
            && (x.Ok? <==> Resident(r, residents) && invoking in residents && admitted && Unleased(r) && r.active == {})
            && (x.Ok? ==> SelectionValid(t, x.value) && x.value.invoking == invoking && x.value.owner == r.next)
            && (x.Err? ==> t == r)
            && (x == Err(Busy) <==> Presentable(residents) && invoking in residents &&
                                    !(admitted && Unleased(r) && r.active == {}))
            && (x.Err? && x != Err(Busy) ==> x == Err(WindowSetChanged))
  {
    SetSize(residents);
    assert r.members == ToSet(residents) <==> forall x :: x in r.members <==> x in residents;
  }

  /** No window is active exactly while no flight is live. */
  lemma NoneFlying(w: World)
    requires Inv(w)
    ensures w.registry.active == {} <==> w.flights == map[]
  {
    if w.registry.active != {} {
      var x :| x in w.registry.active;
      assert Flown(w, x);
    }
    assert forall f: nat :: f in w.flights ==> Flies(w, f);
  }

  /** A close takes its snapshot if and only if the residents are the members, and is admitted if and only if these have
      not changed since and no lease is held. */
  lemma CloseAnswer(r: Registry, residents: seq<nat>, snapshot: Snapshot, admitted: bool)
    ensures Snap(r, residents, admitted).Ok? <==> Resident(r, residents) && admitted && Unleased(r)
    ensures Presentable(residents) ==>
              Snap(r, residents, admitted) ==
              if !admitted then Err(ProcessAdmission)
              else if !Unleased(r) then Err(Busy)
              else if Resident(r, residents) then Ok(Snapshot(r.membership, r.members)) else Err(WindowSetChanged)
    ensures !Presentable(residents) ==> Snap(r, residents, admitted) == Err(WindowSetChanged)
    ensures AdmitClose(r, snapshot, admitted).1.Ok? <==>
              admitted && Unleased(r) && r.membership == snapshot.membership
    ensures !admitted ==> AdmitClose(r, snapshot, admitted).1 == Err(ProcessAdmission)
    ensures admitted && !Unleased(r) ==> AdmitClose(r, snapshot, admitted).1 == Err(Busy)
    ensures admitted && Unleased(r) && r.membership != snapshot.membership ==>
              AdmitClose(r, snapshot, admitted).1 == Err(WindowSetChanged)
    ensures AdmitClose(r, snapshot, admitted).1.Ok? ==>
              CloseValid(AdmitClose(r, snapshot, admitted).0, snapshot, AdmitClose(r, snapshot, admitted).1.value)
  {
    SetSize(residents);
    assert r.members == ToSet(residents) <==> forall x :: x in r.members <==> x in residents;
  }

  /** A step that ends a lease: its own drop, or a window that leaves. */
  predicate Breaks(w: World, op: Op, drop: Op)
  {
    op == drop || (op.UnreserveOp? && op.window in w.registry.members)
  }

  lemma SelectionKept(w: World, op: Op, lease: Lease)
    requires Enabled(w, op) && Bounds(w.registry) && SelectionValid(w.registry, lease)
    requires !Breaks(w, op, DeselectOp(lease.owner))
    ensures SelectionValid(Next(w, op).registry, lease)
  {
  }

  lemma SelectionBroken(w: World, op: Op, lease: Lease)
    requires Enabled(w, op) && Bounds(w.registry) && SelectionValid(w.registry, lease)
    requires Breaks(w, op, DeselectOp(lease.owner))
    ensures Next(w, op).registry.selection.None? || Next(w, op).registry.membership > lease.membership
  {
  }

  lemma {:induction false} SelectionStands(ws: seq<World>, ops: seq<Op>, i: nat, j: nat, lease: Lease)
    requires Run(ws, ops) && i <= j < |ws| && SelectionValid(ws[i].registry, lease)
    requires forall k :: i <= k < j ==> !Breaks(ws[k], ops[k], DeselectOp(lease.owner))
    ensures SelectionValid(ws[j].registry, lease)
    decreases j
  {
    if i < j {
      SelectionStands(ws, ops, i, j - 1, lease);
      RunInv(ws, ops, j - 1);
      SelectionKept(ws[j - 1], ops[j - 1], lease);
    }
  }

  /** A lease that validates goes on validating if and only if it is not dropped and no window leaves. */
  lemma SelectionValidIff(ws: seq<World>, ops: seq<Op>, i: nat, j: nat, lease: Lease)
    requires Run(ws, ops) && i <= j < |ws| && SelectionValid(ws[i].registry, lease)
    ensures SelectionValid(ws[j].registry, lease) <==>
              forall k :: i <= k < j ==> !Breaks(ws[k], ops[k], DeselectOp(lease.owner))
    decreases j - i
  {
    if forall k :: i <= k < j ==> !Breaks(ws[k], ops[k], DeselectOp(lease.owner)) {
      SelectionStands(ws, ops, i, j, lease);
    } else {
      RunInv(ws, ops, i);
      if Breaks(ws[i], ops[i], DeselectOp(lease.owner)) {
        SelectionBroken(ws[i], ops[i], lease);
        MembershipRises(ws, ops, i, i + 1);
        MembershipRises(ws, ops, i + 1, j);
        if SelectionValid(ws[j].registry, lease) {
          SelectionBefore(ws, ops, i, i + 1, j, lease.owner);
        }
      } else {
        SelectionKept(ws[i], ops[i], lease);
        SelectionValidIff(ws, ops, i + 1, j, lease);
      }
    }
  }

  lemma CloseKept(w: World, op: Op, snapshot: Snapshot, owner: nat)
    requires Enabled(w, op) && Bounds(w.registry) && CloseValid(w.registry, snapshot, owner)
    ensures CloseValid(Next(w, op).registry, snapshot, owner) <==> !Breaks(w, op, UncloseOp(owner))
  {
  }

  /** The lease of this close is gone, or the windows have changed. */
  predicate Lost(r: Registry, snapshot: Snapshot, owner: nat)
  {
    owner < r.next && (r.close != Some(owner) || r.membership > snapshot.membership)
  }

  lemma LostStep(w: World, op: Op, snapshot: Snapshot, owner: nat)
    requires Enabled(w, op) && Bounds(w.registry)
    requires Lost(w.registry, snapshot, owner) ||
             (CloseValid(w.registry, snapshot, owner) && Breaks(w, op, UncloseOp(owner)))
    ensures Lost(Next(w, op).registry, snapshot, owner)
  {
  }

  lemma BoundsAt(ws: seq<World>, ops: seq<Op>, i: nat)
    requires Run(ws, ops) && i < |ws|
    ensures Bounds(ws[i].registry)
  {
    RunInv(ws, ops, i);
  }

  lemma {:induction false} LostForGood(
    ws: seq<World>, ops: seq<Op>, i: nat, j: nat, snapshot: Snapshot, owner: nat)
    requires Run(ws, ops) && i <= j < |ws| && Lost(ws[i].registry, snapshot, owner)
    ensures Lost(ws[j].registry, snapshot, owner)
    decreases j
  {
    if i < j {
      LostForGood(ws, ops, i, j - 1, snapshot, owner);
      BoundsAt(ws, ops, j - 1);
      LostStep(ws[j - 1], ops[j - 1], snapshot, owner);
    }
  }

  /** A close that validates goes on validating if and only if it is not dropped and no window leaves. */
  lemma {:induction false} CloseValidIff(
    ws: seq<World>, ops: seq<Op>, i: nat, j: nat, snapshot: Snapshot, owner: nat)
    requires Run(ws, ops) && i <= j < |ws| && CloseValid(ws[i].registry, snapshot, owner)
    ensures CloseValid(ws[j].registry, snapshot, owner) <==>
              forall k :: i <= k < j ==> !Breaks(ws[k], ops[k], UncloseOp(owner))
    decreases j - i
  {
    if i < j {
      BoundsAt(ws, ops, i);
      if Breaks(ws[i], ops[i], UncloseOp(owner)) {
        LostStep(ws[i], ops[i], snapshot, owner);
        LostForGood(ws, ops, i + 1, j, snapshot, owner);
      } else {
        CloseKept(ws[i], ops[i], snapshot, owner);
        CloseValidIff(ws, ops, i + 1, j, snapshot, owner);
      }
    }
  }
}
