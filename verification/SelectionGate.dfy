/** The process gate and the window registry together: a selection lease holds a reservation of the gate. */
module SelectionGate {
  import opened Common
  import Gate = ProcessGate
  import Windows = WindowRegistry

  /** `leases` maps the owner of each live, unretired selection lease to the reservation it holds. */
  datatype World = World(gate: Gate.World, windows: Windows.World, leases: map<nat, nat>)

  datatype Op =
    | GateOp(gate: Gate.Op)
    | WindowOp(window: Windows.Op)
    | SelectOp(residents: seq<nat>, invoking: nat)
    | DropOp(owner: nat)
    | RetireOp(owner: nat)

  predicate Leased(w: World, reservation: nat)
  {
    exists o :: o in w.leases && w.leases[o] == reservation
  }

  /** The registry asks the gate before it reserves a window or admits a close; a selection is admitted only together
      with its reservation, and only its lease gives either back. */
  predicate Enabled(w: World, op: Op)
  {
    match op
    case GateOp(g) => Gate.Enabled(w.gate, g) && (g.Release? ==> !Leased(w, g.reservation))
    case WindowOp(o) =>
      && Windows.Enabled(w.windows, o) && !o.SelectOp?
      && (o.DeselectOp? ==> o.owner !in w.leases)
      && (o.ReserveOp? || o.CloseOp? ==> o.admitted == !w.gate.gate.fenced)
    case SelectOp(_, _) => true
    case DropOp(owner) => owner in w.leases
    case RetireOp(owner) => owner in w.leases
  }

  /** `admit_selection`: the registry is changed under `try_reserve_with`, so a refusal of either leaves both alone. */
  function Select(w: World, residents: seq<nat>, invoking: nat): (w': World)
  {
    var (r, x) := Windows.Select(w.windows.registry, residents, invoking, true);
    var reserve := Gate.ReserveWith(x.Ok?);
    if Gate.OutcomeOf(w.gate, reserve) != Gate.Reserved || x.Err? then w
    else World(Gate.Next(w.gate, reserve), w.windows.(registry := r), w.leases[x.value.owner := w.gate.issued])
  }

  /** A dropped lease first ends its selection; its reservation is then free to be dropped. A retired lease gives up
      only its reservation and still excludes the windows. */
  function Next(w: World, op: Op): (w': World)
    requires Enabled(w, op)
  {
    match op
    case GateOp(g) => w.(gate := Gate.Next(w.gate, g))
    case WindowOp(o) => w.(windows := Windows.Next(w.windows, o))
    case SelectOp(residents, invoking) => Select(w, residents, invoking)
    case DropOp(owner) =>
      World(w.gate, w.windows.(registry := Windows.Deselect(w.windows.registry, owner)), w.leases - {owner})
    case RetireOp(owner) => w.(leases := w.leases - {owner})
  }

  /** The lease's reservation is live and its selection stands. */
  predicate Holds(w: World, o: nat)
  {
    o in w.leases ==> w.leases[o] in w.gate.live && w.windows.registry.selection == Some(o)
  }

  ghost predicate Inv(w: World)
  {
    Gate.Inv(w.gate) && Windows.Inv(w.windows) && forall o: nat :: Holds(w, o)
  }

  lemma GateKept(w: World, op: Op)
    requires Gate.Inv(w.gate) && Enabled(w, op)
    ensures Gate.Inv(Next(w, op).gate)
  {
    match op
    case GateOp(g) =>
      Gate.CountedKept(w.gate, g);
      Gate.DatedKept(w.gate, g);
    case SelectOp(_, _) =>
      Gate.CountedKept(w.gate, Gate.ReserveWith(true));
      Gate.DatedKept(w.gate, Gate.ReserveWith(true));
    case _ =>
  }

  lemma WindowsKept(w: World, op: Op)
    requires Windows.Inv(w.windows) && Enabled(w, op)
    ensures Windows.Inv(Next(w, op).windows)
  {
    match op
    case WindowOp(o) => Windows.InvKept(w.windows, o);
    case SelectOp(residents, invoking) => Windows.InvKept(w.windows, Windows.SelectOp(residents, invoking, true));
    case DropOp(owner) => Windows.InvKept(w.windows, Windows.DeselectOp(owner));
    case _ =>
  }

  lemma GateHolds(w: World, g: Gate.Op, r: nat)
    requires Gate.Enabled(w.gate, g) && r in w.gate.live && g != Gate.Release(r)
    ensures r in Gate.Next(w.gate, g).live
  {
  }

  lemma WindowHolds(r: Windows.World, o: Windows.Op, owner: nat)
    requires Windows.Enabled(r, o) && !o.SelectOp? && o != Windows.DeselectOp(owner)
    requires r.registry.selection == Some(owner)
    ensures Windows.Next(r, o).registry.selection == Some(owner)
  {
  }

  lemma HoldsKept(w: World, op: Op, o: nat)
    requires Enabled(w, op) && Holds(w, o)
    requires forall other: nat :: Holds(w, other)
    ensures Holds(Next(w, op), o)
  {
    match op
    case GateOp(g) =>
      if o in w.leases {
        GateHolds(w, g, w.leases[o]);
      }
    case WindowOp(p) =>
      if o in w.leases {
        WindowHolds(w.windows, p, o);
      }
    case _ =>
  }

  const START := World(Gate.Start(), Windows.World(Windows.EMPTY, map[]), map[])

  ghost predicate Run(ws: seq<World>, ops: seq<Op>)
  {
    && |ws| == |ops| + 1 && ws[0] == START
    && (forall i :: 0 <= i < |ops| ==> Enabled(ws[i], ops[i]) && ws[i + 1] == Next(ws[i], ops[i]))
  }

  lemma {:induction false} RunInv(ws: seq<World>, ops: seq<Op>, i: nat)
    requires Run(ws, ops) && i < |ws|
    ensures Inv(ws[i])
  {
    if i > 0 {
      RunInv(ws, ops, i - 1);
      GateKept(ws[i - 1], ops[i - 1]);
      WindowsKept(ws[i - 1], ops[i - 1]);
      forall o: nat
        ensures Holds(ws[i], o)
      {
        HoldsKept(ws[i - 1], ops[i - 1], o);
      }
    }
  }

  /** A closing, a settled publication or a reopening of the process. */
  predicate Settles(op: Op)
  {
    op.GateOp? && (op.gate.Close? || op.gate.Settled? || op.gate.Reopen?)
  }

  /** While an unretired selection lease lives the process is neither closed nor published as settled nor reopened, no
      window is acquired or closed, and there is no second lease. */
  lemma LeaseBars(ws: seq<World>, ops: seq<Op>, i: nat, owner: nat)
    requires Run(ws, ops) && i < |ws| && owner in ws[i].leases
    ensures i < |ops| && Settles(ops[i]) ==> Gate.OutcomeOf(ws[i].gate, ops[i].gate).Refused?
    ensures ws[i].windows.flights == map[] && ws[i].windows.registry.close.None?
    ensures ws[i].leases.Keys == {owner} && ws[i].windows.registry.selection == Some(owner)
  {
    RunInv(ws, ops, i);
    assert Holds(ws[i], owner) && forall o: nat :: o in ws[i].leases ==> Holds(ws[i], o);
    assert forall f: nat :: f in ws[i].windows.flights ==> Windows.Flies(ws[i].windows, f);
    assert ws[i].leases[owner] in ws[i].gate.live;
  }

  /** A lease ends only with its own drop or retirement. */
  lemma {:induction false} LeaseStays(ws: seq<World>, ops: seq<Op>, i: nat, j: nat, owner: nat)
    requires Run(ws, ops) && i <= j < |ws| && owner in ws[i].leases
    requires forall k :: i <= k < j ==> ops[k] != DropOp(owner) && ops[k] != RetireOp(owner)
    ensures owner in ws[j].leases
  {
    if i < j {
      LeaseStays(ws, ops, i, j - 1, owner);
    }
  }

  /** From its admission until its own drop or retirement a selection lease bars every closing, settled publication and
      reopening of the process, whatever else happens. */
  lemma AdmittedBars(ws: seq<World>, ops: seq<Op>, i: nat, j: nat, owner: nat)
    requires Run(ws, ops) && i < j < |ops| && owner in ws[i + 1].leases && Settles(ops[j])
    requires forall k :: i < k < j ==> ops[k] != DropOp(owner) && ops[k] != RetireOp(owner)
    ensures Gate.OutcomeOf(ws[j].gate, ops[j].gate).Refused?
    ensures ws[j + 1].gate.gate == ws[j].gate.gate
  {
    LeaseStays(ws, ops, i + 1, j, owner);
    LeaseBars(ws, ops, j, owner);
  }

  // The close side

  /** The later registry has a later membership, or the same with the same members. */
  predicate Follows(r: Windows.Registry, s: Windows.Registry)
  {
    r.membership < s.membership || (r.membership == s.membership && r.members == s.members)
  }

  lemma {:induction false} MembershipRises(ws: seq<World>, ops: seq<Op>, i: nat, j: nat)
    requires Run(ws, ops) && i <= j < |ws|
    ensures Follows(ws[i].windows.registry, ws[j].windows.registry)
  {
    if i < j {
      MembershipRises(ws, ops, i, j - 1);
      NextAbove(ws, ops, j - 1);
      MembershipStep(ws[j - 1], ops[j - 1]);
      assert ws[j] == Next(ws[j - 1], ops[j - 1]);
    }
  }

  lemma NextAbove(ws: seq<World>, ops: seq<Op>, i: nat)
    requires Run(ws, ops) && i < |ws|
    ensures ws[i].windows.registry.membership < ws[i].windows.registry.next
  {
    RunInv(ws, ops, i);
  }

  lemma MembershipStep(w: World, op: Op)
    requires Enabled(w, op) && w.windows.registry.membership < w.windows.registry.next
    ensures Follows(w.windows.registry, Next(w, op).windows.registry)
  {
    if op.WindowOp? {
      Windows.MembershipStep(w.windows, op.window);
    }
  }

  /** While the gate is fenced windows only leave, and no lease of either kind is admitted. */
  lemma FencedStep(w: World, op: Op)
    requires Enabled(w, op) && w.gate.gate.fenced
    ensures var (r, s) := (w.windows.registry, Next(w, op).windows.registry);
            && s.members <= r.members
            && (s.selection == r.selection || s.selection.None?) && (s.close == r.close || s.close.None?)
    ensures forall o :: o in Next(w, op).leases ==> o in w.leases
  {
  }

  lemma {:induction false} FencedShrinks(ws: seq<World>, ops: seq<Op>, i: nat, j: nat)
    requires Run(ws, ops) && i <= j < |ws| && forall k :: i <= k < j ==> ws[k].gate.gate.fenced
    ensures var (r, s) := (ws[i].windows.registry, ws[j].windows.registry);
            && s.members <= r.members
            && (s.selection == r.selection || s.selection.None?) && (s.close == r.close || s.close.None?)
    ensures forall o :: o in ws[j].leases ==> o in ws[i].leases
  {
    if i < j {
      FencedShrinks(ws, ops, i, j - 1);
      FencedStep(ws[j - 1], ops[j - 1]);
    }
  }

  /** A closing published while a close lease validates fences the gate over exactly the windows of its snapshot; until
      the gate is reopened no window joins them, and no selection and no other close is admitted. */
  lemma ClosedOver(
    ws: seq<World>, ops: seq<Op>, s: nat, k: nat, j: nat, residents: seq<nat>, snapshot: Windows.Snapshot, owner: nat)
    requires Run(ws, ops) && s <= k < j < |ws|
    requires Windows.Snap(ws[s].windows.registry, residents, !ws[s].gate.gate.fenced) == Ok(snapshot)
    requires Windows.CloseValid(ws[k].windows.registry, snapshot, owner)
    requires ops[k] == GateOp(Gate.Close(true)) && Gate.OutcomeOf(ws[k].gate, ops[k].gate).Raised?
    requires forall m :: k < m < j ==> ws[m].gate.gate.fenced
    ensures ws[k + 1].windows.registry.members == Windows.ToSet(residents)
    ensures ws[j].windows.registry.members <= Windows.ToSet(residents)
    ensures ws[j].leases == map[] && ws[j].windows.registry.selection.None?
    ensures ws[j].windows.registry.close == Some(owner) || ws[j].windows.registry.close.None?
  {
    MembershipRises(ws, ops, s, k);
    RunInv(ws, ops, k);
    NoneLeased(ws[k]);
    FencedShrinks(ws, ops, k + 1, j);
  }

  /** With no live reservation there is no lease. */
  lemma NoneLeased(w: World)
    requires Inv(w) && w.gate.gate.admissions == 0
    ensures w.leases == map[]
  {
    assert forall o: nat :: o in w.leases ==> Holds(w, o);
  }

  /** A selection is admitted, with one reservation of the gate, if and only if the gate is open with room, no window is
      being acquired, no lease is held, and the residents are the windows; otherwise nothing changes. */
  lemma SelectAnswer(ws: seq<World>, ops: seq<Op>, i: nat)
    requires Run(ws, ops) && i < |ops| && ops[i].SelectOp?
    ensures var (w, w', r) := (ws[i], ws[i + 1], ws[i].windows.registry);
            var granted := && !w.gate.gate.fenced && |w.gate.live| < 0xFFFF_FFFF_FFFF_FFFF
                           && w.windows.flights == map[] && r.selection == None && r.close == None
                           && Windows.Resident(r, ops[i].residents) && ops[i].invoking in ops[i].residents;
            if granted then
              && w'.windows.registry.selection == Some(r.next)
              && w'.leases == w.leases[r.next := w.gate.issued] && w'.gate.live == w.gate.live + {w.gate.issued}
            else w' == w
  {
    RunInv(ws, ops, i);
    Windows.SelectIff(ws[i].windows.registry, ops[i].residents, ops[i].invoking, true);
    Windows.NoneFlying(ws[i].windows);
  }
}
