/** The marker-seal service state as the source holds it: vectors of flights updated in place. */
module MarkerSealService {
  import opened Common
  import opened MarkerSeal

  ghost predicate Distinct(fs: seq<Flight>)
  {
    forall i, j :: 0 <= i < j < |fs| ==> fs[i].handle.serial != fs[j].handle.serial
  }

  /** The vector `fs` holds exactly the flights of `m`, each under its serial. */
  ghost predicate Files(fs: seq<Flight>, m: map<nat, Flight>)
  {
    && Distinct(fs)
    && (forall f :: f in fs ==> f.handle.serial in m && m[f.handle.serial] == f)
    && (forall k :: k in m ==> m[k] in fs && m[k].handle.serial == k)
  }

  function SwapRemove(fs: seq<Flight>, i: nat): (r: seq<Flight>)
    requires i < |fs|
  {
    var n := |fs| - 1;
    if i == n then fs[..n] else fs[..n][i := fs[n]]
  }

  lemma SwapRemoveFront(fs: seq<Flight>, i: nat)
    requires i < |fs|
    ensures |SwapRemove(fs, i)| == |fs| - 1 && SwapRemove(fs, i)[..i] == fs[..i]
  {
  }

  lemma SwapRemoved(fs: seq<Flight>, m: map<nat, Flight>, i: nat)
    requires i < |fs| && Files(fs, m)
    ensures Files(SwapRemove(fs, i), m - {fs[i].handle.serial})
  {
  }

  lemma Pushed(fs: seq<Flight>, m: map<nat, Flight>, f: Flight)
    requires Files(fs, m) && f.handle.serial !in m
    ensures Files(fs + [f], m[f.handle.serial := f])
  {
  }

  lemma Moved(fs: seq<Flight>, m: map<nat, Flight>, os: seq<Flight>, n: map<nat, Flight>, i: nat, f: Flight)
    requires i < |fs| && Files(fs, m) && Files(os, n) && m.Keys !! n.Keys && f.handle == fs[i].handle
    ensures f.handle.serial in m && m[f.handle.serial] == fs[i]
    ensures Files(SwapRemove(fs, i), m - {f.handle.serial}) && Files(os + [f], n[f.handle.serial := f])
    ensures (m - {f.handle.serial}).Keys !! n[f.handle.serial := f].Keys
  {
    assert fs[i] in fs;
    SwapRemoved(fs, m, i);
    Pushed(os, n, f);
  }

  lemma Replaced(fs: seq<Flight>, m: map<nat, Flight>, i: nat, f: Flight)
    requires i < |fs| && Files(fs, m) && f.handle == fs[i].handle
    ensures Files(fs[i := f], m[f.handle.serial := f])
  {
    var r, k := fs[i := f], f.handle.serial;
    assert fs[i] in fs && r[i] == f;
    forall x | x in r
      ensures x.handle.serial in m && (x == f || (x in fs && x.handle.serial != k))
    {
      var j :| 0 <= j < |r| && r[j] == x;
      if j != i {
        assert x == fs[j] && fs[j].handle.serial != fs[i].handle.serial;
      }
    }
    forall n | n in m && n != k
      ensures m[n] in r
    {
      var j :| 0 <= j < |fs| && fs[j] == m[n];
      assert r[j] == m[n];
    }
  }

  /** What a store says of itself: healthy and of this generation, lost to it, or of another home. */
  datatype Store = Healthy | Lost | Foreign

  class DraftMarkerSealService {
    var flights: seq<Flight>
    var orphans: seq<Flight>
    var reserved: nat
    var recoveryOwned: bool
    var borrows: nat
    var nextSerial: nat
    var lifecycle: Lifecycle
    const generation: nat
    const limit: nat
    ghost var filed: map<nat, Flight>
    ghost var orphaned: map<nat, Flight>

    ghost predicate Valid()
      reads this
    {
      Files(flights, filed) && Files(orphans, orphaned) && filed.Keys !! orphaned.Keys
    }

    ghost function State(): (s: Service)
      reads this
    {
      Service(filed, orphaned, reserved, recoveryOwned, borrows, nextSerial, lifecycle, generation, limit)
    }

    constructor (generation: nat, limit: nat)
      ensures Valid() && State() == Service(map[], map[], 0, false, 0, 1, Active, generation, limit)
    {
      flights, orphans, reserved, recoveryOwned, borrows := [], [], 0, false, 0;
      nextSerial, lifecycle, this.generation, this.limit := 1, Active, generation, limit;
      filed, orphaned := map[], map[];
    }

    method Find(handle: Handle) returns (index: Option<nat>)
      requires Valid()
      ensures index.Some? <==> Has(State().flights, handle)
      ensures index.Some? ==> index.value < |flights| && flights[index.value].handle == handle
    {
      for i := 0 to |flights|
        invariant forall j :: 0 <= j < i ==> flights[j].handle != handle
      {
        if flights[i].handle == handle {
          assert flights[i] in flights;
          return Some(i);
        }
      }
      return None;
    }

    method Collided(handle: Handle) returns (r: bool)
      requires Valid()
      ensures r <==> Has(State().orphans, handle) && State().orphans[handle.serial].collision
    {
      for i := 0 to |orphans|
        invariant forall j :: 0 <= j < i ==> !(orphans[j].handle == handle && orphans[j].collision)
      {
        if orphans[i].handle == handle && orphans[i].collision {
          assert orphans[i] in orphans;
          return true;
        }
      }
      return false;
    }

    /** Moves one flight to the orphans. */
    method MakeOrphan(i: nat, collision: bool)
      requires Valid() && i < |flights|
      modifies this`flights, this`orphans, this`filed, this`orphaned
      ensures Valid() && State() == Orphan(old(State()), old(flights[i].handle.serial), collision)
      ensures |flights| == old(|flights|) - 1 && flights[..i] == old(flights[..i])
    {
      var orphan := flights[i].(driving := false, collision := flights[i].collision || collision);
      Moved(flights, filed, orphans, orphaned, i, orphan);
      SwapRemoveFront(flights, i);
      filed, orphaned := filed - {orphan.handle.serial}, orphaned[orphan.handle.serial := orphan];
      flights := SwapRemove(flights, i);
      orphans := orphans + [orphan];
    }

    /** Last section of a drive; a flight that is gone is reported as a lost generation. */
    method FinishDrive(handle: Handle, update: Update, candidate: bool) returns (v: Verdict)
      requires Valid()
      modifies this`flights, this`orphans, this`filed, this`orphaned, this`lifecycle
      ensures Valid()
      ensures (State(), v) == if Has(old(State()).flights, handle)
                              then Finish(old(State()), handle.serial, update, true, candidate)
                              else (old(State()), Refused(Unavailable))
    {
      var found := Find(handle);
      if found.None? {
        return Refused(Unavailable);
      }
      var i := found.value;
      assert flights[i] in flights;
      if lifecycle == Retired {
        MakeOrphan(i, update.Collided?);
        return Orphaned;
      }
      match update
      case Keep(phase) =>
        var f := flights[i].(driving := false, phase := phase);
        Replaced(flights, filed, i, f);
        flights := flights[i := f];
        filed := filed[handle.serial := f];
        return Kept;
      case Complete =>
        SwapRemoved(flights, filed, i);
        flights := SwapRemove(flights, i);
        filed := filed - {handle.serial};
        EndDisposal();
        return Completed;
      case Collided =>
        MakeOrphan(i, true);
        EndDisposal();
        return Orphaned;
      case Failed(healthy) =>
        var f := flights[i].(driving := false);
        if !candidate && healthy && f.terminal.None? {
          f := f.(terminal := Some(OperationalFailure));
        }
        Replaced(flights, filed, i, f);
        flights := flights[i := f];
        filed := filed[handle.serial := f];
        return Refused(Other);
    }

    method EndDisposal()
      requires Valid()
      modifies this`lifecycle
      ensures Valid() && State() == FinishDisposal(old(State()))
    {
      assert flights != [] ==> flights[0] in flights;
      assert orphans != [] ==> orphans[0] in orphans;
      if flights == [] && orphans == [] && reserved == 0 && lifecycle == Disposing {
        lifecycle := Disposed;
      }
    }

    /** One sweep that swaps each resting flight out to the orphans. */
    method Sweep()
      requires Valid()
      modifies this`flights, this`orphans, this`filed, this`orphaned
      ensures Valid() && AllDriving(flights) && Swept(old(filed), old(orphaned), filed, orphaned)
    {
      var index := 0;
      while index < |flights|
        invariant Valid() && index <= |flights|
        invariant AllDriving(flights[..index])
        invariant Swept(old(filed), old(orphaned), filed, orphaned)
        decreases |flights| - index
      {
        if flights[index].driving {
          assert flights[..index + 1] == flights[..index] + [flights[index]];
          index := index + 1;
        } else {
          assert flights[index] in flights;
          SweepOne(old(filed), old(orphaned), filed, orphaned, flights[index].handle.serial);
          MakeOrphan(index, false);
        }
      }
      assert flights[..index] == flights;
    }

    /** `retire`: driving flights stay, every other one is orphaned. */
    method RetireAll()
      requires Valid()
      modifies this`flights, this`orphans, this`filed, this`orphaned, this`lifecycle
      ensures Valid() && State() == Retire(old(State()))
    {
      lifecycle := Retired;
      Sweep();
      SweepDone(old(filed), old(orphaned), flights, filed, orphaned);
    }

    method AnyCollision() returns (r: bool)
      requires Valid()
      ensures r <==> exists k :: k in State().orphans && State().orphans[k].collision
    {
      for i := 0 to |orphans|
        invariant forall j :: 0 <= j < i ==> !orphans[j].collision
      {
        if orphans[i].collision {
          assert orphans[i] in orphans && State().orphans[orphans[i].handle.serial].collision;
          return true;
        }
      }
      return false;
    }

    /** `MarkerAccess::validate` on a healthy store. */
    method ValidateAccess(candidate: bool) returns (denial: Option<Error>)
      requires Valid()
      ensures denial == if Accessible(State(), candidate) then None else Some(Denial(State(), candidate))
    {
      if !candidate {
        return if lifecycle == Active || lifecycle == Disposing then None else Some(Unavailable);
      }
      if !recoveryOwned || lifecycle != Recovering {
        return Some(Unavailable);
      }
      var collision := AnyCollision();
      return if collision then Some(ReconciliationCollision) else None;
    }

    /** First section of a drive. A store that is lost to this generation retires the service. */
    method Begin(store: Store, candidate: bool, handle: Handle) returns (r: Result<Phase, Error>)
      requires Valid()
      modifies this`flights, this`orphans, this`filed, this`orphaned, this`lifecycle
      ensures Valid()
      ensures store != Healthy ==> r == Err(Unavailable)
      ensures store != Healthy ==> State() == if store == Lost && !candidate then Retire(old(State())) else old(State())
      ensures store == Healthy ==>
                match BeginDrive(old(State()), candidate, handle)
                case Err(e) => r == Err(e) && State() == old(State())
                case Ok(t) => State() == t && r == Ok(t.flights[handle.serial].phase)
    {
      if store != Healthy {
        if store == Lost && !candidate {
          RetireAll();
        }
        return Err(Unavailable);
      }
      var denial := ValidateAccess(candidate);
      if denial.Some? {
        return Err(denial.value);
      }
      r := BeginAccessible(candidate, handle);
    }

    /** The rest of that section, once the access is validated. */
    method BeginAccessible(candidate: bool, handle: Handle) returns (r: Result<Phase, Error>)
      requires Valid() && Accessible(State(), candidate)
      modifies this`flights, this`filed
      ensures Valid()
      ensures match BeginDrive(old(State()), candidate, handle)
              case Err(e) => r == Err(e) && State() == old(State())
              case Ok(t) => State() == t && r == Ok(t.flights[handle.serial].phase)
    {
      var collided := Collided(handle);
      if collided {
        return Err(ReconciliationCollision);
      }
      var found := Find(handle);
      if found.None? {
        return Err(StaleFlight);
      }
      var i := found.value;
      assert flights[i] in flights;
      if flights[i].driving {
        return Err(FlightBusy);
      }
      if flights[i].terminal.Some? {
        return Err(TerminalSettlementRequired);
      }
      var f := flights[i].(driving := true);
      Replaced(flights, filed, i, f);
      flights := flights[i := f];
      filed := filed[handle.serial := f];
      return Ok(flights[i].phase);
    }
  }

  ghost predicate AllDriving(fs: seq<Flight>)
  {
    forall f :: f in fs ==> f.driving
  }

  /** Part way through the sweep: every flight is still filed, or resting among the orphans. */
  ghost predicate Swept(
    before: map<nat, Flight>, kept: map<nat, Flight>, flights: map<nat, Flight>, orphans: map<nat, Flight>)
  {
    && before.Keys !! kept.Keys
    && (forall k :: k in flights ==> k in before && flights[k] == before[k] && k !in orphans)
    && (forall k :: k in orphans ==>
          if k in kept then orphans[k] == kept[k] else k in before && !before[k].driving && orphans[k] == before[k])
    && (forall k :: k in kept ==> k in orphans)
    && (forall k :: k in before ==> k in flights || k in orphans)
  }

  lemma SweepOne(
    before: map<nat, Flight>, kept: map<nat, Flight>, flights: map<nat, Flight>, orphans: map<nat, Flight>, k: nat)
    requires Swept(before, kept, flights, orphans) && k in flights && !flights[k].driving
    ensures Swept(before, kept, flights - {k}, orphans[k := flights[k]])
  {
  }

  lemma SweepDone(
    before: map<nat, Flight>, kept: map<nat, Flight>, fs: seq<Flight>, flights: map<nat, Flight>,
    orphans: map<nat, Flight>)
    requires Files(fs, flights) && Swept(before, kept, flights, orphans)
    requires AllDriving(fs)
    ensures flights == map k | k in before && before[k].driving :: before[k]
    ensures orphans == kept + map k | k in before && !before[k].driving :: before[k]
  {
  }
}
