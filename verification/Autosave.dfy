/** Publication of the applied draft-autosave settings. */
module Autosave {
  import opened Common

  const MIN_SECONDS: nat := 5
  const MAX_SECONDS: nat := 300

  datatype Error = Unreadable | InvalidInterval | AnotherHome | StalePublication | StaleReplacement | Exhausted

  datatype Source = Source(home: nat, homeGeneration: nat, serviceGeneration: nat, revision: nat, publication: nat)

  datatype Publication = Publication(source: Source, number: nat, interval: Option<nat>)

  /** `reader` is the identity of the settings service that was read. */
  datatype Projection = Projection(reader: nat, current: Publication)

  datatype Duration = Duration(seconds: nat, nanos: nat)

  /** What a reader's snapshot says; a snapshot may come without an interval. */
  datatype Snapshot = Failed | Applied(source: Source, duration: Option<Duration>)

  /** Whole seconds within the allowed range. */
  function Interval(d: Duration): (r: Option<nat>)
  {
    if d.nanos == 0 && MIN_SECONDS <= d.seconds <= MAX_SECONDS then Some(d.seconds) else None
  }

  /** The source and interval to publish. */
  function Candidate(prior: Option<Projection>, reader: nat, snapshot: Snapshot)
    : (r: Result<(Source, Option<nat>), Error>)
  {
    match snapshot
    case Failed =>
      if prior.Some? && prior.value.reader == reader then Ok((prior.value.current.source, None)) else Err(Unreadable)
    case Applied(source, None) => Ok((source, None))
    case Applied(source, Some(d)) => if Interval(d).None? then Err(InvalidInterval) else Ok((source, Interval(d)))
  }

  /** Lexicographic order of the two generations. */
  predicate Newer(a: Source, b: Source)
  {
    a.homeGeneration > b.homeGeneration ||
    (a.homeGeneration == b.homeGeneration && a.serviceGeneration > b.serviceGeneration)
  }

  predicate Stale(source: Source, previous: Source)
  {
    source.homeGeneration != previous.homeGeneration || source.serviceGeneration != previous.serviceGeneration ||
    source.publication < previous.publication || (source.publication == previous.publication && source != previous)
  }

  /** `publish_applied`: the new projection and whether one was published. */
  function Publish(prior: Option<Projection>, reader: nat, snapshot: Snapshot)
    : (r: (Option<Projection>, Result<bool, Error>))
  {
    match Candidate(prior, reader, snapshot)
    case Err(e) => (prior, Err(e))
    case Ok((source, interval)) =>
      if prior.None? then (Some(Projection(reader, Publication(source, 1, interval))), Ok(true))
      else
        var current := prior.value.current;
        var same := prior.value.reader == reader;
        if source.home != current.source.home then (prior, Err(AnotherHome))
        else if same && Stale(source, current.source) then (prior, Err(StalePublication))
        else if same && source == current.source && interval == current.interval then (prior, Ok(false))
        else if !same && !Newer(source, current.source) then (prior, Err(StaleReplacement))
        else if CheckedNext(current.number).None? then (prior, Err(Exhausted))
        else (Some(Projection(reader, Publication(source, current.number + 1, interval))), Ok(true))
  }

  // The projection in place

  class SettingsAutosave {
    var projection: Option<Projection>

    constructor ()
      ensures projection == None
    {
      projection := None;
    }

    method PublishApplied(reader: nat, snapshot: Snapshot) returns (r: Result<bool, Error>)
      modifies this
      ensures (projection, r) == Publish(old(projection), reader, snapshot)
    {
      var source, interval;
      match snapshot {
        case Failed =>
          if projection.None? || projection.value.reader != reader {
            return Err(Unreadable);
          }
          source, interval := projection.value.current.source, None;
        case Applied(s, duration) =>
          source, interval := s, None;
          if duration.Some? {
            interval := Interval(duration.value);
            if interval.None? {
              return Err(InvalidInterval);
            }
          }
      }
      var number := Some(1);
      if projection.Some? {
        var current := projection.value.current;
        if source.home != current.source.home {
          return Err(AnotherHome);
        }
        if projection.value.reader == reader {
          if Stale(source, current.source) {
            return Err(StalePublication);
          }
          if source == current.source && interval == current.interval {
            return Ok(false);
          }
        } else if !Newer(source, current.source) {
          return Err(StaleReplacement);
        }
        number := CheckedNext(current.number);
      }
      if number.None? {
        return Err(Exhausted);
      }
      projection := Some(Projection(reader, Publication(source, number.value, interval)));
      return Ok(true);
    }
  }

  // Runs

  datatype Call = Call(reader: nat, snapshot: Snapshot)

  ghost predicate Run(states: seq<Option<Projection>>, calls: seq<Call>)
  {
    && |states| == |calls| + 1 && states[0] == None
    && (forall i :: 0 <= i < |calls| ==> states[i + 1] == Publish(states[i], calls[i].reader, calls[i].snapshot).0)
  }

  /** The number of calls that published. */
  function Published(states: seq<Option<Projection>>, calls: seq<Call>): (n: nat)
    requires |states| == |calls| + 1
    decreases |calls|
  {
    if calls == [] then 0
    else
      var last := calls[|calls| - 1];
      Published(states[..|calls|], calls[..|calls| - 1]) +
      if Publish(states[|calls| - 1], last.reader, last.snapshot).1 == Ok(true) then 1 else 0
  }

  /** (home generation, service generation, source publication), compared lexicographically. */
  predicate AtMost(a: Source, b: Source)
  {
    Newer(b, a) || (!Newer(a, b) && a.publication <= b.publication)
  }

  lemma Step(p: Projection, reader: nat, snapshot: Snapshot)
    ensures var (q, r) := Publish(Some(p), reader, snapshot);
            && q.Some? && q.value.current.source.home == p.current.source.home
            && AtMost(p.current.source, q.value.current.source)
            && (AtMost(q.value.current.source, p.current.source) ==> q.value.current.source == p.current.source)
            && (if r == Ok(true) then q.value.current.number == p.current.number + 1 <= U64_MAX else q == Some(p))
  {
  }

  /** Over any calls of any readers: the home stays, numbers rise strictly with every published change, the
      source never falls back, and a source that does not advance is the very same source. */
  lemma {:induction false} PublicationsRise(states: seq<Option<Projection>>, calls: seq<Call>, i: nat, j: nat)
    requires Run(states, calls) && i <= j < |states| && states[i].Some?
    ensures states[j].Some?
    ensures var (a, b) := (states[i].value.current, states[j].value.current);
            && a.source.home == b.source.home && AtMost(a.source, b.source)
            && (AtMost(b.source, a.source) ==> b.source == a.source)
            && a.number <= b.number && (a.number == b.number ==> states[i] == states[j])
  {
    if i < j {
      PublicationsRise(states, calls, i, j - 1);
      Step(states[j - 1].value, calls[j - 1].reader, calls[j - 1].snapshot);
    }
  }

  /** The number of a publication counts the calls that published. */
  lemma {:induction false} NumberCounts(states: seq<Option<Projection>>, calls: seq<Call>)
    requires Run(states, calls)
    ensures var last := states[|calls|];
            Published(states, calls) == if last.Some? then last.value.current.number else 0
  {
    if calls != [] {
      var n := |calls|;
      NumberCounts(states[..n], calls[..n - 1]);
      if states[n - 1].Some? {
        Step(states[n - 1].value, calls[n - 1].reader, calls[n - 1].snapshot);
      }
    }
  }

  /** A call that does not fail leaves the snapshot's own source and interval published: whole seconds from 5 to 300,
      none if the snapshot has none, and none for a reader that can no longer be read. */
  lemma PublishedSays(prior: Option<Projection>, reader: nat, snapshot: Snapshot)
    requires Publish(prior, reader, snapshot).1.Ok?
    ensures var q := Publish(prior, reader, snapshot).0;
            && q.Some? && q.value.reader == reader
            && (snapshot.Applied? ==> q.value.current.source == snapshot.source)
            && (snapshot.Failed? ==> prior.Some? && q.value.current.source == prior.value.current.source)
            && (q.value.current.interval.Some? <==> snapshot.Applied? && snapshot.duration.Some?)
            && (q.value.current.interval.Some? ==>
                  5 <= q.value.current.interval.value <= 300 &&
                  snapshot.duration == Some(Duration(q.value.current.interval.value, 0)))
  {
  }

  /** Nothing to publish: the reader cannot be read and was not the last one read, or its interval is not a whole number
      of seconds from 5 to 300. */
  lemma UnusableAnswer(prior: Option<Projection>, reader: nat, snapshot: Snapshot)
    ensures Publish(prior, reader, snapshot).1 == Err(Unreadable) <==>
              snapshot.Failed? && (prior.None? || prior.value.reader != reader)
    ensures Publish(prior, reader, snapshot).1 == Err(InvalidInterval) <==>
              snapshot.Applied? && snapshot.duration.Some? &&
              (snapshot.duration.value.nanos != 0 || snapshot.duration.value.seconds < 5 ||
               snapshot.duration.value.seconds > 300)
    ensures prior.None? && Publish(prior, reader, snapshot).1.Err? ==>
              Publish(prior, reader, snapshot).1.error in {Unreadable, InvalidInterval}
  {
  }

  /** A usable snapshot against what is published. The same reader may follow within its two generations, by a later
      publication or by the very same source; another reader only replaces it with a later pair of generations. */
  lemma PublishAnswer(p: Projection, reader: nat, source: Source, duration: Option<Duration>)
    requires duration.Some? ==> duration.value.nanos == 0 && 5 <= duration.value.seconds <= 300
    ensures var last := p.current.source;
            var interval := if duration.Some? then Some(duration.value.seconds) else None;
            var follows := && source.homeGeneration == last.homeGeneration
                           && source.serviceGeneration == last.serviceGeneration
                           && (source == last || source.publication > last.publication);
            var outranks := source.homeGeneration > last.homeGeneration ||
                            (source.homeGeneration == last.homeGeneration &&
                             source.serviceGeneration > last.serviceGeneration);
            Publish(Some(p), reader, Applied(source, duration)).1 ==
            if source.home != last.home then Err(AnotherHome)
            else if p.reader == reader && !follows then Err(StalePublication)
            else if p.reader == reader && source == last && interval == p.current.interval then Ok(false)
            else if p.reader != reader && !outranks then Err(StaleReplacement)
            else if p.current.number >= 0xFFFF_FFFF_FFFF_FFFF then Err(Exhausted)
            else Ok(true)
  {
  }

  /** A reader that can no longer be read publishes its last source without an interval, once. */
  lemma FailedAnswer(p: Projection)
    ensures Publish(Some(p), p.reader, Failed).1 ==
            if p.current.interval.None? then Ok(false)
            else if p.current.number >= 0xFFFF_FFFF_FFFF_FFFF then Err(Exhausted) else Ok(true)
  {
  }
}
