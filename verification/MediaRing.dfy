/** The ring of media diagnostic events and the reader that polls it with a cursor. */
module MediaRing {
  import opened Common

  const MEDIA_EVENT_RING_CAPACITY: nat := 256

  datatype Event = Event(sequence: nat, payload: nat)

  /** The last events of a history, each with its place in the history as sequence number, up to saturation. */
  function Tail(history: seq<nat>, capacity: nat): (events: seq<Event>)
  {
    var n, m := |history|, Min(|history|, capacity);
    seq(m, i requires 0 <= i < m => Event(Min(n - m + i + 1, U64_MAX), history[n - m + i]))
  }

  class MediaDiagnosticLog {
    const capacity: nat
    var events: seq<Event>
    var nextSequence: nat

    /** The log after a history of recorded events. */
    ghost predicate Holds(history: seq<nat>)
      reads this
    {
      && capacity > 0 && events == Tail(history, capacity)
      && nextSequence == Min(|history| + 1, U64_MAX)
    }

    constructor ()
      ensures Holds([]) && capacity == 256
    {
      capacity, events, nextSequence := MEDIA_EVENT_RING_CAPACITY, [], 1;
    }

    method Record(payload: nat, ghost history: seq<nat>)
      requires Holds(history)
      modifies this`events, this`nextSequence
      ensures Holds(history + [payload])
    {
      var sequence := nextSequence;
      nextSequence := if nextSequence < U64_MAX then nextSequence + 1 else U64_MAX;
      if |events| >= capacity {
        events := events[1..];
      }
      events := events + [Event(sequence, payload)];
      TailMore(history, payload, capacity);
    }
  }

  lemma TailMore(history: seq<nat>, payload: nat, capacity: nat)
    requires capacity > 0
    ensures var events := Tail(history, capacity);
            Tail(history + [payload], capacity) ==
            (if |events| >= capacity then events[1..] else events) + [Event(Min(|history| + 1, U64_MAX), payload)]
  {
  }

  /** The events after the cursor. */
  function Retain(events: seq<Event>, after: Option<nat>): (r: seq<Event>)
  {
    if events == [] then []
    else
      (if after.None? || events[0].sequence > after.value then [events[0]] else []) + Retain(events[1..], after)
  }

  /** `media_events_result` */
  function Poll(events: seq<Event>, after: Option<nat>, limit: nat): (r: seq<Event>)
  {
    var newer := Retain(events, after);
    if |newer| > limit then newer[..limit] else newer
  }

  method MediaEventsResult(events: seq<Event>, after: Option<nat>, limit: nat) returns (r: seq<Event>, truncated: bool)
    ensures r == Poll(events, after, limit)
    ensures truncated <==> |Retain(events, after)| > limit
  {
    r := events;
    if after.Some? {
      r := [];
      for i := 0 to |events|
        invariant r + Retain(events[i..], after) == Retain(events, after)
      {
        if events[i].sequence > after.value {
          r := r + [events[i]];
        }
      }
    } else {
      RetainAll(events);
    }
    truncated := |r| > limit;
    if truncated {
      r := r[..limit];
    }
  }

  lemma {:induction false} RetainAll(events: seq<Event>)
    ensures Retain(events, None) == events
  {
    if events != [] {
      RetainAll(events[1..]);
    }
  }

  // Below saturation

  /** Numbered one after the other from `first`. */
  ghost predicate Consecutive(events: seq<Event>, first: nat)
  {
    forall i :: 0 <= i < |events| ==> events[i].sequence == first + i
  }

  lemma TailConsecutive(history: seq<nat>, capacity: nat)
    requires |history| <= U64_MAX
    ensures Consecutive(Tail(history, capacity), |history| - Min(|history|, capacity) + 1)
  {
    forall i | 0 <= i < Min(|history|, capacity)
      ensures Tail(history, capacity)[i].sequence == |history| - Min(|history|, capacity) + 1 + i
    {
      TailAt(history, capacity, i);
    }
  }

  lemma TailAt(history: seq<nat>, capacity: nat, i: nat)
    requires i < Min(|history|, capacity)
    ensures var k := |history| - Min(|history|, capacity) + i;
            Tail(history, capacity)[i] == Event(Min(k + 1, U64_MAX), history[k])
  {
  }

  /** How many of the consecutive events the cursor has passed. */
  function Passed(length: nat, first: nat, cursor: nat): (k: nat)
    ensures k <= length
  {
    if cursor < first then 0 else Min(cursor - first + 1, length)
  }

  lemma {:induction false} RetainConsecutive(events: seq<Event>, first: nat, cursor: nat)
    requires Consecutive(events, first)
    ensures Retain(events, Some(cursor)) == events[Passed(|events|, first, cursor)..]
  {
    if events != [] {
      RetainConsecutive(events[1..], first + 1, cursor);
    }
  }

  // A reader that polls with the last sequence it saw

  datatype World = World(history: seq<nat>, got: seq<Event>)

  datatype Op = RecordOp(payload: nat) | PollOp(limit: nat)

  /** Zero before anything was seen: sequences start at one. */
  function Cursor(w: World): (c: nat)
  {
    if w.got == [] then 0 else w.got[|w.got| - 1].sequence
  }

  function After(w: World): (after: Option<nat>)
  {
    if w.got == [] then None else Some(Cursor(w))
  }

  function Next(w: World, op: Op, capacity: nat): (w': World)
  {
    match op
    case RecordOp(payload) => w.(history := w.history + [payload])
    case PollOp(limit) => w.(got := w.got + Poll(Tail(w.history, capacity), After(w), limit))
  }

  ghost predicate Run(ws: seq<World>, ops: seq<Op>, capacity: nat)
  {
    && |ws| == |ops| + 1 && ws[0] == World([], [])
    && (forall i :: 0 <= i < |ops| ==> ws[i + 1] == Next(ws[i], ops[i], capacity))
  }

  /** A poll takes a slice of the ring that starts after the cursor. */
  lemma PollSlice(w: World, limit: nat, capacity: nat)
    requires |w.history| <= U64_MAX
    ensures var events := Tail(w.history, capacity);
            var k := Passed(|events|, |w.history| - |events| + 1, Cursor(w));
            Poll(events, After(w), limit) == events[k..k + Min(|events| - k, limit)]
  {
    var events := Tail(w.history, capacity);
    TailConsecutive(w.history, capacity);
    RetainConsecutive(events, |w.history| - |events| + 1, Cursor(w));
    RetainAll(events);
  }

  /** The first event after the cursor that is still in the ring. */
  function First(w: World, capacity: nat): (first: nat)
  {
    var kept := |w.history| - Min(|w.history|, capacity);
    if Cursor(w) > kept then Cursor(w) + 1 else kept + 1
  }

  /** What a poll delivers: the events right after the cursor that are still in the ring, in order. */
  lemma PollDelivers(w: World, limit: nat, capacity: nat)
    requires |w.history| <= U64_MAX && Cursor(w) <= |w.history|
    ensures var first := First(w, capacity);
            var r := Poll(Tail(w.history, capacity), After(w), limit);
            && |r| == Min(|w.history| + 1 - first, limit)
            && forall i :: 0 <= i < |r| ==> r[i] == Event(first + i, w.history[first + i - 1])
  {
    PollSlice(w, limit, capacity);
    var r := Poll(Tail(w.history, capacity), After(w), limit);
    forall i | 0 <= i < |r|
      ensures r[i] == Event(First(w, capacity) + i, w.history[First(w, capacity) + i - 1])
    {
      var k := Passed(Min(|w.history|, capacity), |w.history| - Min(|w.history|, capacity) + 1, Cursor(w));
      TailAt(w.history, capacity, k + i);
    }
  }

  predicate Recorded(history: seq<nat>, e: Event)
  {
    1 <= e.sequence <= |history| && e.payload == history[e.sequence - 1]
  }

  /** Received in order and without repeats, each event as it was recorded. */
  ghost predicate InOrder(w: World)
  {
    && (forall i :: 0 <= i < |w.got| ==> Recorded(w.history, w.got[i]))
    && (forall i, j :: 0 <= i < j < |w.got| ==> w.got[i].sequence < w.got[j].sequence)
  }

  ghost predicate Got(w: World, m: nat)
  {
    exists i :: 0 <= i < |w.got| && w.got[i].sequence == m
  }

  /** An event at or before the cursor was received unless it has been evicted. */
  ghost predicate Accounted(w: World, m: nat, capacity: nat)
  {
    1 <= m <= Cursor(w) ==> Got(w, m) || m + capacity <= |w.history|
  }

  lemma InOrderKept(w: World, op: Op, capacity: nat)
    requires InOrder(w) && |w.history| <= U64_MAX
    ensures InOrder(Next(w, op, capacity))
  {
    if op.PollOp? {
      PollDelivers(w, op.limit, capacity);
    }
  }

  lemma AccountedKept(w: World, op: Op, capacity: nat, m: nat)
    requires InOrder(w) && |w.history| <= U64_MAX && Accounted(w, m, capacity)
    ensures Accounted(Next(w, op, capacity), m, capacity)
  {
    var w' := Next(w, op, capacity);
    if op.PollOp? && 1 <= m <= Cursor(w') && m + capacity > |w.history| {
      PollDelivers(w, op.limit, capacity);
      if Got(w, m) {
        var i :| 0 <= i < |w.got| && w.got[i].sequence == m;
        assert w'.got[i].sequence == m;
      } else {
        var first := w'.got[|w.got|].sequence;
        assert w'.got[|w.got| + (m - first)].sequence == m;
      }
    } else if Got(w, m) {
      var i :| 0 <= i < |w.got| && w.got[i].sequence == m;
      assert w'.got[i].sequence == m;
    }
  }

  lemma {:induction false} HistoryGrows(ws: seq<World>, ops: seq<Op>, capacity: nat, i: nat, j: nat)
    requires Run(ws, ops, capacity) && i <= j < |ws|
    ensures |ws[i].history| <= |ws[j].history|
  {
    if i < j {
      HistoryGrows(ws, ops, capacity, i, j - 1);
    }
  }

  /** A reader that keeps polling, with any limits and whatever is recorded between, receives events in order, without
      repeats, and misses only events that had been evicted. */
  lemma {:induction false} ReaderKeepsUp(ws: seq<World>, ops: seq<Op>, capacity: nat, i: nat, m: nat)
    requires Run(ws, ops, capacity) && i < |ws| && |ws[i].history| <= U64_MAX
    ensures InOrder(ws[i]) && Accounted(ws[i], m, capacity)
  {
    if i > 0 {
      HistoryGrows(ws, ops, capacity, i - 1, i);
      ReaderKeepsUp(ws, ops, capacity, i - 1, m);
      InOrderKept(ws[i - 1], ops[i - 1], capacity);
      AccountedKept(ws[i - 1], ops[i - 1], capacity, m);
    }
  }

  /** A poll that delivers nothing, with a positive limit, means that nothing new was recorded. */
  lemma EmptyPollIsCurrent(ws: seq<World>, ops: seq<Op>, capacity: nat, i: nat, limit: nat)
    requires Run(ws, ops, capacity) && i < |ws| && |ws[i].history| <= U64_MAX && limit > 0 && capacity > 0
    ensures Poll(Tail(ws[i].history, capacity), After(ws[i]), limit) == [] <==> Cursor(ws[i]) == |ws[i].history|
  {
    ReaderKeepsUp(ws, ops, capacity, i, 0);
    PollDelivers(ws[i], limit, capacity);
  }

  /** A reader that has seen all but the last event is given the last one if and only if its number is not saturated. */
  lemma LastSeenIffBelowSaturation(history: seq<nat>, capacity: nat, limit: nat)
    requires |history| > 1 && limit > 0 && capacity > 0
    ensures var n := |history|;
            Poll(Tail(history, capacity), Some(Min(n - 1, U64_MAX)), limit) ==
            if n <= U64_MAX then [Event(n, history[n - 1])] else []
  {
    var events, n := Tail(history, capacity), |history|;
    TailAt(history, capacity, |events| - 1);
    if n <= U64_MAX {
      TailConsecutive(history, capacity);
      RetainConsecutive(events, n - |events| + 1, n - 1);
      assert events[|events| - 1..] == [events[|events| - 1]];
    } else {
      TailSaturates(history, capacity);
      RetainNone(events, U64_MAX);
    }
  }

  lemma TailSaturates(history: seq<nat>, capacity: nat)
    ensures forall i :: 0 <= i < Min(|history|, capacity) ==> Tail(history, capacity)[i].sequence <= U64_MAX
  {
    forall i | 0 <= i < Min(|history|, capacity)
      ensures Tail(history, capacity)[i].sequence <= U64_MAX
    {
      TailAt(history, capacity, i);
    }
  }

  lemma {:induction false} RetainNone(events: seq<Event>, cursor: nat)
    requires forall i :: 0 <= i < |events| ==> events[i].sequence <= cursor
    ensures Retain(events, Some(cursor)) == []
  {
    if events != [] {
      RetainNone(events[1..], cursor);
    }
  }
}
