/** The bounded runtime and root pages of the setup catalog, read through revision-checked cursors. */
module SetupCatalog {
  import opened Common
  import opened RootOrder

  const SCAN_ROWS: nat := 32

  /** `Environment` stands for cancellation, a changed revision, a failed read and a stalled cursor. */
  datatype Error = InvalidBound | Overflow | BadField | Environment

  datatype Thread = Thread(position: nat, rootId: nat)

  /** One revision of the collection. When `reliable`, no environment failure occurs during the read. */
  datatype Store = Store(
    runtimes: seq<Runtime>, roots: map<nat, seq<Root>>, threads: seq<Thread>, reliable: bool)

  datatype Query = Query(text: string, normalize: string -> Option<string>)

  datatype Page<T> = Page(records: seq<T>, hasMore: bool)

  datatype SetupPage<T> = SetupPage(total: nat, rows: seq<T>)

  datatype RuntimeRow = RuntimeRow(runtime: Runtime, rootCount: nat)

  datatype RootRow = RootRow(runtime: Runtime, root: Root, threadCount: nat)

  function RootsOf(store: Store, runtime: Runtime): (roots: seq<Root>)
  {
    if runtime.id in store.roots then store.roots[runtime.id] else []
  }

  ghost predicate Ascending<T>(records: seq<T>, id: T -> nat)
  {
    forall i, j :: 0 <= i < j < |records| ==> id(records[i]) < id(records[j])
  }

  function RuntimeId(): Runtime -> nat { (r: Runtime) => r.id }

  function RootId(): Root -> nat { (r: Root) => r.id }

  function ThreadPosition(): Thread -> nat { (t: Thread) => t.position }

  ghost predicate DisjointIds(a: seq<Root>, b: seq<Root>)
  {
    forall x, y :: x in a && y in b ==> x.id != y.id
  }

  /** Every collection is stored in ascending cursor order. */
  ghost predicate Cursored(store: Store)
  {
    && Ascending(store.runtimes, RuntimeId())
    && Ascending(store.threads, ThreadPosition())
    && (forall r :: r in store.runtimes ==> Ascending(RootsOf(store, r), RootId()))
  }

  /** Moreover a root id belongs to one runtime only. */
  ghost predicate Valid(store: Store)
  {
    && Cursored(store)
    && (forall i, j :: 0 <= i < j < |store.runtimes| ==>
                         DisjointIds(RootsOf(store, store.runtimes[i]), RootsOf(store, store.runtimes[j])))
  }

  // Cursor reads

  /** Records strictly after the cursor. */
  function AfterCursor<T>(records: seq<T>, id: T -> nat, after: Option<nat>): (r: seq<T>)
  {
    if after.None? || records == [] || after.value < id(records[0]) then records
    else AfterCursor(records[1..], id, after)
  }

  lemma {:induction false} ResumeCursor<T>(records: seq<T>, id: T -> nat, k: nat)
    requires Ascending(records, id) && 0 < k <= |records|
    ensures AfterCursor(records, id, Some(id(records[k - 1]))) == records[k..]
  {
    var after := Some(id(records[k - 1]));
    if k > 1 {
      assert id(records[0]) < id(records[k - 1]);
      ResumeCursor(records[1..], id, k - 1);
    } else if |records| > 1 {
      assert AfterCursor(records, id, after) == AfterCursor(records[1..], id, after);
      assert id(records[0]) < id(records[1]);
    }
  }

  method Check(reliable: bool) returns (ok: bool)
    ensures reliable ==> ok
  {
    if reliable {
      ok := true;
    } else {
      ok := *;
    }
  }

  /** One page: the store alone decides how many of the remaining records it returns. */
  method Fetch<T>(reliable: bool, records: seq<T>, id: T -> nat, after: Option<nat>)
    returns (r: Result<Page<T>, Error>)
    ensures r.Ok? ==>
              && r.value.records <= AfterCursor(records, id, after)
              && |r.value.records| <= SCAN_ROWS
              && (r.value.hasMore <==> |r.value.records| < |AfterCursor(records, id, after)|)
    ensures r.Err? ==> r.error == Environment
    ensures reliable ==> r.Ok? && (r.value.hasMore ==> r.value.records != [])
  {
    var ok := Check(reliable);
    if !ok {
      return Err(Environment);
    }
    var rest := AfterCursor(records, id, after);
    var least := if reliable && rest != [] then 1 else 0;
    var k :| least <= k <= |rest| && k <= SCAN_ROWS;
    return Ok(Page(rest[..k], k < |rest|));
  }

  /** `rest` is what the cursor has left to deliver. */
  ghost predicate At<T>(records: seq<T>, id: T -> nat, after: Option<nat>, rest: seq<T>)
  {
    && |rest| <= |records|
    && rest == records[|records| - |rest|..]
    && AfterCursor(records, id, after) == rest
  }

  lemma ResumeAt<T>(records: seq<T>, id: T -> nat, after: Option<nat>, rest: seq<T>, rows: seq<T>)
    requires Ascending(records, id) && At(records, id, after, rest) && rows != [] && rows <= rest
    ensures At(records, id, Some(id(rows[|rows| - 1])), rest[|rows|..])
  {
    var k := |records| - |rest| + |rows|;
    ResumeCursor(records, id, k);
    assert rows[|rows| - 1] == records[k - 1];
    assert rest[|rows|..] == records[k..];
  }

  lemma PageAt<T>(records: seq<T>, id: T -> nat, after: Option<nat>, rest: seq<T>, rows: seq<T>, tail: seq<T>, at: nat)
    requires At(records, id, after, rest) && rest == rows + tail && at + |rest| == |records|
    ensures at + |rows| + |tail| == |records|
    ensures forall i :: 0 <= i < |rows| ==> rows[i] == records[at + i]
  {
    forall i | 0 <= i < |rows|
      ensures rows[i] == records[at + i]
    {
      assert rows[i] == rest[i];
    }
  }

  lemma Resume<T>(records: seq<T>, id: T -> nat, after: Option<nat>, rest: seq<T>, rows: seq<T>) returns (tail: seq<T>)
    requires Ascending(records, id) && At(records, id, after, rest) && rows <= rest
    ensures rest == rows + tail
    ensures rows != [] ==> At(records, id, Some(id(rows[|rows| - 1])), tail)
  {
    tail := rest[|rows|..];
    if rows != [] {
      ResumeAt(records, id, after, rest, rows);
    }
  }

  /** One turn of the cursor loop: check, fetch, and where the next turn resumes. */
  method Turn<T>(reliable: bool, records: seq<T>, id: T -> nat, after: Option<nat>, ghost rest: seq<T>)
    returns (r: Result<Page<T>, Error>, next: Option<nat>, ghost tail: seq<T>)
    requires Ascending(records, id) && At(records, id, after, rest)
    ensures r.Err? ==> r.error == Environment && !reliable
    ensures r.Ok? ==>
              && rest == r.value.records + tail
              && (!r.value.hasMore ==> tail == [])
              && (r.value.hasMore ==> r.value.records != [] && At(records, id, next, tail))
  {
    next, tail := None, [];
    var ok := Check(reliable);
    if !ok {
      return Err(Environment), None, [];
    }
    r := Fetch(reliable, records, id, after);
    if r.Ok? {
      var rows := r.value.records;
      if r.value.hasMore && rows == [] {
        return Err(Environment), None, [];
      }
      tail := Resume(records, id, after, rest, rows);
      if r.value.hasMore {
        next := Some(id(rows[|rows| - 1]));
      }
    }
  }

  // Visiting every record

  /** What a visitor sees when each record is passed to it once, in cursor order, up to its first error. */
  function Fold<T, S>(visit: (S, T) -> Result<S, Error>, init: S, records: seq<T>): (r: Result<S, Error>)
  {
    if records == [] then Ok(init)
    else
      match Fold(visit, init, records[..|records| - 1])
      case Err(e) => Err(e)
      case Ok(s) => visit(s, records[|records| - 1])
  }

  /** A visit can be cut anywhere: the second part starts from the state the first part reached. */
  lemma {:induction false} FoldAppend<T, S>(visit: (S, T) -> Result<S, Error>, init: S, a: seq<T>, b: seq<T>)
    ensures Fold(visit, init, a + b) ==
            match Fold(visit, init, a) case Err(e) => Err(e) case Ok(s) => Fold(visit, s, b)
  {
    if b == [] {
      assert a + b == a;
    } else {
      var n := |b| - 1;
      assert (a + b)[..|a + b| - 1] == a + b[..n];
      FoldAppend(visit, init, a, b[..n]);
    }
  }

  method VisitPage<T, S>(reliable: bool, rows: seq<T>, init: S, visit: (S, T) -> Result<S, Error>)
    returns (r: Result<S, Error>)
    ensures r == Fold(visit, init, rows) || (!reliable && r == Err(Environment))
  {
    var s := init;
    for i := 0 to |rows|
      invariant Fold(visit, init, rows[..i]) == Ok(s)
    {
      var ok := Check(reliable);
      if !ok {
        return Err(Environment);
      }
      var next := visit(s, rows[i]);
      assert rows[..i + 1][..i] == rows[..i];
      if next.Err? {
        FoldAppend(visit, init, rows[..i + 1], rows[i + 1..]);
        assert rows == rows[..i + 1] + rows[i + 1..];
        return Err(next.error);
      }
      s := next.value;
    }
    assert rows[..|rows|] == rows;
    return Ok(s);
  }

  /** `roots` (and the row loop of `thread_count`): however the store cuts its pages, the visitor
      sees every record exactly once in cursor order. */
  method ForEach<T, S>(
    reliable: bool, records: seq<T>, id: T -> nat, init: S, visit: (S, T) -> Result<S, Error>)
    returns (r: Result<S, Error>)
    requires Ascending(records, id)
    ensures r == Fold(visit, init, records) || (!reliable && r == Err(Environment))
  {
    var after := None;
    var s := init;
    ghost var rest := records;
    while true
      invariant At(records, id, after, rest)
      invariant Fold(visit, init, records) == Fold(visit, s, rest)
      decreases |rest|
    {
      var page, resume, tail := Turn(reliable, records, id, after, rest);
      if page.Err? {
        return Err(Environment);
      }
      FoldAppend(visit, s, page.value.records, tail);
      var next := VisitPage(reliable, page.value.records, s, visit);
      if next.Err? {
        return Err(next.error);
      }
      s := next.value;
      if !page.value.hasMore {
        break;
      }
      rest, after := tail, resume;
    }
    var ok := Check(reliable);
    if !ok {
      return Err(Environment);
    }
    return Ok(s);
  }

  // Runtime pages

  function Tick<T>(wanted: T -> bool): (nat, T) -> Result<nat, Error>
  {
    (n: nat, x: T) => if !wanted(x) then Ok(n) else if n == USIZE_MAX then Err(Overflow) else Ok(n + 1)
  }

  function Count<T>(records: seq<T>, wanted: T -> bool): (n: nat)
  {
    if records == [] then 0
    else Count(records[..|records| - 1], wanted) + if wanted(records[|records| - 1]) then 1 else 0
  }

  lemma {:induction false} TickCounts<T>(records: seq<T>, wanted: T -> bool)
    ensures Fold(Tick(wanted), 0, records) ==
            if Count(records, wanted) <= USIZE_MAX then Ok(Count(records, wanted)) else Err(Overflow)
  {
    if records != [] {
      TickCounts(records[..|records| - 1], wanted);
    }
  }

  function Anything<T>(): T -> bool { (x: T) => true }

  lemma {:induction false} CountAnything<T>(records: seq<T>)
    ensures Count(records, Anything<T>()) == |records|
  {
    if records != [] {
      CountAnything(records[..|records| - 1]);
    }
  }

  /** Runtimes `start..end` among the first `k`, with their root counts. */
  function RuntimeRows(store: Store, start: nat, end: nat, k: nat): (rows: seq<RuntimeRow>)
    requires k <= |store.runtimes|
  {
    if k == 0 then []
    else
      var rest := RuntimeRows(store, start, end, k - 1);
      var runtime := store.runtimes[k - 1];
      if start <= k - 1 < end then rest + [RuntimeRow(runtime, |RootsOf(store, runtime)|)] else rest
  }

  /** They are exactly positions `start..end`, each with its own root count. */
  lemma {:induction false} RuntimeRowsExact(store: Store, start: nat, end: nat, k: nat, i: nat)
    requires start <= end && k <= |store.runtimes|
    ensures |RuntimeRows(store, start, end, k)| == Min(end, k) - Min(start, k)
    ensures i < |RuntimeRows(store, start, end, k)| ==>
              RuntimeRows(store, start, end, k)[i] ==
              RuntimeRow(store.runtimes[start + i], |RootsOf(store, store.runtimes[start + i])|)
  {
    if k > 0 {
      RuntimeRowsExact(store, start, end, k - 1, i);
    }
  }

  /** No count among the first `k` runtimes passes the largest `usize`. */
  predicate Countable(store: Store, start: nat, end: nat, k: nat)
    requires k <= |store.runtimes|
  {
    && k <= USIZE_MAX
    && (forall i :: start <= i < Min(end, k) ==> |RootsOf(store, store.runtimes[i])| <= USIZE_MAX)
  }

  /** The visitor of `runtime_page` applied to one runtime. */
  method VisitRuntime(
    store: Store, start: nat, end: nat, runtime: Runtime, total: nat, rows: seq<RuntimeRow>)
    returns (r: Result<SetupPage<RuntimeRow>, Error>)
    requires Cursored(store) && start <= end && total < |store.runtimes| && runtime == store.runtimes[total]
    requires Countable(store, start, end, total) && rows == RuntimeRows(store, start, end, total)
    ensures r == (if Countable(store, start, end, total + 1)
                  then Ok(SetupPage(total + 1, RuntimeRows(store, start, end, total + 1)))
                  else Err(Overflow)) ||
            (!store.reliable && r == Err(Environment))
  {
    var next := rows;
    if start <= total < end {
      var roots := RootsOf(store, runtime);
      TickCounts(roots, Anything<Root>());
      CountAnything(roots);
      var counted := ForEach(store.reliable, roots, RootId(), 0, Tick(Anything<Root>()));
      if counted.Err? {
        return Err(counted.error);
      }
      next := rows + [RuntimeRow(runtime, counted.value)];
    }
    if total == USIZE_MAX {
      return Err(Overflow);
    }
    return Ok(SetupPage(total + 1, next));
  }

  lemma RuntimeOverflow(store: Store, start: nat, end: nat, k: nat)
    requires k <= |store.runtimes|
    ensures Countable(store, start, end, |store.runtimes|) ==> Countable(store, start, end, k)
  {
  }

  /** The visitor of `runtime_page` over one page of runtimes. */
  method VisitRuntimes(
    store: Store, start: nat, end: nat, records: seq<Runtime>, before: nat, initial: seq<RuntimeRow>)
    returns (r: Result<SetupPage<RuntimeRow>, Error>)
    requires Cursored(store) && start <= end && before + |records| <= |store.runtimes|
    requires forall i :: 0 <= i < |records| ==> records[i] == store.runtimes[before + i]
    requires Countable(store, start, end, before) && initial == RuntimeRows(store, start, end, before)
    ensures r.Ok? ==> var k := before + |records|;
                      Countable(store, start, end, k) && r.value == SetupPage(k, RuntimeRows(store, start, end, k))
    ensures r.Err? ==> || (r.error == Overflow && !Countable(store, start, end, |store.runtimes|))
                       || (r.error == Environment && !store.reliable)
  {
    var total, rows := before, initial;
    for i := 0 to |records|
      invariant total == before + i
      invariant Countable(store, start, end, total) && rows == RuntimeRows(store, start, end, total)
    {
      var ok := Check(store.reliable);
      if !ok {
        return Err(Environment);
      }
      var next := VisitRuntime(store, start, end, records[i], total, rows);
      if next.Err? {
        RuntimeOverflow(store, start, end, total + 1);
        return Err(next.error);
      }
      total, rows := next.value.total, next.value.rows;
    }
    return Ok(SetupPage(total, rows));
  }

  /** The next page of runtimes, and where they stand among all of them. */
  method NextRuntimes(
    reliable: bool, runtimes: seq<Runtime>, after: Option<nat>, ghost at: nat, ghost rest: seq<Runtime>)
    returns (r: Result<Page<Runtime>, Error>, resume: Option<nat>, ghost tail: seq<Runtime>)
    requires Ascending(runtimes, RuntimeId()) && At(runtimes, RuntimeId(), after, rest) && at + |rest| == |runtimes|
    ensures r.Err? ==> r.error == Environment && !reliable
    ensures r.Ok? ==>
              && at + |r.value.records| + |tail| == |runtimes|
              && (forall i :: 0 <= i < |r.value.records| ==> r.value.records[i] == runtimes[at + i])
              && (if r.value.hasMore then r.value.records != [] && At(runtimes, RuntimeId(), resume, tail)
                  else tail == [])
  {
    r, resume, tail := Turn(reliable, runtimes, RuntimeId(), after, rest);
    if r.Ok? {
      PageAt(runtimes, RuntimeId(), after, rest, r.value.records, tail, at);
    }
  }

  /** The scan of `runtime_page` over every page of runtimes. */
  method ScanRuntimes(store: Store, start: nat, end: nat) returns (r: Result<SetupPage<RuntimeRow>, Error>)
    requires Cursored(store) && start <= end
    ensures r.Ok? ==> var n := |store.runtimes|;
                      Countable(store, start, end, n) && r.value == SetupPage(n, RuntimeRows(store, start, end, n))
    ensures r.Err? ==> || (r.error == Overflow && !Countable(store, start, end, |store.runtimes|))
                       || (r.error == Environment && !store.reliable)
  {
    var total, rows := 0, [];
    var after := None;
    ghost var rest := store.runtimes;
    while true
      invariant At(store.runtimes, RuntimeId(), after, rest) && total + |rest| == |store.runtimes|
      invariant Countable(store, start, end, total) && rows == RuntimeRows(store, start, end, total)
      decreases |rest|
    {
      var page, resume, tail := NextRuntimes(store.reliable, store.runtimes, after, total, rest);
      if page.Err? {
        return Err(Environment);
      }
      var next := VisitRuntimes(store, start, end, page.value.records, total, rows);
      if next.Err? {
        return Err(next.error);
      }
      total, rows := next.value.total, next.value.rows;
      if !page.value.hasMore {
        break;
      }
      rest, after := tail, resume;
    }
    var ok := Check(store.reliable);
    if !ok {
      return Err(Environment);
    }
    return Ok(SetupPage(total, rows));
  }

  /** `runtime_page`: the exact slice with exact root counts and the exact total. */
  method RuntimePage(store: Store, start: nat, count: nat) returns (r: Result<SetupPage<RuntimeRow>, Error>)
    requires Cursored(store) && start <= USIZE_MAX
    ensures count == 0 || count > SCAN_ROWS ==> r == Err(InvalidBound)
    ensures 0 < count <= SCAN_ROWS && start + count > USIZE_MAX ==> r == Err(Overflow)
    ensures r.Ok? ==>
              var n := |store.runtimes|;
              && 0 < count <= SCAN_ROWS && start + count <= USIZE_MAX
              && Countable(store, start, start + count, n)
              && r.value == SetupPage(n, RuntimeRows(store, start, start + count, n))
    ensures r.Err? && 0 < count <= SCAN_ROWS && start + count <= USIZE_MAX ==>
              || (r.error == Overflow && !Countable(store, start, start + count, |store.runtimes|))
              || (r.error == Environment && !store.reliable)
  {
    if count == 0 || count > SCAN_ROWS {
      return Err(InvalidBound);
    }
    if start + count > USIZE_MAX {
      return Err(Overflow);
    }
    r := ScanRuntimes(store, start, start + count);
  }
}
