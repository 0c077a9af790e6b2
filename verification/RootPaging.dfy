/** Root pages: the multi-pass, bounded-buffer search refines "filter, sort, slice". */
module RootPaging {
  import opened Common
  import opened RootOrder
  import opened SetupCatalog

  // Filtering

  predicate Contains(text: string, part: string)
  {
    exists i | 0 <= i <= |text| :: part <= text[i..]
  }

  function MatchesAny(query: Query, fields: seq<string>): (r: Result<bool, Error>)
  {
    if fields == [] then Ok(false)
    else
      match query.normalize(fields[0])
      case None => Err(BadField)
      case Some(field) => if Contains(field, query.text) then Ok(true) else MatchesAny(query, fields[1..])
  }

  function Matches(query: Query, row: Row): (r: Result<bool, Error>)
  {
    if query.text == "" then Ok(true)
    else MatchesAny(query, [row.runtime.environment, row.runtime.executable, row.root.path])
  }

  /** The reference filter: every matching row, or the first failure met in cursor order. */
  function Matching(query: Query, rows: seq<Row>): (r: Result<seq<Row>, Error>)
  {
    if rows == [] then Ok([])
    else
      var n := |rows| - 1;
      match Matching(query, rows[..n])
      case Err(e) => Err(e)
      case Ok(found) =>
        match Matches(query, rows[n])
        case Err(e) => Err(e)
        case Ok(false) => Ok(found)
        case Ok(true) => if |found| >= USIZE_MAX then Err(Overflow) else Ok(found + [rows[n]])
  }

  lemma {:induction false} MatchingStops(query: Query, a: seq<Row>, b: seq<Row>)
    requires Matching(query, a).Err?
    ensures Matching(query, a + b) == Matching(query, a)
  {
    if b == [] {
      assert a + b == a;
    } else {
      assert (a + b)[..|a + b| - 1] == a + b[..|b| - 1];
      MatchingStops(query, a, b[..|b| - 1]);
    }
  }

  lemma {:induction false} MatchingDistinct(query: Query, rows: seq<Row>)
    requires DistinctRoots(rows) && Matching(query, rows).Ok?
    ensures DistinctRoots(Matching(query, rows).value)
    ensures forall x :: x in Matching(query, rows).value ==> x in rows
  {
    if rows != [] {
      var n := |rows| - 1;
      MatchingDistinct(query, rows[..n]);
      forall x | x in Matching(query, rows[..n]).value
        ensures x.root.id != rows[n].root.id
      {
        assert x in rows[..n];
      }
    }
  }

  // The rows in scope

  predicate InScope(scope: Option<nat>, runtime: Runtime)
  {
    scope.Some? ==> scope.value == runtime.id
  }

  function RowsOf(runtime: Runtime, roots: seq<Root>): (rows: seq<Row>)
    ensures |rows| == |roots|
  {
    seq(|roots|, i requires 0 <= i < |roots| => Row(runtime, roots[i]))
  }

  function AllRows(store: Store, scope: Option<nat>, runtimes: seq<Runtime>): (rows: seq<Row>)
  {
    if runtimes == [] then []
    else
      var n := |runtimes| - 1;
      AllRows(store, scope, runtimes[..n]) +
      if InScope(scope, runtimes[n]) then RowsOf(runtimes[n], RootsOf(store, runtimes[n])) else []
  }

  lemma {:induction false} AllRowsFrom(store: Store, scope: Option<nat>, k: nat, x: Row) returns (i: nat)
    requires k <= |store.runtimes| && x in AllRows(store, scope, store.runtimes[..k])
    ensures i < k && x.root in RootsOf(store, store.runtimes[i])
  {
    i := k - 1;
    assert store.runtimes[..k][..i] == store.runtimes[..i];
    if x in AllRows(store, scope, store.runtimes[..i]) {
      i := AllRowsFrom(store, scope, i, x);
    }
  }

  lemma DistinctJoin(a: seq<Row>, b: seq<Row>)
    requires DistinctRoots(a) && DistinctRoots(b)
    requires forall x, y :: x in a && y in b ==> x.root.id != y.root.id
    ensures DistinctRoots(a + b)
  {
  }

  lemma RowsOfDistinct(runtime: Runtime, roots: seq<Root>)
    requires Ascending(roots, RootId())
    ensures DistinctRoots(RowsOf(runtime, roots))
  {
  }

  lemma {:induction false} AllRowsDistinct(store: Store, scope: Option<nat>, k: nat)
    requires Valid(store) && k <= |store.runtimes|
    ensures DistinctRoots(AllRows(store, scope, store.runtimes[..k]))
  {
    if k > 0 {
      var runtime := store.runtimes[k - 1];
      var before := AllRows(store, scope, store.runtimes[..k - 1]);
      var rows := RowsOf(runtime, RootsOf(store, runtime));
      assert store.runtimes[..k][..k - 1] == store.runtimes[..k - 1];
      AllRowsDistinct(store, scope, k - 1);
      if InScope(scope, runtime) {
        assert runtime in store.runtimes;
        RowsOfDistinct(runtime, RootsOf(store, runtime));
        forall x, y | x in before && y in rows
          ensures x.root.id != y.root.id
        {
          var i := AllRowsFrom(store, scope, k - 1, x);
          assert DisjointIds(RootsOf(store, store.runtimes[i]), RootsOf(store, runtime));
        }
        DistinctJoin(before, rows);
      }
    }
  }

  // One pass

  datatype Scan = Scan(selected: seq<Row>, total: nat)

  /** What one pass must hold after visiting `rows`: the first `batch` sorted matches after `after`. */
  function Expected(query: Query, rows: seq<Row>, after: Option<Key>, batch: nat): (r: Result<Scan, Error>)
  {
    match Matching(query, rows)
    case Err(e) => Err(e)
    case Ok(found) => Ok(Scan(Cut(Sorted(Keep(found, after)), batch), |found|))
  }

  /** A match enters the buffer at its place, if it comes after the resume key and before the buffer's end; a buffer
      grown past `batch` loses its last row. */
  function Offer(selected: seq<Row>, row: Row, after: Option<Key>, batch: nat): (r: seq<Row>)
    ensures |selected| <= batch ==> |r| <= batch
  {
    var key := KeyOf(row.root);
    if after.Some? && !Before(after.value, key) then selected
    else if Position(selected, key) < batch then
      var grown := Insert(selected, row);
      if |grown| > batch then grown[..|grown| - 1] else grown
    else selected
  }

  /** The visitor of `root_page`; the buffer holds at most `batch` rows after every visit. */
  function VisitRoot(query: Query, after: Option<Key>, batch: nat, s: Scan, row: Row): (r: Result<Scan, Error>)
    ensures r.Ok? && |s.selected| <= batch ==> |r.value.selected| <= batch
  {
    match Matches(query, row)
    case Err(e) => Err(e)
    case Ok(false) => Ok(s)
    case Ok(true) =>
      if s.total >= USIZE_MAX then Err(Overflow) else Ok(Scan(Offer(s.selected, row, after, batch), s.total + 1))
  }

  lemma MatchingSnoc(query: Query, rows: seq<Row>, row: Row)
    requires Matching(query, rows).Ok?
    ensures Matching(query, rows + [row]) ==
            var found := Matching(query, rows).value;
            match Matches(query, row)
            case Err(e) => Err(e)
            case Ok(false) => Ok(found)
            case Ok(true) => if |found| >= USIZE_MAX then Err(Overflow) else Ok(found + [row])
  {
    assert (rows + [row])[..|rows|] == rows;
  }

  /** Offering a match to the buffer keeps the best `batch` rows seen so far. */
  lemma OfferKeepsBest(found: seq<Row>, row: Row, after: Option<Key>, batch: nat)
    ensures Cut(Sorted(Keep(found + [row], after)), batch) ==
            Offer(Cut(Sorted(Keep(found, after)), batch), row, after, batch)
  {
    KeepSnoc(found, row, after);
    if after.None? || Before(after.value, KeyOf(row.root)) {
      SortedSnoc(Keep(found, after), row);
      InsertCut(Sorted(Keep(found, after)), row, batch);
    }
  }

  lemma VisitRootStep(query: Query, after: Option<Key>, batch: nat, rows: seq<Row>, row: Row, s: Scan)
    requires Expected(query, rows, after, batch) == Ok(s)
    ensures VisitRoot(query, after, batch, s, row) == Expected(query, rows + [row], after, batch)
  {
    var found := Matching(query, rows).value;
    MatchingSnoc(query, rows, row);
    OfferKeepsBest(found, row, after, batch);
  }

  function Visitor(query: Query, after: Option<Key>, batch: nat, runtime: Runtime): (Scan, Root) -> Result<Scan, Error>
  {
    (s: Scan, root: Root) => VisitRoot(query, after, batch, s, Row(runtime, root))
  }

  lemma RowsOfSnoc(rows: seq<Row>, runtime: Runtime, roots: seq<Root>)
    requires roots != []
    ensures rows + RowsOf(runtime, roots) ==
            rows + RowsOf(runtime, roots[..|roots| - 1]) + [Row(runtime, roots[|roots| - 1])]
  {
  }

  lemma {:induction false} VisitRuntimeRoots(
    query: Query, after: Option<Key>, batch: nat, runtime: Runtime, rows: seq<Row>, s: Scan, roots: seq<Root>)
    requires Expected(query, rows, after, batch) == Ok(s)
    ensures Fold(Visitor(query, after, batch, runtime), s, roots) ==
            Expected(query, rows + RowsOf(runtime, roots), after, batch)
  {
    if roots == [] {
      assert rows + RowsOf(runtime, roots) == rows;
    } else {
      var n := |roots| - 1;
      var before := rows + RowsOf(runtime, roots[..n]);
      var row := Row(runtime, roots[n]);
      VisitRuntimeRoots(query, after, batch, runtime, rows, s, roots[..n]);
      RowsOfSnoc(rows, runtime, roots);
      if Matching(query, before).Err? {
        MatchingStops(query, before, [row]);
      } else {
        VisitRootStep(query, after, batch, before, row, Expected(query, before, after, batch).value);
      }
    }
  }

  /** What the outer visitor does to one runtime when nothing fails. */
  function RuntimeVisitor(store: Store, scope: Option<nat>, query: Query, after: Option<Key>, batch: nat)
    : (Scan, Runtime) -> Result<Scan, Error>
  {
    (s: Scan, runtime: Runtime) =>
      if InScope(scope, runtime) then Fold(Visitor(query, after, batch, runtime), s, RootsOf(store, runtime))
      else Ok(s)
  }

  lemma {:induction false} VisitAllRuntimes(
    store: Store, scope: Option<nat>, query: Query, after: Option<Key>, batch: nat, runtimes: seq<Runtime>)
    ensures Fold(RuntimeVisitor(store, scope, query, after, batch), Scan([], 0), runtimes) ==
            Expected(query, AllRows(store, scope, runtimes), after, batch)
  {
    if runtimes != [] {
      var n := |runtimes| - 1;
      var runtime := runtimes[n];
      var before := AllRows(store, scope, runtimes[..n]);
      VisitAllRuntimes(store, scope, query, after, batch, runtimes[..n]);
      if !InScope(scope, runtime) {
        assert before + [] == before;
      } else if Matching(query, before).Err? {
        MatchingStops(query, before, RowsOf(runtime, RootsOf(store, runtime)));
      } else {
        VisitRuntimeRoots(query, after, batch, runtime, before, Expected(query, before, after, batch).value,
                          RootsOf(store, runtime));
      }
    }
  }

  method VisitRuntime(
    store: Store, scope: Option<nat>, query: Query, after: Option<Key>, batch: nat, s: Scan, runtime: Runtime)
    returns (r: Result<Scan, Error>)
    requires Cursored(store) && runtime in store.runtimes
    ensures r == RuntimeVisitor(store, scope, query, after, batch)(s, runtime) ||
            (!store.reliable && r == Err(Environment))
  {
    if !InScope(scope, runtime) {
      return Ok(s);
    }
    r := ForEach(store.reliable, RootsOf(store, runtime), RootId(), s, Visitor(query, after, batch, runtime));
  }

  method PassPage(
    store: Store, scope: Option<nat>, query: Query, after: Option<Key>, batch: nat, records: seq<Runtime>, init: Scan)
    returns (r: Result<Scan, Error>)
    requires Cursored(store) && (forall x :: x in records ==> x in store.runtimes)
    ensures r == Fold(RuntimeVisitor(store, scope, query, after, batch), init, records) ||
            (!store.reliable && r == Err(Environment))
  {
    ghost var visit := RuntimeVisitor(store, scope, query, after, batch);
    var s := init;
    for i := 0 to |records|
      invariant Fold(visit, init, records[..i]) == Ok(s)
    {
      var ok := Check(store.reliable);
      if !ok {
        return Err(Environment);
      }
      var next := VisitRuntime(store, scope, query, after, batch, s, records[i]);
      assert records[..i + 1][..i] == records[..i];
      if next.Err? {
        FoldAppend(visit, init, records[..i + 1], records[i + 1..]);
        assert records == records[..i + 1] + records[i + 1..];
        return Err(next.error);
      }
      s := next.value;
    }
    assert records[..|records|] == records;
    return Ok(s);
  }

  method PassFold(store: Store, scope: Option<nat>, query: Query, after: Option<Key>, batch: nat)
    returns (r: Result<Scan, Error>)
    requires Cursored(store)
    ensures r == Fold(RuntimeVisitor(store, scope, query, after, batch), Scan([], 0), store.runtimes) ||
            (!store.reliable && r == Err(Environment))
  {
    ghost var visit := RuntimeVisitor(store, scope, query, after, batch);
    var s := Scan([], 0);
    var cursor := None;
    ghost var rest := store.runtimes;
    while true
      invariant At(store.runtimes, RuntimeId(), cursor, rest)
      invariant Fold(visit, Scan([], 0), store.runtimes) == Fold(visit, s, rest)
      decreases |rest|
    {
      var page, resume, tail := Turn(store.reliable, store.runtimes, RuntimeId(), cursor, rest);
      if page.Err? {
        return Err(Environment);
      }
      FoldAppend(visit, s, page.value.records, tail);
      assert forall x :: x in page.value.records ==> x in rest;
      var next := PassPage(store, scope, query, after, batch, page.value.records, s);
      if next.Err? {
        return Err(next.error);
      }
      s := next.value;
      if !page.value.hasMore {
        break;
      }
      rest, cursor := tail, resume;
    }
    var ok := Check(store.reliable);
    if !ok {
      return Err(Environment);
    }
    return Ok(s);
  }

  /** One scan of the whole collection, holding at most `batch` rows. */
  method Pass(store: Store, scope: Option<nat>, query: Query, after: Option<Key>, batch: nat)
    returns (r: Result<Scan, Error>)
    requires Cursored(store)
    ensures r == Expected(query, AllRows(store, scope, store.runtimes), after, batch) ||
            (!store.reliable && r == Err(Environment))
  {
    VisitAllRuntimes(store, scope, query, after, batch, store.runtimes);
    r := PassFold(store, scope, query, after, batch);
  }

  // Thread counts

  function OfRoot(rootId: nat): Thread -> bool { (t: Thread) => t.rootId == rootId }

  function WithCounts(store: Store, rows: seq<Row>): (r: Result<seq<RootRow>, Error>)
  {
    if rows == [] then Ok([])
    else
      var n := |rows| - 1;
      match WithCounts(store, rows[..n])
      case Err(e) => Err(e)
      case Ok(counted) =>
        var threads := Count(store.threads, OfRoot(rows[n].root.id));
        if threads > USIZE_MAX then Err(Overflow)
        else Ok(counted + [RootRow(rows[n].runtime, rows[n].root, threads)])
  }

  lemma {:induction false} WithCountsStops(store: Store, rows: seq<Row>, k: nat)
    requires k <= |rows| && WithCounts(store, rows[..k]).Err?
    ensures WithCounts(store, rows) == WithCounts(store, rows[..k])
  {
    if k < |rows| {
      var n := |rows| - 1;
      assert rows[..n][..k] == rows[..k];
      WithCountsStops(store, rows[..n], k);
    } else {
      assert rows[..k] == rows;
    }
  }

  method ThreadCount(store: Store, rootId: nat) returns (r: Result<nat, Error>)
    requires Cursored(store)
    ensures r == (var n := Count(store.threads, OfRoot(rootId)); if n <= USIZE_MAX then Ok(n) else Err(Overflow)) ||
            (!store.reliable && r == Err(Environment))
  {
    TickCounts(store.threads, OfRoot(rootId));
    r := ForEach(store.reliable, store.threads, ThreadPosition(), 0, Tick(OfRoot(rootId)));
  }

  method CountRows(store: Store, selected: seq<Row>) returns (r: Result<seq<RootRow>, Error>)
    requires Cursored(store)
    ensures r == WithCounts(store, selected) || (!store.reliable && r == Err(Environment))
  {
    var rows := [];
    for i := 0 to |selected|
      invariant WithCounts(store, selected[..i]) == Ok(rows)
    {
      var threads := ThreadCount(store, selected[i].root.id);
      assert selected[..i + 1][..i] == selected[..i];
      if threads.Err? {
        if threads.error == Overflow {
          WithCountsStops(store, selected, i + 1);
        }
        return Err(threads.error);
      }
      rows := rows + [RootRow(selected[i].runtime, selected[i].root, threads.value)];
    }
    assert selected[..|selected|] == selected;
    var ok := Check(store.reliable);
    if !ok {
      return Err(Environment);
    }
    return Ok(rows);
  }

  // What a page is, in terms of the stored records alone

  /** The latest activity comes first, no activity counts as time zero, and equal times go by root id. */
  predicate Precedes(a: Root, b: Root)
  {
    var x := if a.lastActivity.Some? then a.lastActivity.value else 0;
    var y := if b.lastActivity.Some? then b.lastActivity.value else 0;
    x > y || (x == y && a.id < b.id)
  }

  predicate Reads(query: Query, field: string)
  {
    query.normalize(field).Some?
  }

  /** The normalised field contains the query. */
  predicate Hits(query: Query, field: string)
  {
    query.normalize(field).Some? &&
    exists i, j :: 0 <= i <= j <= |query.normalize(field).value| && query.normalize(field).value[i..j] == query.text
  }

  /** The environment label, the executable and the path are searched, in this order. */
  predicate Wanted(query: Query, row: Row)
  {
    query.text == "" || Hits(query, row.runtime.environment) ||
    (Reads(query, row.runtime.environment) &&
     (Hits(query, row.runtime.executable) ||
      (Reads(query, row.runtime.executable) && Hits(query, row.root.path))))
  }

  ghost function FoundRows(store: Store, scope: Option<nat>, query: Query): (found: set<Row>)
  {
    set runtime, root | runtime in store.runtimes && runtime.id in store.roots && root in store.roots[runtime.id] &&
                        (scope == None || scope == Some(runtime.id)) && Wanted(query, Row(runtime, root))
                     :: Row(runtime, root)
  }

  ghost function Ahead(found: set<Row>, root: Root): (rows: set<Row>)
  {
    set x | x in found && Precedes(x.root, root)
  }

  ghost function ThreadsOf(store: Store, root: Root): (threads: set<nat>)
  {
    set i | 0 <= i < |store.threads| && store.threads[i].rootId == root.id
  }

  /** Row `i` of the page is the found row with exactly `start + i` found rows ahead of it, with its number of threads;
      and the page ends only at its count or with the last found row. */
  ghost predicate IsPage(store: Store, found: set<Row>, start: nat, count: nat, page: SetupPage<RootRow>)
  {
    && page.total == |found|
    && |page.rows| == Min(start + count, |found|) - Min(start, |found|)
    && forall i :: 0 <= i < |page.rows| ==> IsRow(store, found, start + i, page.rows[i])
  }

  ghost predicate IsRow(store: Store, found: set<Row>, rank: nat, row: RootRow)
  {
    && Row(row.runtime, row.root) in found && |Ahead(found, row.root)| == rank
    && row.threadCount == |ThreadsOf(store, row.root)|
  }

  ghost predicate OnPage(page: SetupPage<RootRow>, x: Row)
  {
    exists i :: 0 <= i < |page.rows| && page.rows[i].runtime == x.runtime && page.rows[i].root == x.root
  }

  /** Rows descend, what is left out before precedes the first row and what is left out after follows the last. */
  ghost predicate InOrder(found: set<Row>, start: nat, page: SetupPage<RootRow>)
  {
    && (forall i, j :: 0 <= i < j < |page.rows| ==> Precedes(page.rows[i].root, page.rows[j].root))
    && (forall x :: x in found && !OnPage(page, x) && page.rows != [] ==>
          if |Ahead(found, x.root)| < start then Precedes(x.root, page.rows[0].root)
          else Precedes(page.rows[|page.rows| - 1].root, x.root))
  }

  /** Every row in scope can be matched, and no count passes the largest `usize`. */
  ghost predicate Clean(store: Store, scope: Option<nat>, query: Query)
  {
    && (forall runtime, root :: runtime in store.runtimes && root in RootsOf(store, runtime) ==>
          Readable(query, Row(runtime, root)))
    && |FoundRows(store, scope, query)| <= USIZE_MAX && |store.threads| <= USIZE_MAX
  }

  lemma ContainsIff(text: string, part: string)
    ensures Contains(text, part) <==> exists i, j :: 0 <= i <= j <= |text| && text[i..j] == part
  {
    if Contains(text, part) {
      var i :| 0 <= i <= |text| && part <= text[i..];
      assert text[i..i + |part|] == part;
    }
    if i, j :| 0 <= i <= j <= |text| && text[i..j] == part {
      assert part <= text[i..];
    }
  }

  lemma FieldStep(query: Query, field: string, rest: seq<string>)
    ensures MatchesAny(query, [field] + rest) ==
            if !Reads(query, field) then Err(BadField)
            else if Hits(query, field) then Ok(true) else MatchesAny(query, rest)
  {
    assert ([field] + rest)[1..] == rest;
    if Reads(query, field) {
      ContainsIff(query.normalize(field).value, query.text);
    }
  }

  predicate Readable(query: Query, row: Row)
  {
    query.text == "" || (Reads(query, row.runtime.environment) && Reads(query, row.runtime.executable) &&
                         Reads(query, row.root.path))
  }

  /** A row matches if and only if the query is empty or one of the three fields has it. */
  lemma MatchesIff(query: Query, row: Row)
    ensures Matches(query, row) == Ok(true) <==> Wanted(query, row)
    ensures Readable(query, row) ==> Matches(query, row).Ok?
  {
    var e, x, p := row.runtime.environment, row.runtime.executable, row.root.path;
    FieldStep(query, e, [x, p]);
    FieldStep(query, x, [p]);
    FieldStep(query, p, []);
    assert [e, x, p] == [e] + [x, p] && [x, p] == [x] + [p] && [p] == [p] + [];
  }

  lemma {:induction false} AllRowsMembers(store: Store, scope: Option<nat>, runtimes: seq<Runtime>, x: Row)
    ensures x in AllRows(store, scope, runtimes) <==>
              x.runtime in runtimes && InScope(scope, x.runtime) && x.root in RootsOf(store, x.runtime)
  {
    if runtimes != [] {
      var n := |runtimes| - 1;
      AllRowsMembers(store, scope, runtimes[..n], x);
      assert runtimes == runtimes[..n] + [runtimes[n]];
      RowsOfMembers(runtimes[n], RootsOf(store, runtimes[n]), x);
    }
  }

  lemma RowsOfMembers(runtime: Runtime, roots: seq<Root>, x: Row)
    ensures x in RowsOf(runtime, roots) <==> x.runtime == runtime && x.root in roots
  {
    if x.runtime == runtime && x.root in roots {
      var i :| 0 <= i < |roots| && roots[i] == x.root;
      assert RowsOf(runtime, roots)[i] == x;
    }
  }

  lemma {:induction false} MatchingMembers(query: Query, rows: seq<Row>, x: Row)
    requires Matching(query, rows).Ok?
    ensures x in Matching(query, rows).value <==> x in rows && Matches(query, x) == Ok(true)
  {
    if rows != [] {
      var n := |rows| - 1;
      MatchingMembers(query, rows[..n], x);
      assert rows == rows[..n] + [rows[n]];
    }
  }

  /** The found rows are the members of the reference filter. */
  lemma FoundMembers(store: Store, scope: Option<nat>, query: Query, x: Row)
    requires Matching(query, AllRows(store, scope, store.runtimes)).Ok?
    ensures x in FoundRows(store, scope, query) <==> x in Matching(query, AllRows(store, scope, store.runtimes)).value
  {
    MatchingMembers(query, AllRows(store, scope, store.runtimes), x);
    AllRowsMembers(store, scope, store.runtimes, x);
    MatchesIff(query, x);
    assert x == Row(x.runtime, x.root);
  }

  ghost function Elements(rows: seq<Row>): (r: set<Row>)
  {
    set x | x in rows
  }

  lemma {:induction false} ElementsSize(rows: seq<Row>)
    requires forall i, j :: 0 <= i < j < |rows| ==> rows[i] != rows[j]
    ensures |Elements(rows)| == |rows|
  {
    if rows != [] {
      var n := |rows| - 1;
      ElementsSize(rows[..n]);
      assert rows[n] !in rows[..n];
      assert Elements(rows) == Elements(rows[..n]) + {rows[n]};
    }
  }

  /** The order of the list is the order of the stored activities and ids. */
  lemma AheadIff(all: seq<Row>, i: nat, k: nat)
    requires Ordered(all) && i < |all| && k < |all|
    ensures Precedes(all[i].root, all[k].root) <==> i < k
  {
    if i < k {
      assert Before(KeyOf(all[i].root), KeyOf(all[k].root));
    } else if k < i {
      assert Before(KeyOf(all[k].root), KeyOf(all[i].root));
    }
  }

  /** Each row of an ordered list has as many rows ahead of it as stand before it. */
  lemma RankOf(all: seq<Row>, found: set<Row>, k: nat)
    requires Ordered(all) && k < |all| && (forall x :: x in found <==> x in all)
    ensures all[k] in found && |Ahead(found, all[k].root)| == k
  {
    forall x
      ensures x in Ahead(found, all[k].root) <==> x in Elements(all[..k])
    {
      if x in all {
        var i :| 0 <= i < |all| && all[i] == x;
        AheadIff(all, i, k);
        forall j | 0 <= j < |all| && all[j] == x
          ensures j < k <==> i < k
        {
          AheadIff(all, j, k);
        }
      }
    }
    assert Ahead(found, all[k].root) == Elements(all[..k]);
    forall i, j | 0 <= i < j < k
      ensures all[i] != all[j]
    {
      AheadIff(all, i, j);
      AheadIff(all, j, i);
    }
    ElementsSize(all[..k]);
  }

  lemma {:induction false} ThreadsCounted(store: Store, root: Root, n: nat)
    requires n <= |store.threads|
    ensures Count(store.threads[..n], OfRoot(root.id)) ==
            |set i | 0 <= i < n && store.threads[i].rootId == root.id|
    ensures Count(store.threads[..n], OfRoot(root.id)) <= n
  {
    if n > 0 {
      ThreadsCounted(store, root, n - 1);
      assert store.threads[..n][..n - 1] == store.threads[..n - 1];
      var before := set i | 0 <= i < n - 1 && store.threads[i].rootId == root.id;
      var now := set i | 0 <= i < n && store.threads[i].rootId == root.id;
      if store.threads[n - 1].rootId == root.id {
        assert now == before + {n - 1};
      } else {
        assert now == before;
      }
    }
  }

  lemma CountIsThreads(store: Store, root: Root)
    ensures Count(store.threads, OfRoot(root.id)) == |ThreadsOf(store, root)| <= |store.threads|
  {
    ThreadsCounted(store, root, |store.threads|);
    assert store.threads[..|store.threads|] == store.threads;
  }

  lemma {:induction false} CountedRow(store: Store, rows: seq<Row>, i: nat)
    requires WithCounts(store, rows).Ok?
    ensures |WithCounts(store, rows).value| == |rows|
    ensures i < |rows| ==>
              WithCounts(store, rows).value[i] ==
              RootRow(rows[i].runtime, rows[i].root, |ThreadsOf(store, rows[i].root)|)
  {
    if rows != [] {
      var n := |rows| - 1;
      CountedRow(store, rows[..n], i);
      CountIsThreads(store, rows[n].root);
    }
  }

  lemma {:induction false} CountsSucceed(store: Store, rows: seq<Row>)
    requires |store.threads| <= USIZE_MAX
    ensures WithCounts(store, rows).Ok?
  {
    if rows != [] {
      CountsSucceed(store, rows[..|rows| - 1]);
      CountIsThreads(store, rows[|rows| - 1].root);
    }
  }

  lemma SubsetSize(a: set<Row>, b: set<Row>)
    requires a <= b
    ensures |a| <= |b|
  {
    assert b == a + (b - a);
  }

  /** Filtering rows that can all be matched and are not too many does not fail. */
  lemma {:induction false} MatchingSucceeds(query: Query, rows: seq<Row>, found: set<Row>, k: nat)
    requires k <= |rows| && DistinctRoots(rows) && |found| <= USIZE_MAX
    requires forall x :: x in rows ==> Matches(query, x).Ok? && (Matches(query, x) == Ok(true) ==> x in found)
    ensures Matching(query, rows[..k]).Ok?
  {
    if k > 0 {
      var row, front := rows[k - 1], rows[..k - 1];
      MatchingSucceeds(query, rows, found, k - 1);
      assert rows[..k][..k - 1] == front;
      assert row in rows;
      if Matches(query, row) == Ok(true) {
        RoomForOne(query, front, row, found);
      }
    }
  }

  lemma RoomForOne(query: Query, front: seq<Row>, row: Row, found: set<Row>)
    requires DistinctRoots(front + [row]) && row in found && Matching(query, front).Ok?
    requires forall x :: x in front && Matches(query, x) == Ok(true) ==> x in found
    ensures |Matching(query, front).value| < |found|
  {
    var value := Matching(query, front).value;
    assert front == (front + [row])[..|front|];
    MatchingDistinct(query, front);
    ElementsSize(value);
    forall x | x in value
      ensures x in found && x != row
    {
      MatchingMembers(query, front, x);
      var i :| 0 <= i < |front| && front[i] == x;
      assert (front + [row])[i] == x && (front + [row])[|front|] == row;
    }
    assert Elements(value) <= found - {row};
    SubsetSize(Elements(value), found - {row});
  }

  // Root pages

  /** Filter, sort, slice, count. */
  ghost function Reference(store: Store, scope: Option<nat>, query: Query, start: nat, count: nat)
    : (r: Result<SetupPage<RootRow>, Error>)
  {
    match Matching(query, AllRows(store, scope, store.runtimes))
    case Err(e) => Err(e)
    case Ok(found) =>
      match WithCounts(store, Sorted(found)[Min(start, |found|)..Min(start + count, |found|)])
      case Err(e) => Err(e)
      case Ok(rows) => Ok(SetupPage(|found|, rows))
  }

  lemma SliceIsPage(
    store: Store, all: seq<Row>, found: set<Row>, start: nat, count: nat, slice: seq<Row>, page: SetupPage<RootRow>)
    requires Ordered(all) && (forall x :: x in found <==> x in all) && |found| == |all| == page.total
    requires slice == all[Min(start, |all|)..Min(start + count, |all|)]
    requires WithCounts(store, slice) == Ok(page.rows)
    ensures IsPage(store, found, start, count, page)
  {
    CountedRow(store, slice, 0);
    forall i | 0 <= i < |slice|
      ensures IsRow(store, found, start + i, page.rows[i])
    {
      CountedRow(store, slice, i);
      RankOf(all, found, start + i);
    }
  }

  /** The reference page is the page of the found rows. */
  lemma ReferenceIsPage(store: Store, scope: Option<nat>, query: Query, start: nat, count: nat)
    requires Valid(store)
    ensures var r := Reference(store, scope, query, start, count);
            r.Ok? ==> IsPage(store, FoundRows(store, scope, query), start, count, r.value)
  {
    var r := Reference(store, scope, query, start, count);
    if r.Ok? {
      var all := Sorted(Matching(query, AllRows(store, scope, store.runtimes)).value);
      FoundSorted(store, scope, query);
      SliceIsPage(store, all, FoundRows(store, scope, query), start, count,
                  all[Min(start, |all|)..Min(start + count, |all|)], r.value);
    }
  }

  /** Fewer rows ahead means further ahead. */
  lemma RankOrders(found: set<Row>, a: Row, b: Row)
    requires IdsDistinct(found) && a in found && b in found
    ensures |Ahead(found, a.root)| < |Ahead(found, b.root)| ==> Precedes(a.root, b.root)
  {
    if !Precedes(a.root, b.root) {
      SubsetSize(Ahead(found, b.root), Ahead(found, a.root));
    }
  }

  ghost predicate IdsDistinct(found: set<Row>)
  {
    forall a, b :: a in found && b in found && a.root.id == b.root.id ==> a == b
  }

  lemma OneRuntime(store: Store, i: nat, j: nat, x: Root, y: Root)
    requires Valid(store) && i < |store.runtimes| && j < |store.runtimes|
    requires x in RootsOf(store, store.runtimes[i]) && y in RootsOf(store, store.runtimes[j]) && x.id == y.id
    ensures i == j
  {
  }

  lemma OneRoot(roots: seq<Root>, x: Root, y: Root)
    requires Ascending(roots, RootId()) && x in roots && y in roots && x.id == y.id
    ensures x == y
  {
    var i :| 0 <= i < |roots| && roots[i] == x;
    var j :| 0 <= j < |roots| && roots[j] == y;
    assert RootId()(roots[i]) == RootId()(roots[j]);
  }

  lemma OneRow(store: Store, a: Row, b: Row)
    requires Valid(store) && a.runtime in store.runtimes && b.runtime in store.runtimes && a.root.id == b.root.id
    requires a.root in RootsOf(store, a.runtime) && b.root in RootsOf(store, b.runtime)
    ensures a == b
  {
    var i :| 0 <= i < |store.runtimes| && store.runtimes[i] == a.runtime;
    var j :| 0 <= j < |store.runtimes| && store.runtimes[j] == b.runtime;
    OneRuntime(store, i, j, a.root, b.root);
    OneRoot(RootsOf(store, a.runtime), a.root, b.root);
  }

  lemma FoundIdsDistinct(store: Store, scope: Option<nat>, query: Query)
    requires Valid(store)
    ensures IdsDistinct(FoundRows(store, scope, query))
  {
    var found := FoundRows(store, scope, query);
    forall a, b | a in found && b in found && a.root.id == b.root.id
      ensures a == b
    {
      OneRow(store, a, b);
    }
  }

  /** A found row off the page is ahead of every row of the page, or behind every row of it. */
  lemma OffPage(store: Store, found: set<Row>, start: nat, count: nat, page: SetupPage<RootRow>, x: Row)
    requires IsPage(store, found, start, count, page) && x in found && !OnPage(page, x)
    requires IdsDistinct(found)
    ensures if |Ahead(found, x.root)| < start
            then forall i :: 0 <= i < |page.rows| ==> Precedes(x.root, page.rows[i].root)
            else forall i :: 0 <= i < |page.rows| ==> Precedes(page.rows[i].root, x.root)
  {
    var rank := |Ahead(found, x.root)|;
    forall i | 0 <= i < |page.rows|
      ensures if rank < start then Precedes(x.root, page.rows[i].root) else Precedes(page.rows[i].root, x.root)
    {
      assert IsRow(store, found, start + i, page.rows[i]);
      var here := Row(page.rows[i].runtime, page.rows[i].root);
      RankOrders(found, x, here);
      RankOrders(found, here, x);
      if start <= rank < start + i {
        var at := page.rows[rank - start];
        assert IsRow(store, found, rank, at);
        SameRank(found, x, Row(at.runtime, at.root));
      }
      if rank == start + i {
        SameRank(found, x, here);
      }
    }
  }

  lemma AheadGrows(found: set<Row>, a: Row, b: Row)
    requires a in found && Precedes(a.root, b.root)
    ensures |Ahead(found, a.root)| < |Ahead(found, b.root)|
  {
    var before, after := Ahead(found, a.root), Ahead(found, b.root);
    assert a !in before && a in after;
    forall x | x in before
      ensures x in after - {a}
    {
    }
    SubsetSize(before, after - {a});
  }

  lemma SameRank(found: set<Row>, a: Row, b: Row)
    requires a in found && b in found && |Ahead(found, a.root)| == |Ahead(found, b.root)|
    requires IdsDistinct(found)
    ensures a == b
  {
    if Precedes(a.root, b.root) {
      AheadGrows(found, a, b);
    } else if Precedes(b.root, a.root) {
      AheadGrows(found, b, a);
    }
  }

  /** The page in the words of its order: its rows descend by activity and then by id, the found rows it leaves out
      before it number `start` at most and precede its first row, and every other one follows its last row. */
  lemma PageOrder(store: Store, scope: Option<nat>, query: Query, start: nat, count: nat, page: SetupPage<RootRow>)
    requires Valid(store) && IsPage(store, FoundRows(store, scope, query), start, count, page)
    ensures InOrder(FoundRows(store, scope, query), start, page)
  {
    var found := FoundRows(store, scope, query);
    FoundIdsDistinct(store, scope, query);
    forall i, j | 0 <= i < j < |page.rows|
      ensures Precedes(page.rows[i].root, page.rows[j].root)
    {
      assert IsRow(store, found, start + i, page.rows[i]) && IsRow(store, found, start + j, page.rows[j]);
      RankOrders(found, Row(page.rows[i].runtime, page.rows[i].root), Row(page.rows[j].runtime, page.rows[j].root));
    }
    forall x | x in found && !OnPage(page, x) && page.rows != []
      ensures if |Ahead(found, x.root)| < start then Precedes(x.root, page.rows[0].root)
              else Precedes(page.rows[|page.rows| - 1].root, x.root)
    {
      OffPage(store, found, start, count, page, x);
    }
  }

  /** The sorted matches are the found rows, each once, in order. */
  lemma FoundSorted(store: Store, scope: Option<nat>, query: Query)
    requires Valid(store) && Matching(query, AllRows(store, scope, store.runtimes)).Ok?
    ensures var all := Sorted(Matching(query, AllRows(store, scope, store.runtimes)).value);
            && Ordered(all) && (forall x :: x in FoundRows(store, scope, query) <==> x in all)
            && |FoundRows(store, scope, query)| == |all|
  {
    var rows := AllRows(store, scope, store.runtimes);
    var found := Matching(query, rows).value;
    assert store.runtimes[..|store.runtimes|] == store.runtimes;
    AllRowsDistinct(store, scope, |store.runtimes|);
    MatchingDistinct(query, rows);
    SortedIsOrdered(found);
    forall x
      ensures x in FoundRows(store, scope, query) <==> x in Sorted(found)
    {
      FoundMembers(store, scope, query, x);
      SameMembers(found, x);
    }
    ElementsSize(found);
    assert FoundRows(store, scope, query) == Elements(found) by {
      forall x
        ensures x in FoundRows(store, scope, query) <==> x in Elements(found)
      {
        FoundMembers(store, scope, query, x);
      }
    }
  }

  lemma ReferenceSucceeds(store: Store, scope: Option<nat>, query: Query, start: nat, count: nat)
    requires Valid(store)
    ensures Clean(store, scope, query) ==> Reference(store, scope, query, start, count).Ok?
  {
    if Clean(store, scope, query) {
      var rows := AllRows(store, scope, store.runtimes);
      assert store.runtimes[..|store.runtimes|] == store.runtimes && rows[..|rows|] == rows;
      AllRowsDistinct(store, scope, |store.runtimes|);
      forall x | x in rows
        ensures Matches(query, x).Ok? && (Matches(query, x) == Ok(true) ==> x in FoundRows(store, scope, query))
      {
        AllRowsMembers(store, scope, store.runtimes, x);
        MatchesIff(query, x);
        assert x == Row(x.runtime, x.root);
      }
      MatchingSucceeds(query, rows, FoundRows(store, scope, query), |rows|);
      var found := Matching(query, rows).value;
      CountsSucceed(store, Sorted(found)[Min(start, |found|)..Min(start + count, |found|)]);
    }
  }

  lemma PassFromSkipped(found: seq<Row>, after: Option<Key>, skipped: nat)
    requires DistinctRoots(found) && skipped <= |found|
    requires after == if skipped == 0 then None else Some(KeyOf(Sorted(found)[skipped - 1].root))
    ensures Sorted(Keep(found, after)) == Sorted(found)[skipped..]
  {
    if skipped == 0 {
      KeepAll(found);
    } else {
      ResumeAfter(found, skipped);
    }
  }

  /** The page boundaries of one pass: either it is the requested page, or a further prefix to skip. */
  lemma PassSlice(all: seq<Row>, skipped: nat, batch: nat)
    requires skipped <= |all|
    ensures Cut(all[skipped..], batch) == all[skipped..Min(skipped + batch, |all|)]
  {
  }

  /** `root_page`: whatever the page cuts, the repeated bounded passes return the page of the found rows. */
  method RootPage(store: Store, scope: Option<nat>, query: Query, start: nat, count: nat)
    returns (r: Result<SetupPage<RootRow>, Error>)
    requires Valid(store)
    ensures count == 0 || count > 32 ==> r == Err(InvalidBound)
    ensures 0 < count <= 32 ==>
              r == Reference(store, scope, query, start, count) || (!store.reliable && r == Err(Environment))
    ensures r.Ok? ==> IsPage(store, FoundRows(store, scope, query), start, count, r.value)
    ensures r.Ok? ==> InOrder(FoundRows(store, scope, query), start, r.value)
    ensures store.reliable && 0 < count <= 32 && Clean(store, scope, query) ==> r.Ok?
  {
    ReferenceIsPage(store, scope, query, start, count);
    ReferenceSucceeds(store, scope, query, start, count);
    r := RootPageByPasses(store, scope, query, start, count);
    if r.Ok? {
      PageOrder(store, scope, query, start, count, r.value);
    }
  }

  /** One pass that resumes after `skipped` rows, in terms of the whole order. */
  method Batch(store: Store, scope: Option<nat>, query: Query, after: Option<Key>, batch: nat, ghost skipped: nat)
    returns (pass: Result<Scan, Error>)
    requires Valid(store) && 0 < batch <= SCAN_ROWS && skipped <= |SortedMatches(store, scope, query)|
    requires after == ResumeKey(SortedMatches(store, scope, query), skipped)
    ensures pass.Ok? ==>
              var all := SortedMatches(store, scope, query);
              && Matching(query, AllRows(store, scope, store.runtimes)).Ok?
              && pass.value == Scan(all[skipped..Min(skipped + batch, |all|)], |all|)
    ensures pass.Err? ==>
              || (Matching(query, AllRows(store, scope, store.runtimes)) == Err(pass.error))
              || (!store.reliable && pass == Err(Environment))
  {
    PassBatch(store, scope, query, after, batch, skipped);
    pass := Pass(store, scope, query, after, batch);
  }

  /** The loop of `root_page`. */
  method RootPageByPasses(store: Store, scope: Option<nat>, query: Query, start: nat, count: nat)
    returns (r: Result<SetupPage<RootRow>, Error>)
    requires Valid(store)
    ensures count == 0 || count > SCAN_ROWS ==> r == Err(InvalidBound)
    ensures 0 < count <= SCAN_ROWS ==>
              r == Reference(store, scope, query, start, count) || (!store.reliable && r == Err(Environment))
  {
    if count == 0 || count > SCAN_ROWS {
      return Err(InvalidBound);
    }
    ghost var all := SortedMatches(store, scope, query);
    var after := None;
    var skipped := 0;
    while true
      invariant skipped <= start && skipped <= |all|
      invariant after == ResumeKey(all, skipped)
      decreases start - skipped
    {
      var remaining := start - skipped;
      var batch := if remaining == 0 then count else Min(remaining, SCAN_ROWS);
      var pass := Batch(store, scope, query, after, batch, skipped);
      if pass.Err? {
        return Err(pass.error);
      }
      var selected := pass.value.selected;
      LastPass(store, scope, query, start, count, batch, skipped);
      if remaining == 0 || selected == [] {
        var counted := CountRows(store, selected);
        if counted.Err? {
          return Err(counted.error);
        }
        return Ok(SetupPage(pass.value.total, counted.value));
      }
      skipped := skipped + |selected|;
      after := Some(KeyOf(selected[|selected| - 1].root));
    }
  }

  /** A pass that skips nothing, or finds nothing left to skip, selected the requested page. */
  lemma LastPass(
    store: Store, scope: Option<nat>, query: Query, start: nat, count: nat, batch: nat, skipped: nat)
    requires Matching(query, AllRows(store, scope, store.runtimes)).Ok? && 0 < count
    requires skipped <= start && skipped <= |SortedMatches(store, scope, query)|
    requires batch == if start == skipped then count else Min(start - skipped, SCAN_ROWS)
    ensures var all := SortedMatches(store, scope, query);
            var selected := all[skipped..Min(skipped + batch, |all|)];
            start == skipped || selected == [] ==>
              Reference(store, scope, query, start, count) ==
              match WithCounts(store, selected)
              case Err(e) => Err(e)
              case Ok(rows) => Ok(SetupPage(|all|, rows))
  {
  }

  /** The whole reference order, empty when some row cannot be matched. */
  ghost function SortedMatches(store: Store, scope: Option<nat>, query: Query): (all: seq<Row>)
  {
    match Matching(query, AllRows(store, scope, store.runtimes))
    case Err(_) => []
    case Ok(found) => Sorted(found)
  }

  ghost function ResumeKey(all: seq<Row>, skipped: nat): (after: Option<Key>)
    requires skipped <= |all|
  {
    if skipped == 0 then None else Some(KeyOf(all[skipped - 1].root))
  }

  /** A pass that resumes after `skipped` rows selects exactly the next `batch` rows of the order. */
  lemma PassBatch(store: Store, scope: Option<nat>, query: Query, after: Option<Key>, batch: nat, skipped: nat)
    requires Valid(store)
    requires skipped <= |SortedMatches(store, scope, query)|
    requires after == ResumeKey(SortedMatches(store, scope, query), skipped)
    ensures var all := SortedMatches(store, scope, query);
            match Matching(query, AllRows(store, scope, store.runtimes))
            case Err(e) => Expected(query, AllRows(store, scope, store.runtimes), after, batch) == Err(e)
            case Ok(found) =>
              && |all| == |found|
              && Expected(query, AllRows(store, scope, store.runtimes), after, batch) ==
                 Ok(Scan(all[skipped..Min(skipped + batch, |all|)], |found|))
  {
    var rows := AllRows(store, scope, store.runtimes);
    if Matching(query, rows).Ok? {
      var found := Matching(query, rows).value;
      assert store.runtimes[..|store.runtimes|] == store.runtimes;
      AllRowsDistinct(store, scope, |store.runtimes|);
      MatchingDistinct(query, rows);
      PassFromSkipped(found, after, skipped);
      PassSlice(Sorted(found), skipped, batch);
    }
  }
}
