/** The order of root rows on a setup page, and the reference sort the paging algorithm is held to. */
module RootOrder {
  import opened Common

  datatype Runtime = Runtime(id: nat, environment: string, executable: string)

  datatype Root = Root(id: nat, path: string, lastActivity: Option<nat>)

  datatype Row = Row(runtime: Runtime, root: Root)

  /** `RootOrder`: latest activity first, then ascending root id; no activity counts as time zero. */
  datatype Key = Key(activity: nat, id: nat)

  function KeyOf(root: Root): (k: Key)
  {
    Key(match root.lastActivity case Some(t) => t case None => 0, root.id)
  }

  predicate Before(a: Key, b: Key)
  {
    a.activity > b.activity || (a.activity == b.activity && a.id < b.id)
  }

  ghost predicate Ordered(rows: seq<Row>)
  {
    forall i, j :: 0 <= i < j < |rows| ==> Before(KeyOf(rows[i].root), KeyOf(rows[j].root))
  }

  ghost predicate DistinctRoots(rows: seq<Row>)
  {
    forall i, j :: 0 <= i < j < |rows| ==> rows[i].root.id != rows[j].root.id
  }

  /** `partition_point(|row| row.0 < key)`: the number of leading rows before `key`. */
  function Position(rows: seq<Row>, key: Key): (p: nat)
    ensures p <= |rows|
  {
    if rows == [] || !Before(KeyOf(rows[0].root), key) then 0 else 1 + Position(rows[1..], key)
  }

  lemma {:induction false} PositionSplits(rows: seq<Row>, key: Key)
    ensures forall i :: 0 <= i < Position(rows, key) ==> Before(KeyOf(rows[i].root), key)
    ensures Position(rows, key) < |rows| ==> !Before(KeyOf(rows[Position(rows, key)].root), key)
  {
    if rows != [] && Before(KeyOf(rows[0].root), key) {
      PositionSplits(rows[1..], key);
    }
  }

  function Insert(rows: seq<Row>, row: Row): (r: seq<Row>)
    ensures |r| == |rows| + 1
  {
    var p := Position(rows, KeyOf(row.root));
    rows[..p] + [row] + rows[p..]
  }

  /** The reference sort. */
  function Sorted(rows: seq<Row>): (r: seq<Row>)
    ensures |r| == |rows|
  {
    if rows == [] then [] else Insert(Sorted(rows[..|rows| - 1]), rows[|rows| - 1])
  }

  /** The reference sort keeps every row. */
  lemma {:induction false} SortedIsPermutation(rows: seq<Row>)
    ensures multiset(Sorted(rows)) == multiset(rows)
  {
    if rows != [] {
      var n := |rows| - 1;
      var before := Sorted(rows[..n]);
      var p := Position(before, KeyOf(rows[n].root));
      SortedIsPermutation(rows[..n]);
      assert rows == rows[..n] + [rows[n]];
      assert before == before[..p] + before[p..];
    }
  }

  function Cut(rows: seq<Row>, limit: nat): (r: seq<Row>)
    ensures |r| <= limit
  {
    if |rows| <= limit then rows else rows[..limit]
  }

  /** Rows strictly after `after`. */
  function Keep(rows: seq<Row>, after: Option<Key>): (r: seq<Row>)
  {
    if rows == [] then []
    else
      var n := |rows| - 1;
      var rest := Keep(rows[..n], after);
      if after.Some? && !Before(after.value, KeyOf(rows[n].root)) then rest else rest + [rows[n]]
  }

  lemma {:induction false} KeepMembers(rows: seq<Row>, after: Option<Key>, x: Row)
    ensures x in Keep(rows, after) <==> x in rows && (after.Some? ==> Before(after.value, KeyOf(x.root)))
  {
    if rows != [] {
      var n := |rows| - 1;
      assert rows == rows[..n] + [rows[n]];
      KeepMembers(rows[..n], after, x);
    }
  }

  lemma InsertOrdered(rows: seq<Row>, row: Row)
    requires Ordered(rows)
    requires forall r :: r in rows ==> r.root.id != row.root.id
    ensures Ordered(Insert(rows, row))
  {
    var key := KeyOf(row.root);
    var p := Position(rows, key);
    var r := Insert(rows, row);
    PositionSplits(rows, key);
    forall i, j | 0 <= i < j < |r|
      ensures Before(KeyOf(r[i].root), KeyOf(r[j].root))
    {
      if j == p {
        assert r[i] == rows[i];
      } else if i == p {
        assert r[j] == rows[j - 1] && rows[j - 1] in rows;
        assert rows[p] in rows;
        assert Before(key, KeyOf(rows[p].root));
        if p < j - 1 {
          assert Before(KeyOf(rows[p].root), KeyOf(rows[j - 1].root));
        }
      }
    }
  }

  /** The reference sort orders every collection of rows with distinct root ids. */
  lemma {:induction false} SortedIsOrdered(rows: seq<Row>)
    requires DistinctRoots(rows)
    ensures Ordered(Sorted(rows))
  {
    if rows != [] {
      var n := |rows| - 1;
      SortedIsOrdered(rows[..n]);
      forall r | r in Sorted(rows[..n])
        ensures r.root.id != rows[n].root.id
      {
        SameMembers(rows[..n], r);
      }
      InsertOrdered(Sorted(rows[..n]), rows[n]);
    }
  }

  /** An ordered sequence is determined by the rows it holds, so there is only one sorted page. */
  lemma {:induction false} OrderedUnique(a: seq<Row>, b: seq<Row>)
    requires Ordered(a) && Ordered(b)
    requires forall x :: x in a <==> x in b
    ensures a == b
  {
    assert |a| > 0 ==> a[0] in a;
    assert |b| > 0 ==> b[0] in b;
    if a != [] {
      assert a[0] == b[0];
      forall x
        ensures x in a[1..] <==> x in b[1..]
      {
        if x in a[1..] {
          assert x in a && x != a[0];
        }
        if x in b[1..] {
          assert x in b && x != b[0];
        }
      }
      OrderedUnique(a[1..], b[1..]);
    }
  }

  lemma SuffixAfter(all: seq<Row>, skipped: nat, x: Row)
    requires Ordered(all) && 0 < skipped <= |all|
    ensures x in all[skipped..] <==> x in all && Before(KeyOf(all[skipped - 1].root), KeyOf(x.root))
  {
  }

  /** Resuming after the last row already passed sorts exactly the rest. */
  lemma ResumeAfter(rows: seq<Row>, skipped: nat)
    requires DistinctRoots(rows) && 0 < skipped <= |rows|
    ensures Sorted(Keep(rows, Some(KeyOf(Sorted(rows)[skipped - 1].root)))) == Sorted(rows)[skipped..]
  {
    var all := Sorted(rows);
    var kept := Keep(rows, Some(KeyOf(all[skipped - 1].root)));
    SortedIsOrdered(rows);
    KeepDistinct(rows, Some(KeyOf(all[skipped - 1].root)));
    SortedIsOrdered(kept);
    forall x
      ensures x in Sorted(kept) <==> x in all[skipped..]
    {
      SuffixAfter(all, skipped, x);
      SameMembers(kept, x);
      SameMembers(rows, x);
      KeepMembers(rows, Some(KeyOf(all[skipped - 1].root)), x);
    }
    OrderedUnique(Sorted(kept), all[skipped..]);
  }

  lemma SameMembers(rows: seq<Row>, x: Row)
    ensures x in Sorted(rows) <==> x in rows
  {
  }

  lemma {:induction false} KeepDistinct(rows: seq<Row>, after: Option<Key>)
    requires DistinctRoots(rows)
    ensures DistinctRoots(Keep(rows, after))
  {
    if rows != [] {
      var n := |rows| - 1;
      KeepDistinct(rows[..n], after);
      forall x | x in Keep(rows[..n], after)
        ensures x.root.id != rows[n].root.id
      {
        KeepMembers(rows[..n], after, x);
      }
    }
  }

  lemma {:induction false} KeepAll(rows: seq<Row>)
    ensures Keep(rows, None) == rows
  {
    if rows != [] {
      KeepAll(rows[..|rows| - 1]);
    }
  }

  lemma SortedSnoc(rows: seq<Row>, row: Row)
    ensures Sorted(rows + [row]) == Insert(Sorted(rows), row)
  {
    assert (rows + [row])[..|rows|] == rows;
  }

  lemma KeepSnoc(rows: seq<Row>, row: Row, after: Option<Key>)
    ensures Keep(rows + [row], after) ==
            if after.Some? && !Before(after.value, KeyOf(row.root)) then Keep(rows, after)
            else Keep(rows, after) + [row]
  {
    assert (rows + [row])[..|rows|] == rows;
  }

  lemma {:induction false} PositionCut(rows: seq<Row>, limit: nat, key: Key)
    requires limit <= |rows|
    ensures Position(rows[..limit], key) == if Position(rows, key) < limit then Position(rows, key) else limit
  {
    if limit > 0 && Before(KeyOf(rows[0].root), key) {
      PositionCut(rows[1..], limit - 1, key);
      assert rows[..limit][1..] == rows[1..][..limit - 1];
    }
  }

  /** The best `limit` rows after one more insertion come from the best `limit` rows before it. */
  lemma InsertCut(rows: seq<Row>, row: Row, limit: nat)
    ensures Cut(Insert(rows, row), limit) ==
            if Position(Cut(rows, limit), KeyOf(row.root)) < limit
            then Cut(Insert(Cut(rows, limit), row), limit)
            else Cut(rows, limit)
  {
    if limit < |rows| {
      PositionCut(rows, limit, KeyOf(row.root));
    }
  }
}
