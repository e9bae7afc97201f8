/** Lookups as of a point in time: the one-pass nearest-prior query (`backend/backtesting/queries.py`). */
module AsOfQueries {
  import opened Results
  import opened Seqs

  datatype AsOfResult<T> = AsOfResult(value: Option<T>, exactMatch: bool, asOf: int, observed: Option<int>)

  /** The latest row that is not later than `asOf`, and the last such row among equally late ones. */
  function Nearest<T>(ts: T -> int, asOf: int, rows: seq<T>): (r: Option<T>)
    ensures r.Some? ==> r.value in rows && ts(r.value) <= asOf
  {
    if rows == [] then None else
    var before := Nearest(ts, asOf, Front(rows));
    if ts(Last(rows)) <= asOf && (before.None? || ts(Last(rows)) >= ts(before.value)) then Some(Last(rows)) else before
  }

  method FindNearest<T>(ts: T -> int, asOf: int, rows: seq<T>) returns (r: AsOfResult<T>)
    ensures r.value == Nearest(ts, asOf, rows) && r.asOf == asOf
    ensures r.observed == if r.value.Some? then Some(ts(r.value.value)) else None
    ensures r.exactMatch <==> exists row :: row in rows && ts(row) == asOf
    ensures r.observed.Some? ==> r.observed.value <= asOf
  {
    var selected: Option<T> := None;
    var selectedTs: Option<int> := None;
    for i := 0 to |rows|
      invariant selected == Nearest(ts, asOf, rows[..i])
      invariant selectedTs == if selected.Some? then Some(ts(selected.value)) else None
    {
      TakeNext(rows, i);
      var rowTs := ts(rows[i]);
      if rowTs <= asOf {
        if selectedTs.None? || rowTs >= selectedTs.value {
          selected, selectedTs := Some(rows[i]), Some(rowTs);
        }
      }
    }
    assert rows[..|rows|] == rows;
    NearestIsLatest(ts, asOf, rows);
    r := AsOfResult(selected, selectedTs == Some(asOf), asOf, selectedTs);
  }

  /** `k` is the place of the latest visible row, the last one among equals. */
  ghost predicate LatestAt<T>(ts: T -> int, asOf: int, rows: seq<T>, k: int) {
    && 0 <= k < |rows| && ts(rows[k]) <= asOf
    && (forall i :: 0 <= i < k && ts(rows[i]) <= asOf ==> ts(rows[i]) <= ts(rows[k]))
    && (forall i :: k < i < |rows| && ts(rows[i]) <= asOf ==> ts(rows[i]) < ts(rows[k]))
  }

  /** The lookup finds the latest visible row whenever one is visible, whatever the order of the rows. */
  lemma {:induction false} NearestIsLatest<T>(ts: T -> int, asOf: int, rows: seq<T>)
    ensures Nearest(ts, asOf, rows).None? <==> forall i :: 0 <= i < |rows| ==> ts(rows[i]) > asOf
    ensures Nearest(ts, asOf, rows).Some? ==>
              exists k :: LatestAt(ts, asOf, rows, k) && rows[k] == Nearest(ts, asOf, rows).value
  {
    if rows != [] {
      NearestIsLatest(ts, asOf, Front(rows));
      var before, r := Nearest(ts, asOf, Front(rows)), Nearest(ts, asOf, rows);
      var n := |rows| - 1;
      if before.Some? {
        var k :| LatestAt(ts, asOf, Front(rows), k) && Front(rows)[k] == before.value;
        var place := if r == before && !(ts(rows[n]) <= asOf && ts(rows[n]) >= ts(before.value)) then k else n;
        assert forall i :: 0 <= i < n ==> Front(rows)[i] == rows[i];
        assert LatestAt(ts, asOf, rows, place) && rows[place] == r.value;
      } else if r.Some? {
        assert forall i :: 0 <= i < n ==> Front(rows)[i] == rows[i];
        assert LatestAt(ts, asOf, rows, n) && rows[n] == r.value;
      }
    }
  }

  function VisibleAt<T>(ts: T -> int, asOf: int): T -> bool {
    (row: T) => ts(row) <= asOf
  }

  /** Rows that are not visible might as well not be there. */
  lemma {:induction false} NearestSeesOnlyVisible<T>(ts: T -> int, asOf: int, rows: seq<T>)
    ensures Nearest(ts, asOf, rows) == Nearest(ts, asOf, Filter(VisibleAt(ts, asOf), rows))
  {
    if rows != [] {
      NearestSeesOnlyVisible(ts, asOf, Front(rows));
      var visible := Filter(VisibleAt(ts, asOf), Front(rows));
      if ts(Last(rows)) <= asOf {
        assert Front(visible + [Last(rows)]) == visible;
      } else {
        assert visible + [] == visible;
      }
    }
  }

  /** No look-ahead: rows later than `asOf`, put in anywhere, never change the answer. */
  lemma LaterRowsNeverMatter<T>(ts: T -> int, asOf: int, rows: seq<T>, more: seq<T>)
    requires Filter(VisibleAt(ts, asOf), rows) == Filter(VisibleAt(ts, asOf), more)
    ensures Nearest(ts, asOf, rows) == Nearest(ts, asOf, more)
  {
    NearestSeesOnlyVisible(ts, asOf, rows);
    NearestSeesOnlyVisible(ts, asOf, more);
  }

  lemma InsertedLater<T>(ts: T -> int, asOf: int, a: seq<T>, later: seq<T>, b: seq<T>)
    requires forall row :: row in later ==> ts(row) > asOf
    ensures Nearest(ts, asOf, a + later + b) == Nearest(ts, asOf, a + b)
  {
    var visible := VisibleAt(ts, asOf);
    FilterAppend(visible, a + later, b);
    FilterAppend(visible, a, later);
    FilterNone(visible, later);
    FilterAppend(visible, a, b);
    assert Filter(visible, a) + [] == Filter(visible, a);
    LaterRowsNeverMatter(ts, asOf, a + later + b, a + b);
  }

  /** Asking later never finds an earlier row. */
  lemma NearestIsMonotone<T>(ts: T -> int, asOf: int, later: int, rows: seq<T>)
    requires asOf <= later && Nearest(ts, asOf, rows).Some?
    ensures Nearest(ts, later, rows).Some?
    ensures ts(Nearest(ts, later, rows).value) >= ts(Nearest(ts, asOf, rows).value)
  {
    NearestIsLatest(ts, asOf, rows);
    NearestIsLatest(ts, later, rows);
    var k :| LatestAt(ts, asOf, rows, k) && rows[k] == Nearest(ts, asOf, rows).value;
    assert ts(rows[k]) <= later;
    var j :| LatestAt(ts, later, rows, j) && rows[j] == Nearest(ts, later, rows).value;
  }

  // ----- Open positions -----

  datatype Holding = Holding(id: string, openedAt: int, closedAt: Option<int>)

  predicate OpenAt(asOf: int, p: Holding) {
    p.openedAt <= asOf && (p.closedAt.None? || p.closedAt.value > asOf)
  }

  method OpenPositionsAsOf(asOf: int, positions: seq<Holding>) returns (output: seq<Holding>)
    ensures output == Filter((p: Holding) => OpenAt(asOf, p), positions)
    ensures forall p :: p in output <==>
              p in positions && p.openedAt <= asOf && (p.closedAt.Some? ==> p.closedAt.value > asOf)
  {
    output := [];
    for i := 0 to |positions|
      invariant output == Filter((p: Holding) => OpenAt(asOf, p), positions[..i])
    {
      TakeNext(positions, i);
      if positions[i].openedAt <= asOf && (positions[i].closedAt.None? || positions[i].closedAt.value > asOf) {
        output := output + [positions[i]];
      }
    }
    assert positions[..|positions|] == positions;
    forall p ensures p in output <==> p in positions && OpenAt(asOf, p) {
      FilterElements((q: Holding) => OpenAt(asOf, q), positions, p);
    }
  }
}
