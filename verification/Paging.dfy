/** Reading a column in id-ordered batches (keyset pagination), with retries. */
module Paging {
  import opened Basics
  import opened Records

  const BATCH_SIZE := 5000
  const CONTENT_BATCH_SIZE := 500
  const RETRY_ATTEMPTS := 3

  datatype Row = Row(id: int, value: Option<string>)

  ghost predicate Ordered(rows: seq<Row>) {
    forall i, j :: 0 <= i < j < |rows| ==> rows[i].id <= rows[j].id
  }

  /** The condition of the query: a value that is neither NULL nor empty. */
  predicate NonEmpty(row: Row) {
    row.value.Some? && row.value.value != ""
  }

  /** One big scan without batches. */
  function Scan(rows: seq<Row>): seq<Row> {
    if rows == [] then []
    else (if NonEmpty(rows[0]) then [rows[0]] else []) + Scan(rows[1..])
  }

  /** The first row above an id, from row `i` on. */
  function Skip(rows: seq<Row>, last: int, i: nat): (n: nat)
    requires i <= |rows|
    ensures i <= n <= |rows|
    decreases |rows| - i
  {
    if i < |rows| && rows[i].id <= last then Skip(rows, last, i + 1) else i
  }

  /** Where, in rows that are in id order, those above an id begin; `None` is the first query,
      which has no lower bound. */
  function Upto(rows: seq<Row>, last: Option<int>): (n: nat)
    ensures n <= |rows|
  {
    if last.None? then 0 else Skip(rows, last.value, 0)
  }

  lemma {:induction false} SkipStops(rows: seq<Row>, last: int, i: nat)
    requires i <= |rows|
    ensures var n := Skip(rows, last, i);
            (forall k :: i <= k < n ==> rows[k].id <= last) && (n < |rows| ==> rows[n].id > last)
    decreases |rows| - i
  {
    if i < |rows| && rows[i].id <= last {
      SkipStops(rows, last, i + 1);
    }
  }

  /** On ordered rows the rows from there on are exactly those above the id. */
  lemma UptoSplits(rows: seq<Row>, last: int)
    requires Ordered(rows)
    ensures forall k :: 0 <= k < |rows| ==> (rows[k].id > last <==> k >= Upto(rows, Some(last)))
  {
    SkipStops(rows, last, 0);
  }

  lemma Progress(scan: seq<Row>, k: nat)
    requires Ordered(scan) && k < |scan|
    ensures k < Upto(scan, Some(scan[k].id))
  {
    UptoSplits(scan, scan[k].id);
  }

  /** The answer to one query: at most `batch` rows above an id. */
  function Page(scan: seq<Row>, last: Option<int>, batch: nat): (r: seq<Row>)
    ensures |r| <= batch
  {
    var from := Upto(scan, last);
    if from + batch <= |scan| then scan[from..from + batch] else scan[from..]
  }

  /** What batches of `batch` rows deliver of the rows of the one big scan, from a row on. */
  function Paged(scan: seq<Row>, from: nat, batch: nat): seq<Row>
    requires batch >= 1 && Ordered(scan) && from <= |scan|
    decreases |scan| - from
  {
    if from + batch > |scan| then scan[from..]
    else
      Progress(scan, from + batch - 1);
      scan[from..from + batch] + Paged(scan, Upto(scan, Some(scan[from + batch - 1].id)), batch)
  }

  /** At every batch boundary the id grows. */
  ghost predicate CleanBoundaries(scan: seq<Row>, from: nat, batch: nat)
    requires batch >= 1 && from <= |scan|
    decreases |scan| - from
  {
    from + batch >= |scan| ||
    (scan[from + batch - 1].id < scan[from + batch].id && CleanBoundaries(scan, from + batch, batch))
  }

  lemma {:induction false} ScanKeeps(rows: seq<Row>)
    ensures forall row | row in Scan(rows) :: row in rows && NonEmpty(row)
  {
    if rows != [] {
      ScanKeeps(rows[1..]);
      assert forall row | row in Scan(rows) :: row == rows[0] || row in Scan(rows[1..]);
    }
  }

  lemma {:induction false} ScanOrdered(rows: seq<Row>)
    requires Ordered(rows)
    ensures Ordered(Scan(rows))
  {
    if rows != [] {
      ScanOrdered(rows[1..]);
      ScanKeeps(rows[1..]);
      var rest := Scan(rows[1..]);
      assert forall k :: 0 <= k < |rest| ==> rest[k] in rest;
    }
  }

  function NextId(page: seq<Row>, last: Option<int>): Option<int> {
    if page == [] then last else Some(page[|page| - 1].id)
  }

  /** What is still to come after a query consists of its page and, if that was full, of what comes
      after the next query, for which fewer rows are left. */
  ghost predicate Continues(query: Option<int> -> seq<Row>, batch: nat, left: Option<int> -> seq<Row>, rest: Option<int> -> nat,
                            last: Option<int>)
  {
    var page := query(last);
    if |page| == batch then
      left(last) == page + left(NextId(page, last)) && rest(NextId(page, last)) < rest(last)
    else left(last) == page
  }

  lemma Regroup<T>(a: seq<T>, b: seq<T>, c: seq<T>)
    ensures a + (b + c) == (a + b) + c
  {
  }

  /** The loop of the generator around its cursor. */
  method RunQueries(query: Option<int> -> seq<Row>, batch: nat, ghost left: Option<int> -> seq<Row>, ghost rest: Option<int> -> nat)
    returns (out: seq<Row>)
    requires forall last :: Continues(query, batch, left, rest, last)
    ensures out == left(None)
  {
    out := [];
    var lastId: Option<int> := None;
    var hasMore := true;
    while hasMore
      invariant left(None) == if hasMore then out + left(lastId) else out
      decreases rest(lastId), hasMore
    {
      assert Continues(query, batch, left, rest, lastId);
      var page := query(lastId);
      hasMore := |page| == batch;
      ghost var before := lastId;
      if hasMore {
        Regroup(out, page, left(NextId(page, lastId)));
      }
      out := out + page;
      if hasMore && page != [] {
        lastId := Some(page[|page| - 1].id);
      }
    }
  }

  function Query(scan: seq<Row>, batch: nat): Option<int> -> seq<Row> {
    (last: Option<int>) => Page(scan, last, batch)
  }

  ghost function LeftAfter(scan: seq<Row>, batch: nat): Option<int> -> seq<Row>
    requires batch >= 1 && Ordered(scan)
  {
    (last: Option<int>) requires batch >= 1 && Ordered(scan) => Paged(scan, Upto(scan, last), batch)
  }

  ghost function RowsAfter(scan: seq<Row>): Option<int> -> nat {
    (last: Option<int>) => |scan| - Upto(scan, last)
  }

  /** One turn of the loop. */
  lemma Turn(scan: seq<Row>, batch: nat, last: Option<int>)
    requires batch >= 1 && Ordered(scan)
    ensures Continues(Query(scan, batch), batch, LeftAfter(scan, batch), RowsAfter(scan), last)
  {
    var from, page := Upto(scan, last), Page(scan, last, batch);
    if |page| == batch {
      var k := from + batch - 1;
      assert page[batch - 1] == scan[k];
      Progress(scan, k);
    }
  }

  /** The generator: it ends for every batch size, also when the number of rows is a multiple of
      it, and yields what `Paged` says. */
  method FetchFileReferences(rows: seq<Row>, batch: nat) returns (out: seq<Row>)
    requires batch >= 1 && Ordered(rows)
    ensures Ordered(Scan(rows)) && out == Paged(Scan(rows), 0, batch)
  {
    ScanOrdered(rows);
    var scan := Scan(rows);
    forall last
      ensures Continues(Query(scan, batch), batch, LeftAfter(scan, batch), RowsAfter(scan), last)
    {
      Turn(scan, batch, last);
    }
    out := RunQueries(Query(scan, batch), batch, LeftAfter(scan, batch), RowsAfter(scan));
  }

  lemma {:induction false} PagedLength(scan: seq<Row>, from: nat, batch: nat)
    requires batch >= 1 && Ordered(scan) && from <= |scan|
    ensures |Paged(scan, from, batch)| <= |scan| - from
    decreases |scan| - from
  {
    if from + batch <= |scan| {
      Progress(scan, from + batch - 1);
      PagedLength(scan, Upto(scan, Some(scan[from + batch - 1].id)), batch);
    }
  }

  lemma NextStart(scan: seq<Row>, mid: nat)
    requires Ordered(scan) && 0 < mid <= |scan|
    ensures var next := Upto(scan, Some(scan[mid - 1].id));
            mid <= next <= |scan| && (next == mid <==> mid == |scan| || scan[mid - 1].id < scan[mid].id)
  {
    Progress(scan, mid - 1);
    UptoSplits(scan, scan[mid - 1].id);
    if mid < |scan| {
      assert scan[mid - 1].id < scan[mid].id <==> mid >= Upto(scan, Some(scan[mid - 1].id));
    }
  }

  /** From row `from` on, batches deliver the whole scan. */
  ghost predicate Whole(scan: seq<Row>, from: nat, batch: nat)
    requires batch >= 1 && Ordered(scan) && from <= |scan|
  {
    Paged(scan, from, batch) == scan[from..]
  }

  lemma FirstPageWhole(scan: seq<Row>, from: nat, batch: nat)
    requires batch >= 1 && Ordered(scan) && from + batch <= |scan|
    ensures var mid := from + batch;
            Whole(scan, from, batch) <==> (mid == |scan| || scan[mid - 1].id < scan[mid].id) && Whole(scan, mid, batch)
  {
    var mid := from + batch;
    var next := Upto(scan, Some(scan[mid - 1].id));
    NextStart(scan, mid);
    PagedLength(scan, next, batch);
    SplitAt(scan, from, mid);
    SameTail(scan[from..mid], Paged(scan, next, batch), scan[mid..]);
  }

  lemma SplitAt<T>(s: seq<T>, from: nat, mid: nat)
    requires from <= mid <= |s|
    ensures s[from..] == s[from..mid] + s[mid..]
  {
  }

  lemma EndIsWhole(scan: seq<Row>, from: nat, batch: nat)
    requires batch >= 1 && Ordered(scan) && from <= |scan| < from + batch
    ensures Whole(scan, from, batch)
  {
  }

  /** The recurrence that decides from where batches deliver everything. */
  ghost predicate Recurs(scan: seq<Row>, batch: nat, whole: seq<bool>, f: nat)
    requires batch >= 1 && |whole| == |scan| + 1 && f <= |scan|
  {
    var mid := f + batch;
    whole[f] <==> mid > |scan| || ((mid == |scan| || scan[mid - 1].id < scan[mid].id) && whole[mid])
  }

  lemma WholeRecurs(scan: seq<Row>, batch: nat, whole: seq<bool>, f: nat)
    requires batch >= 1 && Ordered(scan) && |whole| == |scan| + 1 && f <= |scan|
    requires forall k: nat :: k <= |scan| ==> whole[k] == Whole(scan, k, batch)
    ensures Recurs(scan, batch, whole, f)
  {
    if f + batch <= |scan| {
      FirstPageWhole(scan, f, batch);
    } else {
      EndIsWhole(scan, f, batch);
    }
  }

  lemma {:induction false} BoundariesDecide(scan: seq<Row>, from: nat, batch: nat, whole: seq<bool>)
    requires batch >= 1 && from <= |scan| && |whole| == |scan| + 1
    requires forall f: nat :: f <= |scan| ==> Recurs(scan, batch, whole, f)
    ensures whole[from] <==> CleanBoundaries(scan, from, batch)
    decreases |scan| - from
  {
    assert Recurs(scan, batch, whole, from);
    if from + batch <= |scan| {
      BoundariesDecide(scan, from + batch, batch, whole);
    }
  }

  /** Batches deliver the whole scan if and only if no id is repeated across a batch boundary. */
  lemma PagedIsScan(scan: seq<Row>, from: nat, batch: nat)
    requires batch >= 1 && Ordered(scan) && from <= |scan|
    ensures Whole(scan, from, batch) <==> CleanBoundaries(scan, from, batch)
  {
    var whole := seq(|scan| + 1, f requires 0 <= f <= |scan| => Whole(scan, f, batch));
    forall f: nat | f <= |scan|
      ensures Recurs(scan, batch, whole, f)
    {
      WholeRecurs(scan, batch, whole, f);
    }
    BoundariesDecide(scan, from, batch, whole);
    assert whole[from] == Whole(scan, from, batch);
  }

  lemma SameTail<T>(head: seq<T>, a: seq<T>, b: seq<T>)
    ensures head + a == head + b <==> a == b
  {
    if head + a == head + b {
      assert (head + a)[|head|..] == a && (head + b)[|head|..] == b;
    }
  }

  ghost predicate UniqueIds(rows: seq<Row>) {
    forall i, j :: 0 <= i < j < |rows| ==> rows[i].id != rows[j].id
  }

  lemma {:induction false} ScanUnique(rows: seq<Row>)
    requires UniqueIds(rows)
    ensures UniqueIds(Scan(rows))
  {
    if rows != [] {
      ScanUnique(rows[1..]);
      ScanKeeps(rows[1..]);
      var rest := Scan(rows[1..]);
      assert forall k :: 0 <= k < |rest| ==> rest[k] in rest;
    }
  }

  lemma {:induction false} UniqueIsClean(scan: seq<Row>, from: nat, batch: nat)
    requires batch >= 1 && Ordered(scan) && UniqueIds(scan) && from <= |scan|
    ensures CleanBoundaries(scan, from, batch)
    decreases |scan| - from
  {
    if from + batch < |scan| {
      assert scan[from + batch - 1].id != scan[from + batch].id;
      UniqueIsClean(scan, from + batch, batch);
    }
  }

  /** With unique ids the generator yields every non-empty row exactly once, in id order. */
  lemma UniqueIdsReadWhole(rows: seq<Row>, batch: nat)
    requires batch >= 1 && Ordered(rows) && UniqueIds(rows)
    ensures Ordered(Scan(rows)) && Paged(Scan(rows), 0, batch) == Scan(rows)
  {
    var scan := Scan(rows);
    ScanOrdered(rows);
    ScanUnique(rows);
    UniqueIsClean(scan, 0, batch);
    PagedIsScan(scan, 0, batch);
    assert scan[0..] == scan;
  }

  /** Even with repeated ids no id is lost altogether: a lost row shares its id with a delivered one. */
  lemma {:induction false} NoIdLost(scan: seq<Row>, from: nat, batch: nat, i: nat)
    requires batch >= 1 && Ordered(scan) && from <= i < |scan|
    ensures exists j :: 0 <= j < |Paged(scan, from, batch)| && Paged(scan, from, batch)[j].id == scan[i].id
    decreases |scan| - from
  {
    var out := Paged(scan, from, batch);
    if from + batch > |scan| || i < from + batch {
      assert out[i - from] == scan[i];
    } else {
      var next := Upto(scan, Some(scan[from + batch - 1].id));
      UptoSplits(scan, scan[from + batch - 1].id);
      if i < next {
        assert out[batch - 1].id == scan[i].id;
      } else {
        NoIdLost(scan, next, batch, i);
        var rest := Paged(scan, next, batch);
        var j :| 0 <= j < |rest| && rest[j].id == scan[i].id;
        assert out[batch + j] == rest[j];
      }
    }
  }

  /** For any batch size: when the first row after a full batch shares the id of the last row in it,
      as the first column of a composite key allows, and is the last row of all, it is lost. */
  lemma RepeatedIdLosesARow(scan: seq<Row>, batch: nat)
    requires batch >= 1 && Ordered(scan) && |scan| == batch + 1 && scan[batch - 1].id == scan[batch].id
    ensures Paged(scan, 0, batch) == scan[..batch]
  {
    var next := Upto(scan, Some(scan[batch - 1].id));
    NextStart(scan, batch);
    assert next == |scan|;
    assert Paged(scan, next, batch) == [];
    assert scan[0..batch] == scan[..batch];
  }

  // ---------------------------------------------------------------- retries

  /** How an attempt goes: it breaks off after so many rows, or runs through. */
  type Attempt = Option<nat>

  predicate Fails(a: Attempt, total: nat) {
    a.Some? && a.value <= total
  }

  /** Every attempt breaks off. */
  ghost predicate AllFail(attempts: seq<Attempt>, total: nat) {
    forall k :: 0 <= k < |attempts| ==> Fails(attempts[k], total)
  }

  /** One attempt collects into a list of its own. */
  method CollectRows(rows: seq<Row>, batch: nat, attempt: Attempt) returns (refs: seq<Row>, failed: bool)
    requires batch >= 1 && Ordered(rows)
    ensures Ordered(Scan(rows))
    ensures var all := Paged(Scan(rows), 0, batch);
            (failed <==> Fails(attempt, |all|)) && refs == if failed then all[..attempt.value] else all
  {
    var source := FetchFileReferences(rows, batch);
    refs, failed := Drain(source, attempt);
  }

  method Drain<T>(source: seq<T>, attempt: Attempt) returns (refs: seq<T>, failed: bool)
    ensures failed <==> Fails(attempt, |source|)
    ensures refs == if failed then source[..attempt.value] else source
  {
    refs, failed := [], false;
    for i := 0 to |source|
      invariant refs == source[..i]
      invariant attempt.Some? ==> attempt.value >= i
    {
      if attempt == Some(i) {
        return refs, true;
      }
      refs := refs + [source[i]];
    }
    failed := attempt == Some(|source|);
  }

  /** `_with_retries`: the rows of the first attempt that runs through, none of a broken one; an
      error if and only if all attempts break off. */
  method CollectWithRetries(rows: seq<Row>, batch: nat, attempts: seq<Attempt>) returns (refs: Option<seq<Row>>)
    requires batch >= 1 && Ordered(rows) && |attempts| == RETRY_ATTEMPTS
    ensures Ordered(Scan(rows))
    ensures refs.None? <==> AllFail(attempts, |Paged(Scan(rows), 0, batch)|)
    ensures refs.Some? ==> refs.value == Paged(Scan(rows), 0, batch)
  {
    ScanOrdered(rows);
    ghost var total := |Paged(Scan(rows), 0, batch)|;
    for k := 0 to RETRY_ATTEMPTS
      invariant AllFail(attempts[..k], total)
    {
      var collected, failed := CollectRows(rows, batch, attempts[k]);
      if !failed {
        assert !Fails(attempts[k], total);
        return Some(collected);
      }
      assert attempts[..k + 1] == attempts[..k] + [attempts[k]];
    }
    assert attempts[..RETRY_ATTEMPTS] == attempts;
    refs := None;
  }
}
