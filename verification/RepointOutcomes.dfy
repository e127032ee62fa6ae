/** What a resent item is reported as: the promise that a row already repointed is recognised. */
module RepointOutcomes {
  import opened Basics
  import opened Repoint

  /** Of the items for its table none renames a row, and only the item itself writes its cell. */
  ghost predicate SoleWriter(targets: Targets, items: seq<Item>, item: Item) {
    item.table in targets &&
    forall j :: 0 <= j < |items| && items[j].table == item.table ==>
      items[j].column != targets[item.table] && (SameCell(items[j], item) ==> items[j] == item)
  }

  /** The row with the item's id is the `i`-th, and in it the item's cell is `cell`. */
  ghost predicate CellIs(rows: seq<Row>, idColumn: string, item: Item, i: nat, cell: Option<Cell>) {
    && IsFirst(rows, idColumn, item.rowId, i)
    && (cell.Some? <==> item.column in rows[i]) && (cell.Some? ==> rows[i][item.column] == cell.value)
  }

  /** The item has nothing to do on such a cell. */
  predicate Done(item: Item, cell: Option<Cell>) {
    cell != Some(Some(item.source)) || item.source == item.destination
  }

  /** One step of a table without renamings. */
  ghost predicate PlainStep(before: seq<Row>, after: seq<Row>, idColumn: string, x: Item) {
    x.column != idColumn && (after == before || Written(before, after, idColumn, x))
  }

  lemma IdsStay(before: seq<Row>, after: seq<Row>, idColumn: string, x: Item, rowId: string)
    requires PlainStep(before, after, idColumn, x)
    ensures |after| == |before| && forall i :: 0 <= i < |before| ==> (HasId(after[i], idColumn, rowId) <==> HasId(before[i], idColumn, rowId))
  {
  }

  lemma CellStays(before: seq<Row>, after: seq<Row>, idColumn: string, x: Item, item: Item, i: nat, cell: Option<Cell>)
    requires PlainStep(before, after, idColumn, x)
    requires x.table == item.table && (SameCell(x, item) ==> x == item)
    requires CellIs(before, idColumn, item, i, cell) && Done(item, cell)
    ensures CellIs(after, idColumn, item, i, cell)
  {
    IdsStay(before, after, idColumn, x, item.rowId);
  }

  /** The rows of a table after one step of a run. */
  function RowsAt(db: Database, table: string): seq<Row> {
    if table in db then db[table] else []
  }

  lemma StepIsPlain(schema: Schema, targets: Targets, x: Item, step: Step, table: string)
    requires StepRight(schema, targets, x, step) && step.before == step.seen && table in targets
    requires x.table == table ==> x.column != targets[table]
    ensures x.table == table ==> PlainStep(RowsAt(step.seen, table), RowsAt(step.after, table), targets[table], x)
    ensures x.table != table ==> RowsAt(step.after, table) == RowsAt(step.seen, table)
  {
  }

  /** The facts about a run without other writers. */
  ghost predicate LoneRun(schema: Schema, targets: Targets, items: seq<Item>, outcomes: seq<Outcome>, steps: seq<Step>,
                          start: Database, end: Database) {
    StepsRight(schema, targets, items, outcomes, steps) && Chained(steps, start, end)
  }

  /** What step `k` does to the table of an item, and that the next one starts from there. */
  ghost predicate Moves(targets: Targets, items: seq<Item>, steps: seq<Step>, item: Item, k: nat) {
    k + 1 < |steps| <= |items| && item.table in targets &&
    var (rows, after) := (RowsAt(steps[k].seen, item.table), RowsAt(steps[k].after, item.table));
    && RowsAt(steps[k + 1].seen, item.table) == after
    && (items[k].table != item.table ==> after == rows)
    && (items[k].table == item.table ==>
          PlainStep(rows, after, targets[item.table], items[k]) && (SameCell(items[k], item) ==> items[k] == item))
  }

  lemma RunMoves(schema: Schema, targets: Targets, items: seq<Item>, outcomes: seq<Outcome>, steps: seq<Step>,
                 start: Database, end: Database, item: Item, k: nat)
    requires LoneRun(schema, targets, items, outcomes, steps, start, end) && SoleWriter(targets, items, item)
    requires k + 1 < |steps|
    ensures Moves(targets, items, steps, item, k)
  {
    assert steps[k + 1].seen == steps[k].after;
    StepIsPlain(schema, targets, items[k], steps[k], item.table);
  }

  lemma {:induction false} StaysDone(targets: Targets, items: seq<Item>, steps: seq<Step>, item: Item, k: nat, m: nat, i: nat, cell: Option<Cell>)
    requires forall j: nat :: k <= j < m ==> Moves(targets, items, steps, item, j)
    requires k < m < |steps| && item.table in targets && Done(item, cell)
    requires CellIs(RowsAt(steps[k].after, item.table), targets[item.table], item, i, cell)
    ensures CellIs(RowsAt(steps[m].seen, item.table), targets[item.table], item, i, cell)
    decreases m
  {
    assert Moves(targets, items, steps, item, m - 1);
    if k < m - 1 {
      StaysDone(targets, items, steps, item, k, m - 1, i, cell);
      var x, t := items[m - 1], item.table;
      if x.table == t {
        CellStays(RowsAt(steps[m - 1].seen, t), RowsAt(steps[m - 1].after, t), targets[t], x, item, i, cell);
      }
    }
  }

  lemma {:induction false} StaysMissing(targets: Targets, items: seq<Item>, steps: seq<Step>, item: Item, k: nat, m: nat)
    requires forall j: nat :: k <= j < m ==> Moves(targets, items, steps, item, j)
    requires k < m < |steps| && item.table in targets && NoRow(RowsAt(steps[k].after, item.table), targets[item.table], item.rowId)
    ensures NoRow(RowsAt(steps[m].seen, item.table), targets[item.table], item.rowId)
    decreases m
  {
    assert Moves(targets, items, steps, item, m - 1);
    if k < m - 1 {
      StaysMissing(targets, items, steps, item, k, m - 1);
      var x, t := items[m - 1], item.table;
      if x.table == t {
        IdsStay(RowsAt(steps[m - 1].seen, t), RowsAt(steps[m - 1].after, t), targets[t], x, item.rowId);
      }
    }
  }

  lemma WrittenCell(rows: seq<Row>, after: seq<Row>, idColumn: string, item: Item, i: nat)
    requires Written(rows, after, idColumn, item) && item.column != idColumn
    requires IsFirst(rows, idColumn, item.rowId, i) && Holds(rows[i], item.column, item.source)
    ensures IsFirst(after, idColumn, item.rowId, i) && Holds(after[i], item.column, item.destination)
  {
    IdsStay(rows, after, idColumn, item, item.rowId);
    assert AtSource(rows, idColumn, item, i);
  }

  function CellOf(row: Row, column: string): Option<Cell> {
    if column in row then Some(row[column]) else None
  }

  /** What an item leaves in its cell. */
  lemma LeftBehind(rows: seq<Row>, after: seq<Row>, idColumn: string, item: Item, outcome: Outcome) returns (i: nat, cell: Option<Cell>)
    requires OutcomeRight(rows, rows, after, idColumn, item, outcome) && item.column != idColumn && outcome != Missing
    ensures CellIs(after, idColumn, item, i, cell) && Done(item, cell)
    ensures cell == Some(Some(item.destination)) <==> outcome == Updated || outcome == AlreadyUpdated || after != rows
  {
    i := FirstIndex(rows, idColumn, item.rowId);
    OnlyFirst(rows, idColumn, item, i);
    var writes := Holds(rows[i], item.column, item.source) && !Holds(rows[i], item.column, item.destination);
    if writes {
      WrittenCell(rows, after, idColumn, item, i);
    }
    cell := CellOf(after[i], item.column);
    assert after == rows ==> (Holds(rows[i], item.column, item.destination) <==> cell == Some(Some(item.destination)));
  }

  lemma OnlyFirst(rows: seq<Row>, idColumn: string, item: Item, i: nat)
    requires IsFirst(rows, idColumn, item.rowId, i)
    ensures forall v :: FirstHolds(rows, idColumn, item, v) <==> Holds(rows[i], item.column, v)
  {
    assert forall j: nat :: IsFirst(rows, idColumn, item.rowId, j) ==> j == i;
  }

  lemma FirstIndex(rows: seq<Row>, idColumn: string, rowId: string) returns (i: nat)
    requires !NoRow(rows, idColumn, rowId)
    ensures IsFirst(rows, idColumn, rowId, i)
  {
    i := 0;
    while !HasId(rows[i], idColumn, rowId)
      invariant i < |rows| && forall j :: 0 <= j < i ==> !HasId(rows[j], idColumn, rowId)
      decreases |rows| - i
    {
      i := i + 1;
    }
  }

  /** An item meets a cell on which it has nothing to do. */
  lemma MetDone(rows: seq<Row>, after: seq<Row>, idColumn: string, item: Item, outcome: Outcome, i: nat, cell: Option<Cell>)
    requires OutcomeRight(rows, rows, after, idColumn, item, outcome)
    requires CellIs(rows, idColumn, item, i, cell) && Done(item, cell)
    ensures outcome == if cell == Some(Some(item.destination)) then AlreadyUpdated else Conflict
    ensures after == rows
  {
    OnlyFirst(rows, idColumn, item, i);
    assert !NoRow(rows, idColumn, item.rowId);
  }

  /** What an item is reported as when it comes again. */
  function Again(first: Outcome, wrote: bool): Outcome {
    match first
    case Missing => Missing
    case Conflict => if wrote then AlreadyUpdated else Conflict
    case _ => AlreadyUpdated
  }

  /** An item that comes twice in a run in which nobody else writes its cell or renames rows of its table:
      whatever it was reported as, what was repointed is recognised the second time, and nothing else is. */
  lemma ComesAgain(schema: Schema, targets: Targets, items: seq<Item>, outcomes: seq<Outcome>, steps: seq<Step>,
                   start: Database, end: Database, k: nat, m: nat)
    requires LoneRun(schema, targets, items, outcomes, steps, start, end)
    requires k < m < |steps| && items[m] == items[k] && SoleWriter(targets, items, items[k])
    ensures outcomes[m] == Again(outcomes[k], steps[k].after != steps[k].before)
    ensures steps[m].after == steps[m].before
  {
    var item, t := items[k], items[k].table;
    var c := targets[t];
    assert StepRight(schema, targets, item, steps[k]) && StepRight(schema, targets, item, steps[m]);
    forall j: nat | k <= j < m
      ensures Moves(targets, items, steps, item, j)
    {
      RunMoves(schema, targets, items, outcomes, steps, start, end, item, j);
    }
    if outcomes[k] == Missing {
      StaysMissing(targets, items, steps, item, k, m);
    } else {
      var i, cell := LeftBehind(steps[k].seen[t], steps[k].after[t], c, item, outcomes[k]);
      StaysDone(targets, items, steps, item, k, m, i, cell);
      MetDone(steps[m].seen[t], steps[m].after[t], c, item, outcomes[m], i, cell);
      SameTable(steps[k].before, steps[k].after, c, item);
    }
    SameTable(steps[m].before, steps[m].after, c, item);
  }

  lemma SameTable(before: Database, after: Database, idColumn: string, item: Item)
    requires Guarded(before, after, idColumn, item) && item.table in before
    ensures after == before <==> after[item.table] == before[item.table]
  {
    assert after.Keys == before.Keys;
    if after[item.table] == before[item.table] {
      assert forall t | t in before :: after[t] == before[t];
      assert after == before;
    }
  }

  lemma ChainsJoin(steps: seq<Step>, later: seq<Step>, start: Database, middle: Database, end: Database)
    requires Chained(steps, start, middle) && Chained(later, middle, end)
    ensures Chained(steps + later, start, end)
  {
    var all, n := steps + later, |steps|;
    forall k | 0 <= k < |all|
      ensures all[k].before == all[k].seen && (k >= 1 ==> all[k].seen == all[k - 1].after)
    {
      if k < n {
        assert all[k] == steps[k];
      } else {
        assert all[k] == later[k - n];
      }
    }
  }

  lemma StepsJoin(schema: Schema, targets: Targets, xs: seq<Item>, ys: seq<Item>, outcomes: seq<Outcome>, steps: seq<Step>,
                  more: seq<Outcome>, later: seq<Step>)
    requires StepsRight(schema, targets, xs, outcomes, steps) && |steps| == |xs| && StepsRight(schema, targets, ys, more, later)
    ensures StepsRight(schema, targets, xs + ys, outcomes + more, steps + later)
  {
    var n := |xs|;
    forall k | 0 <= k < |steps + later|
      ensures (steps + later)[k].outcome == (outcomes + more)[k] && StepRight(schema, targets, (xs + ys)[k], (steps + later)[k])
    {
      if k < n {
        assert StepRight(schema, targets, xs[k], steps[k]);
      } else {
        assert StepRight(schema, targets, ys[k - n], later[k - n]);
      }
    }
  }

  /** Resending after a run, in any order and with any other items: every item whose cell nobody else
      writes, and no row of whose table is renamed, is reported as already updated if the first run
      repointed it or found it so, and as before otherwise; and nothing is written for it. */
  lemma ResentIsRecognised(schema: Schema, targets: Targets, xs: seq<Item>, ys: seq<Item>, outcomes: seq<Outcome>, steps: seq<Step>,
                           more: seq<Outcome>, later: seq<Step>, start: Database, middle: Database, end: Database, k: nat, m: nat)
    requires LoneRun(schema, targets, xs, outcomes, steps, start, middle) && |steps| == |xs|
    requires LoneRun(schema, targets, ys, more, later, middle, end)
    requires k < |xs| && m < |later| && ys[m] == xs[k] && SoleWriter(targets, xs + ys, xs[k])
    ensures more[m] == Again(outcomes[k], steps[k].after != steps[k].before) && later[m].after == later[m].before
    ensures outcomes[k] == Updated ==> more[m] == AlreadyUpdated
  {
    StepsJoin(schema, targets, xs, ys, outcomes, steps, more, later);
    ChainsJoin(steps, later, start, middle, end);
    ComesAgain(schema, targets, xs + ys, outcomes + more, steps + later, start, end, k, |xs| + m);
  }

  // ---------------------------------------------------------------- counts

  function PlacesOf(outcomes: seq<Outcome>, o: Outcome): set<nat> {
    set k: nat | k < |outcomes| && outcomes[k] == o
  }

  lemma PlacesNext(front: seq<Outcome>, last: Outcome, o: Outcome)
    ensures |PlacesOf(front + [last], o)| == |PlacesOf(front, o)| + if last == o then 1 else 0
  {
    if last == o {
      assert PlacesOf(front + [last], o) == PlacesOf(front, o) + {|front|};
    } else {
      assert PlacesOf(front + [last], o) == PlacesOf(front, o);
    }
  }

  lemma {:induction false} PlacesCounted(outcomes: seq<Outcome>, o: Outcome)
    ensures |PlacesOf(outcomes, o)| == multiset(outcomes)[o]
  {
    if outcomes == [] {
      assert PlacesOf(outcomes, o) == {};
    } else {
      var front, last := outcomes[..|outcomes| - 1], outcomes[|outcomes| - 1];
      PlacesCounted(front, o);
      PlacesNext(front, last, o);
      assert outcomes == front + [last];
    }
  }

  /** Every count is the number of the items with that outcome. */
  lemma CountsTell(outcomes: seq<Outcome>, total: nat)
    ensures var c := Tally(outcomes, total);
            && c.updated == |PlacesOf(outcomes, Updated)| && c.alreadyUpdated == |PlacesOf(outcomes, AlreadyUpdated)|
            && c.conflict == |PlacesOf(outcomes, Conflict)| && c.missing == |PlacesOf(outcomes, Missing)| && c.total == total
  {
    PlacesCounted(outcomes, Updated);
    PlacesCounted(outcomes, AlreadyUpdated);
    PlacesCounted(outcomes, Conflict);
    PlacesCounted(outcomes, Missing);
  }
}
