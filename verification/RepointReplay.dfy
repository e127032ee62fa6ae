/** When a second run over the same items changes nothing, exactly. */
module RepointReplay {
  import opened Basics
  import opened Repoint

  // ---------------------------------------------------------------- two items, any rows

  /** Applying x and then y once more changes nothing. */
  ghost predicate Settled(rows: seq<Row>, idColumn: string, x: Item, y: Item) {
    var once := ApplyRows(ApplyRows(rows, idColumn, x), idColumn, y);
    ApplyRows(ApplyRows(once, idColumn, x), idColumn, y) == once
  }

  /** What y leaves is what x looks for, and what x makes of it is not what y looks for.  For an item
      y of the id column, what it leaves is rows with its new id. */
  predicate Chained(idColumn: string, x: Item, y: Item) {
    && Effective(idColumn, x) && Effective(idColumn, y)
    && if y.column == idColumn then
         x.rowId == y.destination && (x.column == idColumn ==> x.destination != y.source)
       else
         x.column != idColumn && SameCell(x, y) && y.destination == x.source && x.destination != y.source
  }

  /** A row that a chain goes on changing. */
  function Moving(idColumn: string, x: Item, y: Item): Row {
    if y.column != idColumn then map[y.column := Some(y.source), idColumn := Some(y.rowId)]
    else if x.column != idColumn then map[x.column := Some(x.source), idColumn := Some(y.rowId)]
    else map[idColumn := Some(y.source)]
  }

  lemma ChainedMoves(idColumn: string, x: Item, y: Item)
    requires x.table == y.table && Chained(idColumn, x, y)
    ensures !Settled([Moving(idColumn, x, y)], idColumn, x, y)
  {
    var row := Moving(idColumn, x, y);
    var once := Rewrite(Rewrite(row, idColumn, x), idColumn, y);
    var twice := Rewrite(Rewrite(once, idColumn, x), idColumn, y);
    ApplyTwoToOne(row, idColumn, x, y);
    ApplyTwoToOne(once, idColumn, x, y);
    var column := if y.column != idColumn then y.column else x.column;
    assert once[column] != twice[column];
  }

  lemma HarmoniousSettles(rows: seq<Row>, idColumn: string, x: Item, y: Item)
    requires x.table == y.table && Harmonious(idColumn, x, y)
    ensures Settled(rows, idColumn, x, y)
  {
    var afterX := ApplyRows(rows, idColumn, x);
    HarmoniousCommute(afterX, idColumn, x, y);
    ApplyTwice(rows, idColumn, x);
    ApplyTwice(afterX, idColumn, y);
  }

  /** After an item has been applied, the first row with its id does not hold its source. */
  lemma FirstHasMoved(rows: seq<Row>, idColumn: string, x: Item)
    requires x.column != idColumn && Effective(idColumn, x)
    ensures var first := FirstWith(ApplyRows(rows, idColumn, x), idColumn, x.rowId);
            first.Some? ==> !Holds(first.value, x.column, x.source)
  {
    FirstAfter(rows, idColumn, x, x.rowId);
    if FirstWith(rows, idColumn, x.rowId).Some? {
      FirstHasId(rows, idColumn, x.rowId);
    }
  }

  /** Two items for one cell that do not chain: a swap, or the second leaves nothing to the first. */
  lemma CellSettles(rows: seq<Row>, idColumn: string, x: Item, y: Item)
    requires x.column != idColumn && SameCell(x, y) && Effective(idColumn, x) && Effective(idColumn, y)
    requires !Chained(idColumn, x, y)
    ensures Settled(rows, idColumn, x, y)
  {
    var afterX := ApplyRows(rows, idColumn, x);
    var once := ApplyRows(afterX, idColumn, y);
    FirstHasMoved(rows, idColumn, x);
    FirstHasMoved(afterX, idColumn, y);
    FirstAfter(afterX, idColumn, y, x.rowId);
    var first := FirstWith(once, idColumn, x.rowId);
    if first.Some? && Holds(first.value, x.column, x.source) {
      assert y.destination == x.source && x.destination == y.source;
      assert once == UpdateRows(afterX, idColumn, y);
      SwapSettles(once, idColumn, x, y);
    }
  }

  /** A swap: x takes a to b and y takes b back to a, where no row of the id holds b. */
  lemma SwapSettles(rows: seq<Row>, idColumn: string, x: Item, y: Item)
    requires x.column != idColumn && SameCell(x, y) && Effective(idColumn, x)
    requires y.destination == x.source && x.destination == y.source
    requires forall i :: 0 <= i < |rows| ==> !Hit(rows[i], idColumn, y)
    requires Judge(FirstWith(rows, idColumn, x.rowId), x).None?
    ensures ApplyRows(ApplyRows(rows, idColumn, x), idColumn, y) == rows
  {
    FirstAfter(rows, idColumn, x, x.rowId);
    FirstHasId(rows, idColumn, x.rowId);
    var there := UpdateRows(rows, idColumn, x);
    forall i | 0 <= i < |rows|
      ensures UpdateRows(there, idColumn, y)[i] == rows[i]
    {
      assert !Hit(rows[i], idColumn, y);
    }
  }

  /** A renaming that removes the id an item, or another renaming, goes by. */
  lemma RenamingSettles(rows: seq<Row>, idColumn: string, x: Item, y: Item)
    requires y.column == idColumn && Effective(idColumn, x) && Effective(idColumn, y)
    requires x.column != idColumn && x.rowId == y.rowId
    ensures Settled(rows, idColumn, x, y)
  {
    RenamedAway(ApplyRows(rows, idColumn, x), idColumn, y);
  }

  lemma {:induction false} IdsStay(rows: seq<Row>, idColumn: string, y: Item, rowId: string)
    requires y.column != idColumn && FirstWith(rows, idColumn, rowId).None?
    ensures FirstWith(ApplyRows(rows, idColumn, y), idColumn, rowId).None?
  {
    FirstAfter(rows, idColumn, y, rowId);
  }

  lemma RenamedFirstSettles(rows: seq<Row>, idColumn: string, x: Item, y: Item)
    requires x.column == idColumn && y.column != idColumn && Effective(idColumn, x)
    ensures Settled(rows, idColumn, x, y)
  {
    var afterX := ApplyRows(rows, idColumn, x);
    RenamedAway(rows, idColumn, x);
    IdsStay(afterX, idColumn, y, x.rowId);
    ApplyTwice(afterX, idColumn, y);
  }

  lemma RenamingsSettle(rows: seq<Row>, idColumn: string, x: Item, y: Item)
    requires x.column == y.column == idColumn && Effective(idColumn, x) && Effective(idColumn, y)
    requires !Chained(idColumn, x, y)
    ensures Settled(rows, idColumn, x, y)
  {
    var afterX := ApplyRows(rows, idColumn, x);
    var once := ApplyRows(afterX, idColumn, y);
    RenamedAway(rows, idColumn, x);
    RenamedAway(afterX, idColumn, y);
    FirstNone(once, idColumn, x.rowId);
    if x.rowId == y.destination {
      RenamingsSwap(once, idColumn, x, y);
    } else {
      forall i | 0 <= i < |rows|
        ensures !HasId(once[i], idColumn, x.rowId)
      {
        assert !HasId(afterX[i], idColumn, x.rowId);
      }
    }
  }

  lemma RenamingsSwap(rows: seq<Row>, idColumn: string, x: Item, y: Item)
    requires x.column == y.column == idColumn && Effective(idColumn, x) && Effective(idColumn, y)
    requires x.destination == y.source && y.destination == x.source
    requires forall i :: 0 <= i < |rows| ==> !HasId(rows[i], idColumn, y.rowId)
    ensures ApplyRows(ApplyRows(rows, idColumn, x), idColumn, y) == rows
  {
    FirstNone(rows, idColumn, x.rowId);
    FirstNone(rows, idColumn, y.rowId);
    if FirstWith(rows, idColumn, x.rowId).Some? {
      FirstHasId(rows, idColumn, x.rowId);
      var there := UpdateRows(rows, idColumn, x);
      var k :| 0 <= k < |rows| && HasId(rows[k], idColumn, x.rowId);
      assert HasId(there[k], idColumn, y.rowId);
      FirstNone(there, idColumn, y.rowId);
      FirstHasId(there, idColumn, y.rowId);
      forall i | 0 <= i < |rows|
        ensures UpdateRows(there, idColumn, y)[i] == rows[i]
      {
        assert !HasId(rows[i], idColumn, y.rowId);
      }
    }
  }

  lemma UnchainedSettles(rows: seq<Row>, idColumn: string, x: Item, y: Item)
    requires x.table == y.table && !Chained(idColumn, x, y)
    ensures Settled(rows, idColumn, x, y)
  {
    if Harmonious(idColumn, x, y) {
      HarmoniousSettles(rows, idColumn, x, y);
    } else if x.column == y.column == idColumn {
      RenamingsSettle(rows, idColumn, x, y);
    } else if x.column == idColumn {
      RenamedFirstSettles(rows, idColumn, x, y);
    } else if y.column == idColumn {
      RenamingSettles(rows, idColumn, x, y);
    } else {
      CellSettles(rows, idColumn, x, y);
    }
  }

  /** For two items of one table, of the id column or not, and over all tables, even ones whose rows
      share ids: a second run can change something if and only if the items chain. */
  lemma SecondRunOfTwo(idColumn: string, x: Item, y: Item)
    requires x.table == y.table
    ensures (exists rows :: !Settled(rows, idColumn, x, y)) <==> Chained(idColumn, x, y)
  {
    if Chained(idColumn, x, y) {
      ChainedMoves(idColumn, x, y);
    } else {
      forall rows
        ensures Settled(rows, idColumn, x, y)
      {
        UnchainedSettles(rows, idColumn, x, y);
      }
    }
  }

  // ---------------------------------------------------------------- any list, unique ids

  /** The items of one table applied to its rows, the others passed over. */
  function RunTable(rows: seq<Row>, idColumn: string, table: string, items: seq<Item>): (r: seq<Row>)
    ensures |r| == |rows|
  {
    if items == [] then rows
    else
      var before, last := RunTable(rows, idColumn, table, items[..|items| - 1]), items[|items| - 1];
      if last.table == table then ApplyRows(before, idColumn, last) else before
  }

  /** A run over a database is a run over each of its tables. */
  lemma {:induction false} ApplyAllByTable(db: Database, targets: Targets, items: seq<Item>)
    ensures ApplyAll(db, targets, items).Keys == db.Keys
    ensures forall t :: t in db ==>
              ApplyAll(db, targets, items)[t]
              == if t in targets then RunTable(db[t], targets[t], t, items) else db[t]
  {
    if items != [] {
      ApplyAllByTable(db, targets, items[..|items| - 1]);
    }
  }

  /** What a run makes of one row when its id is unique. */
  function RewriteAll(row: Row, idColumn: string, table: string, items: seq<Item>): Row {
    if items == [] then row
    else
      var before, last := RewriteAll(row, idColumn, table, items[..|items| - 1]), items[|items| - 1];
      if last.table == table then Rewrite(before, idColumn, last) else before
  }

  /** What a run makes of one cell: it follows the items for the cell of `x` from value to value. */
  function Follow(items: seq<Item>, x: Item, value: string): string {
    if items == [] then value
    else
      var before, last := Follow(items[..|items| - 1], x, value), items[|items| - 1];
      if SameCell(last, x) && last.source == before then last.destination else before
  }

  /** No item is for the id column of its table, and each has a table. */
  predicate KeepsIds(targets: Targets, items: seq<Item>) {
    forall x | x in items :: x.table in targets && x.column != targets[x.table]
  }

  /** No two rows share an id. */
  ghost predicate DistinctIds(rows: seq<Row>, idColumn: string) {
    forall rowId :: UniqueId(rows, idColumn, rowId)
  }

  ghost predicate AllDistinct(db: Database, targets: Targets) {
    forall t :: t in db && t in targets ==> DistinctIds(db[t], targets[t])
  }

  lemma {:induction false} FirstIsUnique(rows: seq<Row>, idColumn: string, rowId: string, i: nat)
    requires UniqueId(rows, idColumn, rowId) && i < |rows| && HasId(rows[i], idColumn, rowId)
    ensures FirstWith(rows, idColumn, rowId) == Some(rows[i])
  {
    if i > 0 {
      assert !HasId(rows[0], idColumn, rowId);
      forall a, b | 0 <= a < b < |rows[1..]|
        ensures !(HasId(rows[1..][a], idColumn, rowId) && HasId(rows[1..][b], idColumn, rowId))
      {
        assert rows[1..][a] == rows[a + 1] && rows[1..][b] == rows[b + 1];
      }
      FirstIsUnique(rows[1..], idColumn, rowId, i - 1);
    }
  }

  /** With a unique id an item rewrites exactly the rows it hits. */
  lemma ApplyIsRewrite(rows: seq<Row>, idColumn: string, x: Item, i: nat)
    requires UniqueId(rows, idColumn, x.rowId) && i < |rows|
    ensures ApplyRows(rows, idColumn, x)[i] == Rewrite(rows[i], idColumn, x)
  {
    if Hit(rows[i], idColumn, x) {
      FirstIsUnique(rows, idColumn, x.rowId, i);
      assert Holds(rows[i], x.column, x.destination) ==> Rewrite(rows[i], idColumn, x) == rows[i];
    }
  }

  lemma {:induction false} RewriteAllKeepsId(row: Row, idColumn: string, table: string, items: seq<Item>)
    requires forall x | x in items :: x.table == table ==> x.column != idColumn
    ensures RewriteAll(row, idColumn, table, items).Keys == row.Keys
    ensures idColumn in row ==> RewriteAll(row, idColumn, table, items)[idColumn] == row[idColumn]
  {
    if items != [] {
      RewriteAllKeepsId(row, idColumn, table, items[..|items| - 1]);
      assert items[|items| - 1] in items;
    }
  }

  lemma {:induction false} RunIsRewriteAll(rows: seq<Row>, idColumn: string, table: string, items: seq<Item>)
    requires DistinctIds(rows, idColumn)
    requires forall x | x in items :: x.table == table ==> x.column != idColumn
    ensures DistinctIds(RunTable(rows, idColumn, table, items), idColumn)
    ensures forall i :: 0 <= i < |rows| ==>
              RunTable(rows, idColumn, table, items)[i] == RewriteAll(rows[i], idColumn, table, items)
  {
    if items != [] {
      var before, last := items[..|items| - 1], items[|items| - 1];
      assert last in items;
      RunIsRewriteAll(rows, idColumn, table, before);
      if last.table == table {
        var half := RunTable(rows, idColumn, table, before);
        assert UniqueId(half, idColumn, last.rowId);
        forall i | 0 <= i < |rows|
          ensures ApplyRows(half, idColumn, last)[i] == Rewrite(half[i], idColumn, last)
        {
          ApplyIsRewrite(half, idColumn, last, i);
        }
        SameIdsStayDistinct(half, ApplyRows(half, idColumn, last), idColumn, last);
      }
    }
  }

  lemma SameIdsStayDistinct(rows: seq<Row>, after: seq<Row>, idColumn: string, x: Item)
    requires DistinctIds(rows, idColumn) && x.column != idColumn && |after| == |rows|
    requires forall i :: 0 <= i < |rows| ==> after[i] == Rewrite(rows[i], idColumn, x)
    ensures DistinctIds(after, idColumn)
  {
    forall rowId
      ensures UniqueId(after, idColumn, rowId)
    {
      assert UniqueId(rows, idColumn, rowId);
    }
  }

  /** A cell whose row has a unique id follows the items; a cell without a text stays. */
  lemma {:induction false} CellFollows(row: Row, idColumn: string, table: string, items: seq<Item>, x: Item, column: string)
    requires forall y | y in items :: y.table == table ==> y.column != idColumn
    requires column in row && column != idColumn
    ensures column in RewriteAll(row, idColumn, table, items)
    ensures row[column].Some? && HasId(row, idColumn, x.rowId) && x.table == table && x.column == column ==>
              RewriteAll(row, idColumn, table, items)[column] == Some(Follow(items, x, row[column].value))
    ensures row[column].None? || idColumn !in row || row[idColumn].None? ==>
              RewriteAll(row, idColumn, table, items)[column] == row[column]
  {
    RewriteAllKeepsId(row, idColumn, table, items);
    if items != [] {
      var front := items[..|items| - 1];
      assert items[|items| - 1] in items;
      CellFollows(row, idColumn, table, front, x, column);
      RewriteAllKeepsId(row, idColumn, table, front);
    }
  }

  /** A value that no item for the cell looks for stays. */
  lemma {:induction false} FollowStays(items: seq<Item>, x: Item, value: string)
    requires forall y | y in items :: SameCell(y, x) ==> y.source != value
    ensures Follow(items, x, value) == value
  {
    if items != [] {
      assert items[|items| - 1] in items;
      FollowStays(items[..|items| - 1], x, value);
    }
  }

  lemma {:induction false} FollowSameCell(items: seq<Item>, x: Item, y: Item, value: string)
    requires SameCell(x, y)
    ensures Follow(items, x, value) == Follow(items, y, value)
  {
    if items != [] {
      FollowSameCell(items[..|items| - 1], x, y, value);
    }
  }

  /** Following the items from the source of any one of them ends where following them again stays. */
  predicate AllSettle(items: seq<Item>) {
    forall x | x in items :: Follow(items, x, Follow(items, x, x.source)) == Follow(items, x, x.source)
  }

  lemma FollowTwice(items: seq<Item>, x: Item, value: string)
    requires AllSettle(items)
    ensures Follow(items, x, Follow(items, x, value)) == Follow(items, x, value)
  {
    if y :| y in items && SameCell(y, x) && y.source == value {
      FollowSameCell(items, x, y, value);
      FollowSameCell(items, x, y, Follow(items, x, value));
    } else {
      FollowStays(items, x, value);
    }
  }

  lemma RowSettles(row: Row, idColumn: string, table: string, items: seq<Item>)
    requires AllSettle(items)
    requires forall x | x in items :: x.table == table ==> x.column != idColumn
    ensures var once := RewriteAll(row, idColumn, table, items); RewriteAll(once, idColumn, table, items) == once
  {
    var once := RewriteAll(row, idColumn, table, items);
    var twice := RewriteAll(once, idColumn, table, items);
    RewriteAllKeepsId(row, idColumn, table, items);
    RewriteAllKeepsId(once, idColumn, table, items);
    forall column | column in row && column != idColumn
      ensures twice[column] == once[column]
    {
      var rowId := if idColumn in row && row[idColumn].Some? then row[idColumn].value else "";
      var x := Item(table, column, rowId, "", "");
      CellFollows(row, idColumn, table, items, x, column);
      CellFollows(once, idColumn, table, items, x, column);
      if row[column].Some? {
        FollowTwice(items, x, row[column].value);
      }
    }
  }

  ghost predicate SecondRunIdle(db: Database, targets: Targets, items: seq<Item>) {
    var once := ApplyAll(db, targets, items);
    ApplyAll(once, targets, items) == once
  }

  lemma SettledListIsIdle(db: Database, targets: Targets, items: seq<Item>)
    requires KeepsIds(targets, items) && AllSettle(items) && AllDistinct(db, targets)
    ensures SecondRunIdle(db, targets, items)
  {
    var once := ApplyAll(db, targets, items);
    ApplyAllByTable(db, targets, items);
    ApplyAllByTable(once, targets, items);
    forall t | t in db && t in targets
      ensures ApplyAll(once, targets, items)[t] == once[t]
    {
      TableSettles(db[t], targets[t], t, items);
    }
  }

  lemma TableSettles(rows: seq<Row>, idColumn: string, table: string, items: seq<Item>)
    requires DistinctIds(rows, idColumn) && AllSettle(items)
    requires forall x | x in items :: x.table == table ==> x.column != idColumn
    ensures var once := RunTable(rows, idColumn, table, items); RunTable(once, idColumn, table, items) == once
  {
    var once := RunTable(rows, idColumn, table, items);
    RunIsRewriteAll(rows, idColumn, table, items);
    RunIsRewriteAll(once, idColumn, table, items);
    forall i | 0 <= i < |rows|
      ensures RunTable(once, idColumn, table, items)[i] == once[i]
    {
      RowSettles(rows[i], idColumn, table, items);
    }
  }

  /** The table on which an item whose source does not settle shows it. */
  function Unsettled(targets: Targets, x: Item): Database
    requires x.table in targets
  {
    map[x.table := [map[x.column := Some(x.source), targets[x.table] := Some(x.rowId)]]]
  }

  lemma UnsettledListMoves(targets: Targets, items: seq<Item>, x: Item)
    requires KeepsIds(targets, items) && x in items
    requires Follow(items, x, Follow(items, x, x.source)) != Follow(items, x, x.source)
    ensures AllDistinct(Unsettled(targets, x), targets) && !SecondRunIdle(Unsettled(targets, x), targets, items)
  {
    var t, k := x.table, targets[x.table];
    var db := Unsettled(targets, x);
    var row: Row := db[t][0];
    var once := ApplyAll(db, targets, items);
    var rowOnce := RewriteAll(row, k, t, items);
    ApplyAllByTable(db, targets, items);
    ApplyAllByTable(once, targets, items);
    RunIsRewriteAll(db[t], k, t, items);
    RunIsRewriteAll(once[t], k, t, items);
    RewriteAllKeepsId(row, k, t, items);
    CellFollows(row, k, t, items, x, x.column);
    CellFollows(rowOnce, k, t, items, x, x.column);
    assert once[t][0] == rowOnce;
    assert ApplyAll(once, targets, items)[t][0] == RewriteAll(rowOnce, k, t, items);
  }

  /** For any list of items outside the id columns, over all databases whose rows have unique ids: a
      second full run changes nothing if and only if following the items of a cell from the source of
      any item for it ends where following them again stays. */
  lemma SecondRunOfList(targets: Targets, items: seq<Item>)
    requires KeepsIds(targets, items)
    ensures (forall db :: AllDistinct(db, targets) ==> SecondRunIdle(db, targets, items)) <==> AllSettle(items)
  {
    if AllSettle(items) {
      forall db | AllDistinct(db, targets)
        ensures SecondRunIdle(db, targets, items)
      {
        SettledListIsIdle(db, targets, items);
      }
    } else {
      var x :| x in items && Follow(items, x, Follow(items, x, x.source)) != Follow(items, x, x.source);
      UnsettledListMoves(targets, items, x);
    }
  }

  // ---------------------------------------------------------------- any list, shared ids

  /** What a run makes of a cell in a row that shares its id with another one: the first row with the id
      decides whether an item is applied. */
  function FollowFirst(items: seq<Item>, x: Item, first: string, value: string): (string, string) {
    if items == [] then (first, value)
    else
      var (f, v), last := FollowFirst(items[..|items| - 1], x, first, value), items[|items| - 1];
      if SameCell(last, x) && last.source == f then (last.destination, if v == f then last.destination else v) else (f, v)
  }

  /** What a run makes of a row, and of the first row with its id. */
  function RewriteUnder(first: Row, row: Row, idColumn: string, table: string, items: seq<Item>): (Row, Row) {
    if items == [] then (first, row)
    else
      var (f, r), last := RewriteUnder(first, row, idColumn, table, items[..|items| - 1]), items[|items| - 1];
      if last.table == table && Hit(f, idColumn, last) then (Rewrite(f, idColumn, last), Rewrite(r, idColumn, last)) else (f, r)
  }

  /** One item, one row: it is rewritten if the first row with the item's id is hit. */
  lemma ApplyUnder(rows: seq<Row>, idColumn: string, x: Item, i: nat, rowId: string)
    requires x.column != idColumn && i < |rows| && HasId(rows[i], idColumn, rowId)
    ensures FirstWith(rows, idColumn, rowId).Some?
    ensures var first := FirstWith(rows, idColumn, rowId).value;
            var hit := Hit(first, idColumn, x);
            && FirstWith(ApplyRows(rows, idColumn, x), idColumn, rowId) == Some(Rewrite(first, idColumn, x))
            && ApplyRows(rows, idColumn, x)[i] == if hit then Rewrite(rows[i], idColumn, x) else rows[i]
  {
    FirstNone(rows, idColumn, rowId);
    FirstHasId(rows, idColumn, rowId);
    FirstAfter(rows, idColumn, x, rowId);
    var first := FirstWith(rows, idColumn, rowId).value;
    if x.rowId == rowId {
      assert Holds(first, x.column, x.destination) ==> Rewrite(first, idColumn, x) == first;
      assert Holds(rows[i], x.column, x.destination) ==> Rewrite(rows[i], idColumn, x) == rows[i];
    }
  }

  /** A row without an id stays. */
  lemma {:induction false} NoIdStays(rows: seq<Row>, idColumn: string, table: string, items: seq<Item>, i: nat)
    requires i < |rows| && forall rowId :: !HasId(rows[i], idColumn, rowId)
    ensures RunTable(rows, idColumn, table, items)[i] == rows[i]
  {
    if items != [] {
      NoIdStays(rows, idColumn, table, items[..|items| - 1], i);
    }
  }

  lemma {:induction false} RunIsRewriteUnder(rows: seq<Row>, idColumn: string, table: string, items: seq<Item>, i: nat, rowId: string)
    requires i < |rows| && HasId(rows[i], idColumn, rowId)
    requires forall x | x in items :: x.table == table ==> x.column != idColumn
    ensures FirstWith(rows, idColumn, rowId).Some?
    ensures var (f, r) := RewriteUnder(FirstWith(rows, idColumn, rowId).value, rows[i], idColumn, table, items);
            var after := RunTable(rows, idColumn, table, items);
            && FirstWith(after, idColumn, rowId) == Some(f) && after[i] == r
            && HasId(f, idColumn, rowId) && HasId(r, idColumn, rowId)
  {
    FirstNone(rows, idColumn, rowId);
    FirstHasId(rows, idColumn, rowId);
    if items != [] {
      var before, last := items[..|items| - 1], items[|items| - 1];
      assert last in items;
      RunIsRewriteUnder(rows, idColumn, table, before, i, rowId);
      if last.table == table {
        ApplyUnder(RunTable(rows, idColumn, table, before), idColumn, last, i, rowId);
      }
    }
  }

  lemma {:induction false} UnderKeepsKeys(first: Row, row: Row, idColumn: string, table: string, items: seq<Item>)
    requires forall x | x in items :: x.table == table ==> x.column != idColumn
    requires idColumn in first && idColumn in row && first[idColumn] == row[idColumn]
    ensures var (f, r) := RewriteUnder(first, row, idColumn, table, items);
            && f.Keys == first.Keys && r.Keys == row.Keys
            && f[idColumn] == first[idColumn] && r[idColumn] == row[idColumn]
  {
    if items != [] {
      UnderKeepsKeys(first, row, idColumn, table, items[..|items| - 1]);
      assert items[|items| - 1] in items;
    }
  }

  /** Cells follow the first row; where the first row has no text in the column, they stay. */
  lemma {:induction false} CellFollowsFirst(first: Row, row: Row, idColumn: string, table: string, items: seq<Item>, x: Item)
    requires forall y | y in items :: y.table == table ==> y.column != idColumn
    requires HasId(first, idColumn, x.rowId) && HasId(row, idColumn, x.rowId) && x.table == table
    requires x.column != idColumn && x.column in row
    ensures var (f, r) := RewriteUnder(first, row, idColumn, table, items);
            var c := x.column;
            && c in r
            && (c in first && first[c].Some? ==> c in f && f[c] == Some(FollowFirst(items, x, first[c].value, "").0))
            && (c in first && first[c].Some? && row[c].Some? ==>
                  r[c] == Some(FollowFirst(items, x, first[c].value, row[c].value).1))
            && (c !in first || first[c].None? || row[c].None? ==> r[c] == row[c])
            && (c !in first || first[c].None? ==> c !in f || f[c].None?)
  {
    UnderKeepsKeys(first, row, idColumn, table, items);
    if items != [] {
      var front := items[..|items| - 1];
      assert items[|items| - 1] in items;
      CellFollowsFirst(first, row, idColumn, table, front, x);
      UnderKeepsKeys(first, row, idColumn, table, front);
      if x.column in first && first[x.column].Some? && row[x.column].Some? {
        FirstAlone(front, x, first[x.column].value, row[x.column].value, "");
      }
    }
  }

  /** What becomes of the first row does not depend on the others. */
  lemma {:induction false} FirstAlone(items: seq<Item>, x: Item, first: string, v: string, w: string)
    ensures FollowFirst(items, x, first, v).0 == FollowFirst(items, x, first, w).0
  {
    if items != [] {
      FirstAlone(items[..|items| - 1], x, first, v, w);
    }
  }

  lemma {:induction false} FirstStays(items: seq<Item>, x: Item, first: string, value: string)
    requires forall y | y in items :: SameCell(y, x) ==> y.source != first
    ensures FollowFirst(items, x, first, value) == (first, value)
  {
    if items != [] {
      assert items[|items| - 1] in items;
      FirstStays(items[..|items| - 1], x, first, value);
    }
  }

  lemma {:induction false} ValueStays(items: seq<Item>, x: Item, first: string, value: string)
    requires forall y | y in items :: SameCell(y, x) ==> y.source != value
    ensures FollowFirst(items, x, first, value).1 == value
  {
    if items != [] {
      assert items[|items| - 1] in items;
      ValueStays(items[..|items| - 1], x, first, value);
    }
  }

  lemma {:induction false} FollowFirstSameCell(items: seq<Item>, x: Item, y: Item, first: string, value: string)
    requires SameCell(x, y)
    ensures FollowFirst(items, x, first, value) == FollowFirst(items, y, first, value)
  {
    if items != [] {
      FollowFirstSameCell(items[..|items| - 1], x, y, first, value);
    }
  }

  /** From the sources of any two items for one cell, the one in the first row and the other in another
      row, following the items ends where following them again stays. */
  predicate AllPairsSettle(items: seq<Item>) {
    forall x, y | x in items && y in items && SameCell(x, y) :: PairSettles(items, x, x.source, y.source)
  }

  predicate PairSettles(items: seq<Item>, x: Item, first: string, value: string) {
    var once := FollowFirst(items, x, first, value);
    FollowFirst(items, x, once.0, once.1) == once
  }

  lemma EveryPairSettles(items: seq<Item>, x: Item, first: string, value: string)
    requires AllPairsSettle(items)
    ensures PairSettles(items, x, first, value)
  {
    if a :| a in items && SameCell(a, x) && a.source == first {
      if b :| b in items && SameCell(b, x) && b.source == value {
        assert PairSettles(items, a, first, value);
        SamePairs(items, a, x, first, value);
      } else {
        assert PairSettles(items, a, first, first);
        SamePairs(items, a, x, first, first);
        var once := FollowFirst(items, x, first, value);
        FirstAlone(items, x, first, value, first);
        ValueStays(items, x, first, value);
        ValueStays(items, x, once.0, value);
        FirstAlone(items, x, once.0, value, FollowFirst(items, x, first, first).1);
      }
    } else {
      FirstStays(items, x, first, value);
    }
  }

  lemma SamePairs(items: seq<Item>, a: Item, x: Item, first: string, value: string)
    requires SameCell(a, x)
    ensures PairSettles(items, a, first, value) == PairSettles(items, x, first, value)
  {
    FollowFirstSameCell(items, a, x, first, value);
    var once := FollowFirst(items, x, first, value);
    FollowFirstSameCell(items, a, x, once.0, once.1);
  }

  lemma CellSettlesUnder(first: Row, row: Row, idColumn: string, table: string, items: seq<Item>, x: Item)
    requires AllPairsSettle(items)
    requires forall y | y in items :: y.table == table ==> y.column != idColumn
    requires HasId(first, idColumn, x.rowId) && HasId(row, idColumn, x.rowId) && x.table == table
    requires x.column != idColumn && x.column in row
    ensures var (f, r) := RewriteUnder(first, row, idColumn, table, items);
            var (f', r') := RewriteUnder(f, r, idColumn, table, items);
            x.column in r && x.column in r' && r'[x.column] == r[x.column]
  {
    var (f, r) := RewriteUnder(first, row, idColumn, table, items);
    var c := x.column;
    UnderKeepsKeys(first, row, idColumn, table, items);
    CellFollowsFirst(first, row, idColumn, table, items, x);
    CellFollowsFirst(f, r, idColumn, table, items, x);
    if c in first && first[c].Some? && row[c].Some? {
      EveryPairSettles(items, x, first[c].value, row[c].value);
      FirstAlone(items, x, first[c].value, row[c].value, "");
    }
  }

  lemma RowSettlesUnder(rows: seq<Row>, idColumn: string, table: string, items: seq<Item>, i: nat)
    requires AllPairsSettle(items) && i < |rows|
    requires forall y | y in items :: y.table == table ==> y.column != idColumn
    ensures var once := RunTable(rows, idColumn, table, items); RunTable(once, idColumn, table, items)[i] == once[i]
  {
    var once := RunTable(rows, idColumn, table, items);
    if rowId :| HasId(rows[i], idColumn, rowId) {
      RunIsRewriteUnder(rows, idColumn, table, items, i, rowId);
      RunIsRewriteUnder(once, idColumn, table, items, i, rowId);
      var first, row := FirstWith(rows, idColumn, rowId).value, rows[i];
      FirstHasId(rows, idColumn, rowId);
      UnderKeepsKeys(first, row, idColumn, table, items);
      var (f, r) := RewriteUnder(first, row, idColumn, table, items);
      UnderKeepsKeys(f, r, idColumn, table, items);
      var (f', r') := RewriteUnder(f, r, idColumn, table, items);
      forall c | c in r && c != idColumn
        ensures r'[c] == r[c]
      {
        CellSettlesUnder(first, row, idColumn, table, items, Item(table, c, rowId, "", ""));
      }
      assert r' == r;
    } else {
      NoIdStays(rows, idColumn, table, items, i);
      NoIdStays(once, idColumn, table, items, i);
    }
  }

  /** The two rows on which a pair that does not settle shows it. */
  function SharedRows(idColumn: string, x: Item, y: Item): seq<Row> {
    [map[x.column := Some(x.source), idColumn := Some(x.rowId)], map[x.column := Some(y.source), idColumn := Some(x.rowId)]]
  }

  lemma UnsettledPairMoves(targets: Targets, items: seq<Item>, x: Item, y: Item)
    requires KeepsIds(targets, items) && x in items && y in items && SameCell(x, y)
    requires !PairSettles(items, x, x.source, y.source)
    ensures !SecondRunIdle(map[x.table := SharedRows(targets[x.table], x, y)], targets, items)
  {
    var t, k := x.table, targets[x.table];
    var rows := SharedRows(k, x, y);
    var db: Database := map[t := rows];
    var once := ApplyAll(db, targets, items);
    ApplyAllByTable(db, targets, items);
    ApplyAllByTable(once, targets, items);
    SharedRowsMove(rows, k, t, items, x, y);
  }

  lemma SharedRowsMove(rows: seq<Row>, k: string, t: string, items: seq<Item>, x: Item, y: Item)
    requires rows == SharedRows(k, x, y) && x.table == t && x.column != k
    requires forall z | z in items :: z.table == t ==> z.column != k
    requires !PairSettles(items, x, x.source, y.source)
    ensures var once := RunTable(rows, k, t, items); RunTable(once, k, t, items) != once
  {
    var once := RunTable(rows, k, t, items);
    var twice := RunTable(once, k, t, items);
    var c := x.column;
    SharedCell(rows, k, t, items, x, y, 0);
    SharedCell(rows, k, t, items, x, y, 1);
    FirstAlone(items, x, x.source, x.source, y.source);
    var p := FollowFirst(items, x, x.source, y.source);
    FirstMoves(items, x, x.source);
    FirstMoves(items, x, p.0);
    FirstAlone(items, x, p.0, p.0, p.1);
    assert twice[0][c] != once[0][c] || twice[1][c] != once[1][c];
  }

  /** The first row itself follows the items. */
  lemma {:induction false} FirstMoves(items: seq<Item>, x: Item, first: string)
    ensures FollowFirst(items, x, first, first).0 == FollowFirst(items, x, first, first).1
  {
    if items != [] {
      FirstMoves(items[..|items| - 1], x, first);
    }
  }

  lemma SharedCell(rows: seq<Row>, k: string, t: string, items: seq<Item>, x: Item, y: Item, i: nat)
    requires rows == SharedRows(k, x, y) && x.table == t && x.column != k && i < 2
    requires forall z | z in items :: z.table == t ==> z.column != k
    ensures var once := RunTable(rows, k, t, items);
            var twice := RunTable(once, k, t, items);
            var p := FollowFirst(items, x, x.source, if i == 0 then x.source else y.source);
            && x.column in once[i] && once[i][x.column] == Some(p.1)
            && x.column in twice[i] && twice[i][x.column] == Some(FollowFirst(items, x, p.0, p.1).1)
  {
    var once := RunTable(rows, k, t, items);
    RunIsRewriteUnder(rows, k, t, items, i, x.rowId);
    RunIsRewriteUnder(once, k, t, items, i, x.rowId);
    assert FirstWith(rows, k, x.rowId) == Some(rows[0]);
    var (f, r) := RewriteUnder(rows[0], rows[i], k, t, items);
    CellFollowsFirst(rows[0], rows[i], k, t, items, x);
    CellFollowsFirst(f, r, k, t, items, x);
    FirstAlone(items, x, x.source, if i == 0 then x.source else y.source, "");
  }

  /** For any list of items outside the id columns, over all databases, also those whose rows share ids:
      a second full run changes nothing if and only if for every cell all pairs of sources settle. */
  lemma SecondRunOfListAnyIds(targets: Targets, items: seq<Item>)
    requires KeepsIds(targets, items)
    ensures (forall db :: SecondRunIdle(db, targets, items)) <==> AllPairsSettle(items)
  {
    if AllPairsSettle(items) {
      forall db
        ensures SecondRunIdle(db, targets, items)
      {
        SettledPairsAreIdle(db, targets, items);
      }
    } else {
      var x, y :| x in items && y in items && SameCell(x, y) && !PairSettles(items, x, x.source, y.source);
      UnsettledPairMoves(targets, items, x, y);
    }
  }

  lemma SettledPairsAreIdle(db: Database, targets: Targets, items: seq<Item>)
    requires KeepsIds(targets, items) && AllPairsSettle(items)
    ensures SecondRunIdle(db, targets, items)
  {
    var once := ApplyAll(db, targets, items);
    ApplyAllByTable(db, targets, items);
    ApplyAllByTable(once, targets, items);
    forall t | t in db && t in targets
      ensures ApplyAll(once, targets, items)[t] == once[t]
    {
      forall i | 0 <= i < |db[t]|
        ensures RunTable(once[t], targets[t], t, items)[i] == once[t][i]
      {
        RowSettlesUnder(db[t], targets[t], t, items, i);
      }
    }
  }
}
