/** Repointing database cells from source paths to destination URLs. */
module Repoint {
  import opened Basics
  import opened CheckpointNames

  /** A cell; None is NULL. */
  type Cell = Option<string>

  type Row = map<string, Cell>

  type Database = map<string, seq<Row>>

  datatype Column = Column(name: string, primary: bool)

  type Schema = map<string, seq<Column>>

  datatype Item = Item(table: string, column: string, rowId: string, source: string, destination: string)

  /** The id column of every table that is written. */
  type Targets = map<string, string>

  datatype Outcome = Updated | AlreadyUpdated | Conflict | Missing

  datatype Counts = Counts(updated: nat, alreadyUpdated: nat, conflict: nat, missing: nat, total: nat)

  // ---------------------------------------------------------------- validation

  function Names(columns: seq<Column>): set<string> {
    set i | 0 <= i < |columns| :: columns[i].name
  }

  function PrimaryKeys(columns: seq<Column>): seq<string> {
    if columns == [] then []
    else
      PrimaryKeys(columns[..|columns| - 1]) +
      if columns[|columns| - 1].primary then [columns[|columns| - 1].name] else []
  }

  /** The column that identifies a row: the only primary key column, or `id` where there is none. */
  function IdColumn(columns: seq<Column>): Option<string> {
    var keys := PrimaryKeys(columns);
    if |keys| == 1 then Some(keys[0])
    else if keys == [] && "id" in Names(columns) then Some("id")
    else None
  }

  ghost predicate IsPrimary(columns: seq<Column>, i: int) {
    0 <= i < |columns| && columns[i].primary
  }

  /** The one primary key column is named so. */
  ghost predicate OnlyPrimary(columns: seq<Column>, name: string) {
    exists i :: IsPrimary(columns, i) && columns[i].name == name && forall j :: IsPrimary(columns, j) ==> j == i
  }

  lemma {:induction false} KeysListed(columns: seq<Column>)
    ensures PrimaryKeys(columns) == [] <==> forall i :: !IsPrimary(columns, i)
    ensures forall name :: PrimaryKeys(columns) == [name] <==> OnlyPrimary(columns, name)
  {
    if columns != [] {
      var front, last := columns[..|columns| - 1], |columns| - 1;
      KeysListed(front);
      assert forall i :: IsPrimary(front, i) <==> IsPrimary(columns, i) && i != last;
      if columns[last].primary {
        assert IsPrimary(columns, last);
        forall name
          ensures PrimaryKeys(columns) == [name] <==> OnlyPrimary(columns, name)
        {
          assert PrimaryKeys(columns)[|PrimaryKeys(front)|] == columns[last].name;
          assert OnlyPrimary(columns, name) <==> columns[last].name == name && forall i :: !IsPrimary(front, i);
        }
      } else {
        assert forall i :: IsPrimary(front, i) <==> IsPrimary(columns, i);
        forall name
          ensures OnlyPrimary(front, name) <==> OnlyPrimary(columns, name)
        {
          if OnlyPrimary(columns, name) {
            var i :| IsPrimary(columns, i) && columns[i].name == name && forall j :: IsPrimary(columns, j) ==> j == i;
            assert IsPrimary(front, i);
          }
        }
      }
    }
  }

  /** A table is identified by its only primary key column, or by its column `id` if it declares no primary
      key; with several key columns, or with none and no `id`, there is nothing to identify its rows by. */
  lemma IdColumnExactly(columns: seq<Column>, name: string)
    ensures IdColumn(columns) == Some(name)
       <==> || OnlyPrimary(columns, name)
            || (name == "id" && "id" in Names(columns) && forall i :: !IsPrimary(columns, i))
  {
    KeysListed(columns);
    if |PrimaryKeys(columns)| == 1 {
      assert PrimaryKeys(columns) == [PrimaryKeys(columns)[0]];
    }
  }

  predicate ValidItem(schema: Schema, item: Item) {
    && ValidIdentifier(item.table) && ValidIdentifier(item.column)
    && item.table in schema && IdColumn(schema[item.table]).Some?
    && item.column in Names(schema[item.table])
  }

  /** Every target is resolved before anything is written; it fails if and only if some item is
      not valid. */
  method Resolve(schema: Schema, database: string, items: seq<Item>) returns (targets: Option<Targets>)
    ensures targets.None? <==> !ValidIdentifier(database) || exists i :: 0 <= i < |items| && !ValidItem(schema, items[i])
    ensures targets.Some? ==> forall i :: 0 <= i < |items| ==>
      items[i].table in targets.value && IdColumn(schema[items[i].table]) == Some(targets.value[items[i].table])
  {
    if !ValidIdentifier(database) {
      return None;
    }
    for i := 0 to |items|
      invariant forall j :: 0 <= j < i ==> ValidIdentifier(items[j].table) && ValidIdentifier(items[j].column)
    {
      if !ValidIdentifier(items[i].table) || !ValidIdentifier(items[i].column) {
        assert !ValidItem(schema, items[i]);
        return None;
      }
    }
    var found: Targets := map[];
    for i := 0 to |items|
      invariant forall j :: 0 <= j < i ==>
        items[j].table in schema && items[j].table in found && IdColumn(schema[items[j].table]) == Some(found[items[j].table])
    {
      var table := items[i].table;
      if table !in schema || IdColumn(schema[table]).None? {
        assert !ValidItem(schema, items[i]);
        return None;
      }
      found := found[table := IdColumn(schema[table]).value];
    }
    for i := 0 to |items|
      invariant forall j :: 0 <= j < i ==> items[j].column in Names(schema[items[j].table])
    {
      if items[i].column !in Names(schema[items[i].table]) {
        assert !ValidItem(schema, items[i]);
        return None;
      }
    }
    assert forall i :: 0 <= i < |items| ==> ValidItem(schema, items[i]);
    targets := Some(found);
  }

  // ---------------------------------------------------------------- statements

  predicate HasId(row: Row, idColumn: string, rowId: string) {
    idColumn in row && row[idColumn] == Some(rowId)
  }

  predicate Holds(row: Row, column: string, value: string) {
    column in row && row[column] == Some(value)
  }

  /** The first row that a SELECT by id finds. */
  function FirstWith(rows: seq<Row>, idColumn: string, rowId: string): Option<Row> {
    if rows == [] then None
    else if HasId(rows[0], idColumn, rowId) then Some(rows[0])
    else FirstWith(rows[1..], idColumn, rowId)
  }

  predicate Hit(row: Row, idColumn: string, item: Item) {
    HasId(row, idColumn, item.rowId) && Holds(row, item.column, item.source)
  }

  function Rewrite(row: Row, idColumn: string, item: Item): Row {
    if Hit(row, idColumn, item) then row[item.column := Some(item.destination)] else row
  }

  /** The UPDATE guarded by the row id and the source path. */
  function UpdateRows(rows: seq<Row>, idColumn: string, item: Item): (r: seq<Row>)
    ensures |r| == |rows|
  {
    seq(|rows|, i requires 0 <= i < |rows| => Rewrite(rows[i], idColumn, item))
  }

  /** The number of rows the UPDATE writes. */
  function Hits(rows: seq<Row>, idColumn: string, item: Item): nat {
    if rows == [] then 0
    else Hits(rows[..|rows| - 1], idColumn, item) + if Hit(rows[|rows| - 1], idColumn, item) then 1 else 0
  }

  /** What the tool decides on what it has selected; None is the decision to update. */
  function Judge(selected: Option<Row>, item: Item): Option<Outcome> {
    if selected.None? then Some(Missing)
    else if Holds(selected.value, item.column, item.destination) then Some(AlreadyUpdated)
    else if !Holds(selected.value, item.column, item.source) then Some(Conflict)
    else None
  }

  /** One item when nobody else writes. */
  function ApplyRows(rows: seq<Row>, idColumn: string, item: Item): (r: seq<Row>)
    ensures |r| == |rows|
  {
    if Judge(FirstWith(rows, idColumn, item.rowId), item).None? then UpdateRows(rows, idColumn, item) else rows
  }

  predicate Ready(db: Database, targets: Targets, item: Item) {
    item.table in db && item.table in targets
  }

  function Apply(db: Database, targets: Targets, item: Item): Database {
    if !Ready(db, targets, item) then db
    else db[item.table := ApplyRows(db[item.table], targets[item.table], item)]
  }

  function ApplyAll(db: Database, targets: Targets, items: seq<Item>): Database {
    if items == [] then db
    else Apply(ApplyAll(db, targets, items[..|items| - 1]), targets, items[|items| - 1])
  }

  // ---------------------------------------------------------------- replay

  predicate SameCell(a: Item, b: Item) {
    a.table == b.table && a.column == b.column && a.rowId == b.rowId
  }

  /** Some table changes under the item.  An item of the id column renames the rows with its row
      id, so it does nothing unless that is its source. */
  predicate Effective(idColumn: string, x: Item) {
    x.source != x.destination && (x.column == idColumn ==> x.source == x.rowId)
  }

  /** Neither item produces what the other one looks for. */
  predicate NoHandover(x: Item, y: Item) {
    && (x.source == y.source ==> x.destination == y.destination)
    && (x.source != y.source ==> x.destination != y.source && y.destination != x.source)
  }

  /** A row stays out of a renaming of ids. */
  predicate OutOfRenaming(rowId: string, renaming: Item) {
    rowId != renaming.source && rowId != renaming.destination
  }

  /** Two items of one table do not get in each other's way: one of them does nothing, or they are
      for different cells, or neither hands a value, or a row, to the other. */
  predicate Harmonious(idColumn: string, x: Item, y: Item) {
    Effective(idColumn, x) && Effective(idColumn, y) ==>
      if x.column != idColumn && y.column != idColumn then !SameCell(x, y) || NoHandover(x, y)
      else if x.column != idColumn then OutOfRenaming(x.rowId, y)
      else if y.column != idColumn then OutOfRenaming(y.rowId, x)
      else NoHandover(x, y)
  }

  ghost predicate Compatible(targets: Targets, items: set<Item>) {
    forall x, y :: x in items && y in items && x.table == y.table && x.table in targets ==>
      Harmonious(targets[x.table], x, y)
  }

  lemma {:induction false} FirstAfter(rows: seq<Row>, idColumn: string, x: Item, rowId: string)
    requires x.column != idColumn
    ensures FirstWith(UpdateRows(rows, idColumn, x), idColumn, rowId)
         == var first := FirstWith(rows, idColumn, rowId);
            if first.Some? then Some(Rewrite(first.value, idColumn, x)) else None
  {
    if rows != [] {
      FirstAfter(rows[1..], idColumn, x, rowId);
      assert UpdateRows(rows, idColumn, x)[1..] == UpdateRows(rows[1..], idColumn, x);
    }
  }

  lemma {:induction false} FirstHasId(rows: seq<Row>, idColumn: string, rowId: string)
    requires FirstWith(rows, idColumn, rowId).Some?
    ensures HasId(FirstWith(rows, idColumn, rowId).value, idColumn, rowId)
  {
    if !HasId(rows[0], idColumn, rowId) {
      FirstHasId(rows[1..], idColumn, rowId);
    }
  }

  /** An item once applied has nothing left to do, even an item of the id column. */
  lemma ApplyTwice(rows: seq<Row>, idColumn: string, x: Item)
    ensures ApplyRows(ApplyRows(rows, idColumn, x), idColumn, x) == ApplyRows(rows, idColumn, x)
  {
    if !Effective(idColumn, x) {
      IneffectiveDoesNothing(rows, idColumn, x);
    } else if x.column == idColumn {
      RenamedAway(rows, idColumn, x);
    }
  }

  lemma {:induction false} IneffectiveDoesNothing(rows: seq<Row>, idColumn: string, x: Item)
    requires !Effective(idColumn, x)
    ensures ApplyRows(rows, idColumn, x) == rows
  {
    if FirstWith(rows, idColumn, x.rowId).Some? {
      FirstHasId(rows, idColumn, x.rowId);
    }
  }

  lemma {:induction false} FirstNone(rows: seq<Row>, idColumn: string, rowId: string)
    ensures FirstWith(rows, idColumn, rowId).None? <==> forall i :: 0 <= i < |rows| ==> !HasId(rows[i], idColumn, rowId)
  {
    if rows != [] {
      FirstNone(rows[1..], idColumn, rowId);
      assert forall i :: 1 <= i < |rows| ==> rows[i] == rows[1..][i - 1];
    }
  }

  /** After a renaming no row has the old id. */
  lemma RenamedAway(rows: seq<Row>, idColumn: string, x: Item)
    requires Effective(idColumn, x) && x.column == idColumn
    ensures forall i :: 0 <= i < |rows| ==> !HasId(ApplyRows(rows, idColumn, x)[i], idColumn, x.rowId)
    ensures FirstWith(ApplyRows(rows, idColumn, x), idColumn, x.rowId) == None
  {
    FirstNone(rows, idColumn, x.rowId);
    if FirstWith(rows, idColumn, x.rowId).Some? {
      FirstHasId(rows, idColumn, x.rowId);
    }
    FirstNone(ApplyRows(rows, idColumn, x), idColumn, x.rowId);
  }

  /** A renaming leaves the search for an id it does not involve as it is. */
  lemma {:induction false} FirstOutside(rows: seq<Row>, idColumn: string, x: Item, rowId: string)
    requires x.column == idColumn && OutOfRenaming(rowId, x)
    ensures FirstWith(UpdateRows(rows, idColumn, x), idColumn, rowId) == FirstWith(rows, idColumn, rowId)
  {
    if rows != [] {
      FirstOutside(rows[1..], idColumn, x, rowId);
      assert UpdateRows(rows, idColumn, x)[1..] == UpdateRows(rows[1..], idColumn, x);
    }
  }

  lemma RewritesCommute(row: Row, idColumn: string, x: Item, y: Item)
    requires x.column != idColumn && y.column != idColumn && x.table == y.table && !SameCell(x, y)
    ensures Rewrite(Rewrite(row, idColumn, x), idColumn, y) == Rewrite(Rewrite(row, idColumn, y), idColumn, x)
    ensures HasId(row, idColumn, y.rowId) ==> Judge(Some(Rewrite(row, idColumn, x)), y) == Judge(Some(row), y)
  {
  }

  /** A row of another item's decision is decided the same after this item. */
  lemma DecisionStays(rows: seq<Row>, idColumn: string, x: Item, y: Item)
    requires x.column != idColumn && y.column != idColumn && x.table == y.table && !SameCell(x, y)
    ensures Judge(FirstWith(ApplyRows(rows, idColumn, x), idColumn, y.rowId), y) == Judge(FirstWith(rows, idColumn, y.rowId), y)
  {
    FirstAfter(rows, idColumn, x, y.rowId);
    var first := FirstWith(rows, idColumn, y.rowId);
    if first.Some? {
      FirstHasId(rows, idColumn, y.rowId);
      RewritesCommute(first.value, idColumn, x, y);
    }
  }

  lemma RowsCommute(rows: seq<Row>, idColumn: string, x: Item, y: Item)
    requires x.column != idColumn && y.column != idColumn && x.table == y.table && !SameCell(x, y)
    ensures ApplyRows(ApplyRows(rows, idColumn, x), idColumn, y) == ApplyRows(ApplyRows(rows, idColumn, y), idColumn, x)
  {
    DecisionStays(rows, idColumn, x, y);
    DecisionStays(rows, idColumn, y, x);
    var xy := UpdateRows(UpdateRows(rows, idColumn, x), idColumn, y);
    var yx := UpdateRows(UpdateRows(rows, idColumn, y), idColumn, x);
    forall i | 0 <= i < |rows|
      ensures xy[i] == yx[i]
    {
      RewritesCommute(rows[i], idColumn, x, y);
    }
    assert xy == yx;
  }

  /** Two items for one cell, neither of which hands over to the other. */
  lemma SameCellCommute(rows: seq<Row>, idColumn: string, x: Item, y: Item)
    requires x.column != idColumn && SameCell(x, y) && NoHandover(x, y)
    ensures ApplyRows(ApplyRows(rows, idColumn, x), idColumn, y) == ApplyRows(ApplyRows(rows, idColumn, y), idColumn, x)
  {
    if x != y {
      FirstAfter(rows, idColumn, x, x.rowId);
      FirstAfter(rows, idColumn, y, x.rowId);
    }
  }

  /** A renaming commutes with an item of a row it does not involve. */
  lemma RenamingCommutes(rows: seq<Row>, idColumn: string, x: Item, y: Item)
    requires x.column != idColumn && y.column == idColumn && Effective(idColumn, y) && OutOfRenaming(x.rowId, y)
    ensures ApplyRows(ApplyRows(rows, idColumn, x), idColumn, y) == ApplyRows(ApplyRows(rows, idColumn, y), idColumn, x)
  {
    FirstAfter(rows, idColumn, x, y.rowId);
    FirstOutside(rows, idColumn, y, x.rowId);
    if FirstWith(rows, idColumn, y.rowId).Some? {
      FirstHasId(rows, idColumn, y.rowId);
    }
    assert UpdateRows(UpdateRows(rows, idColumn, x), idColumn, y) == UpdateRows(UpdateRows(rows, idColumn, y), idColumn, x);
  }

  lemma RenamingsCommute(rows: seq<Row>, idColumn: string, x: Item, y: Item)
    requires x.column == y.column == idColumn && Effective(idColumn, x) && Effective(idColumn, y) && NoHandover(x, y)
    ensures ApplyRows(ApplyRows(rows, idColumn, x), idColumn, y) == ApplyRows(ApplyRows(rows, idColumn, y), idColumn, x)
  {
    if x.source != y.source {
      FirstOutside(rows, idColumn, x, y.rowId);
      FirstOutside(rows, idColumn, y, x.rowId);
      assert UpdateRows(UpdateRows(rows, idColumn, x), idColumn, y) == UpdateRows(UpdateRows(rows, idColumn, y), idColumn, x);
    }
  }

  lemma HarmoniousCommute(rows: seq<Row>, idColumn: string, x: Item, y: Item)
    requires x.table == y.table && Harmonious(idColumn, x, y)
    ensures ApplyRows(ApplyRows(rows, idColumn, x), idColumn, y) == ApplyRows(ApplyRows(rows, idColumn, y), idColumn, x)
  {
    if !Effective(idColumn, x) {
      IneffectiveDoesNothing(rows, idColumn, x);
      IneffectiveDoesNothing(ApplyRows(rows, idColumn, y), idColumn, x);
    } else if !Effective(idColumn, y) {
      IneffectiveDoesNothing(rows, idColumn, y);
      IneffectiveDoesNothing(ApplyRows(rows, idColumn, x), idColumn, y);
    } else if x.column == y.column == idColumn {
      RenamingsCommute(rows, idColumn, x, y);
    } else if x.column == idColumn {
      RenamingCommutes(rows, idColumn, y, x);
    } else if y.column == idColumn {
      RenamingCommutes(rows, idColumn, x, y);
    } else if SameCell(x, y) {
      SameCellCommute(rows, idColumn, x, y);
    } else {
      RowsCommute(rows, idColumn, x, y);
    }
  }

  /** On one row an item rewrites what it hits. */
  lemma ApplyOne(row: Row, idColumn: string, x: Item)
    ensures ApplyRows([row], idColumn, x) == [Rewrite(row, idColumn, x)]
  {
    assert FirstWith([row], idColumn, x.rowId) == if HasId(row, idColumn, x.rowId) then Some(row) else None by {
      assert [row][1..] == [];
    }
    assert UpdateRows([row], idColumn, x) == [Rewrite(row, idColumn, x)];
    assert Holds(row, x.column, x.destination) ==> Rewrite(row, idColumn, x) == row;
  }

  lemma ApplyTwoToOne(row: Row, idColumn: string, x: Item, y: Item)
    ensures ApplyRows(ApplyRows([row], idColumn, x), idColumn, y) == [Rewrite(Rewrite(row, idColumn, x), idColumn, y)]
  {
    ApplyOne(row, idColumn, x);
    ApplyOne(Rewrite(row, idColumn, x), idColumn, y);
  }

  /** A row on which items that are not harmonious give different results in different orders. */
  function Discord(idColumn: string, x: Item, y: Item): Row {
    var start := if x.destination == y.source then x.source else y.source;
    if x.column != idColumn && y.column != idColumn then map[x.column := Some(start), idColumn := Some(x.rowId)]
    else if x.column != idColumn then map[x.column := Some(x.source), idColumn := Some(y.rowId)]
    else if y.column != idColumn then map[y.column := Some(y.source), idColumn := Some(x.rowId)]
    else map[idColumn := Some(start)]
  }

  lemma DiscordantDiffer(idColumn: string, x: Item, y: Item)
    requires x.table == y.table && !Harmonious(idColumn, x, y)
    ensures var rows := [Discord(idColumn, x, y)];
            ApplyRows(ApplyRows(rows, idColumn, x), idColumn, y) != ApplyRows(ApplyRows(rows, idColumn, y), idColumn, x)
  {
    var row := Discord(idColumn, x, y);
    var column := if x.column != idColumn then x.column else y.column;
    ApplyTwoToOne(row, idColumn, x, y);
    ApplyTwoToOne(row, idColumn, y, x);
    var xy, yx := Rewrite(Rewrite(row, idColumn, x), idColumn, y), Rewrite(Rewrite(row, idColumn, y), idColumn, x);
    assert xy[column] != yx[column];
    assert xy != yx;
  }

  /** Compatible items commute. */
  lemma ApplyCommutes(db: Database, targets: Targets, items: set<Item>, x: Item, y: Item)
    requires Compatible(targets, items) && x in items && y in items
    ensures Apply(Apply(db, targets, x), targets, y) == Apply(Apply(db, targets, y), targets, x)
  {
    if Ready(db, targets, x) && Ready(db, targets, y) && x != y {
      if x.table == y.table {
        HarmoniousCommute(db[x.table], targets[x.table], x, y);
      }
    }
  }

  /** A repeated item is absorbed. */
  lemma ApplyAgain(db: Database, targets: Targets, x: Item)
    ensures Apply(Apply(db, targets, x), targets, x) == Apply(db, targets, x)
  {
    if Ready(db, targets, x) {
      ApplyTwice(db[x.table], targets[x.table], x);
    }
  }

  ghost predicate Among(xs: seq<Item>, items: set<Item>) {
    forall i :: 0 <= i < |xs| ==> xs[i] in items
  }

  /** An item that has been applied somewhere in a run does nothing at its end. */
  lemma {:induction false} Absorbed(db: Database, targets: Targets, items: set<Item>, xs: seq<Item>, x: Item)
    requires Compatible(targets, items) && Among(xs, items) && x in xs
    ensures Apply(ApplyAll(db, targets, xs), targets, x) == ApplyAll(db, targets, xs)
  {
    var before, last := xs[..|xs| - 1], xs[|xs| - 1];
    var half := ApplyAll(db, targets, before);
    assert last in items;
    if x == last {
      ApplyAgain(half, targets, x);
    } else {
      assert x in before;
      Absorbed(db, targets, items, before, x);
      ApplyCommutes(half, targets, items, last, x);
    }
  }

  lemma {:induction false} ApplyAllConcat(db: Database, targets: Targets, xs: seq<Item>, ys: seq<Item>)
    ensures ApplyAll(db, targets, xs + ys) == ApplyAll(ApplyAll(db, targets, xs), targets, ys)
  {
    if ys == [] {
      assert xs + ys == xs;
    } else {
      var before := ys[..|ys| - 1];
      ApplyAllConcat(db, targets, xs, before);
      assert (xs + ys)[..|xs + ys| - 1] == xs + before;
    }
  }

  lemma {:induction false} AllAbsorbed(db: Database, targets: Targets, items: set<Item>, xs: seq<Item>, ys: seq<Item>)
    requires Compatible(targets, items) && Among(xs, items) && forall y | y in ys :: y in xs
    ensures ApplyAll(ApplyAll(db, targets, xs), targets, ys) == ApplyAll(db, targets, xs)
  {
    if ys != [] {
      AllAbsorbed(db, targets, items, xs, ys[..|ys| - 1]);
      Absorbed(db, targets, items, xs, ys[|ys| - 1]);
    }
  }

  /** One item moves past a run. */
  lemma {:induction false} MovePast(db: Database, targets: Targets, items: set<Item>, xs: seq<Item>, y: Item)
    requires Compatible(targets, items) && Among(xs, items) && y in items
    ensures Apply(ApplyAll(db, targets, xs), targets, y) == ApplyAll(Apply(db, targets, y), targets, xs)
  {
    if xs != [] {
      var before := xs[..|xs| - 1];
      MovePast(db, targets, items, before, y);
      ApplyCommutes(ApplyAll(db, targets, before), targets, items, xs[|xs| - 1], y);
    }
  }

  lemma {:induction false} RunsCommute(db: Database, targets: Targets, items: set<Item>, xs: seq<Item>, ys: seq<Item>)
    requires Compatible(targets, items) && Among(xs, items) && Among(ys, items)
    ensures ApplyAll(ApplyAll(db, targets, xs), targets, ys) == ApplyAll(ApplyAll(db, targets, ys), targets, xs)
  {
    if ys != [] {
      var before, last := ys[..|ys| - 1], ys[|ys| - 1];
      RunsCommute(db, targets, items, xs, before);
      MovePast(ApplyAll(db, targets, before), targets, items, xs, last);
    }
  }

  /** Only the set of items matters, not their order or how often they are applied. */
  lemma SameItemsSameResult(db: Database, targets: Targets, items: set<Item>, xs: seq<Item>, ys: seq<Item>)
    requires Compatible(targets, items) && Among(xs, items) && Among(ys, items)
    requires forall x :: x in xs <==> x in ys
    ensures ApplyAll(db, targets, xs) == ApplyAll(db, targets, ys)
  {
    AllAbsorbed(db, targets, items, xs, ys);
    AllAbsorbed(db, targets, items, ys, xs);
    RunsCommute(db, targets, items, xs, ys);
  }

  function ToSet(xs: seq<Item>): set<Item> {
    set x | x in xs
  }

  /** Two lists name the same items, among the given ones. */
  ghost predicate SameItems(items: set<Item>, xs: seq<Item>, ys: seq<Item>) {
    Among(xs, items) && Among(ys, items) && forall x :: x in xs <==> x in ys
  }

  ghost predicate Agree(db: Database, targets: Targets, xs: seq<Item>, ys: seq<Item>) {
    ApplyAll(db, targets, xs) == ApplyAll(db, targets, ys)
  }

  /** Two items that are not harmonious show it. */
  lemma OrderMatters(targets: Targets, items: set<Item>, x: Item, y: Item)
    requires x in items && y in items && x.table == y.table && x.table in targets && !Harmonious(targets[x.table], x, y)
    ensures SameItems(items, [x, y], [y, x])
    ensures !Agree(map[x.table := [Discord(targets[x.table], x, y)]], targets, [x, y], [y, x])
  {
    var k, rows := targets[x.table], [Discord(targets[x.table], x, y)];
    var db: Database := map[x.table := rows];
    DiscordantDiffer(k, x, y);
    TwoItems(db, targets, x, y);
    TwoItems(db, targets, y, x);
    assert Apply(Apply(db, targets, x), targets, y)[x.table] == ApplyRows(ApplyRows(rows, k, x), k, y);
    assert Apply(Apply(db, targets, y), targets, x)[x.table] == ApplyRows(ApplyRows(rows, k, y), k, x);
    assert Among([x, y], items) && Among([y, x], items);
  }

  /** Order and repetition are irrelevant, on every database, if and only if the items are
      compatible: no two of them in one table get in each other's way. */
  lemma OrderIrrelevantExactly(targets: Targets, items: set<Item>)
    ensures (forall db, xs, ys :: SameItems(items, xs, ys) ==> Agree(db, targets, xs, ys)) <==> Compatible(targets, items)
  {
    if Compatible(targets, items) {
      forall db, xs, ys | SameItems(items, xs, ys)
        ensures Agree(db, targets, xs, ys)
      {
        SameItemsSameResult(db, targets, items, xs, ys);
      }
    } else {
      var x, y :| x in items && y in items && x.table == y.table && x.table in targets && !Harmonious(targets[x.table], x, y);
      OrderMatters(targets, items, x, y);
    }
  }

  lemma TwoItems(db: Database, targets: Targets, x: Item, y: Item)
    ensures ApplyAll(db, targets, [x, y]) == Apply(Apply(db, targets, x), targets, y)
  {
    assert [x, y][..1] == [x] && [x][..0] == [];
    assert ApplyAll(db, targets, [x]) == Apply(db, targets, x);
  }

  /** Resuming as the program offers it, for any items and any database: after a run that reached
      item `k`, whose outcome may not have been reported any more, resending everything from `k` on
      gives the database of one full run. */
  lemma ResumeInOrder(db: Database, targets: Targets, items: seq<Item>, k: nat)
    requires k < |items|
    ensures ApplyAll(ApplyAll(db, targets, items[..k + 1]), targets, items[k..]) == ApplyAll(db, targets, items)
    ensures ApplyAll(ApplyAll(db, targets, items[..k]), targets, items[k..]) == ApplyAll(db, targets, items)
  {
    var half, x, rest := ApplyAll(db, targets, items[..k]), items[k], items[k + 1..];
    assert items[..k + 1][..k] == items[..k] && items[k..] == [x] + rest && [x][..0] == [];
    ApplyAllConcat(Apply(half, targets, x), targets, [x], rest);
    ApplyAgain(half, targets, x);
    ApplyAllConcat(db, targets, items[..k + 1], rest);
    ApplyAllConcat(db, targets, items[..k], items[k..]);
    assert items[..k + 1] + rest == items && items[..k] + items[k..] == items;
  }

  /** Resuming with any list: after a run broke off, which may have applied an item it did not
      report, applying any list of the items that covers the unfinished ones, in any order, gives
      the database of one full run. */
  lemma ResumeEqualsFullRun(db: Database, targets: Targets, items: seq<Item>, applied: seq<Item>, resent: seq<Item>)
    requires Compatible(targets, ToSet(items))
    requires forall x | x in applied :: x in items
    requires forall x | x in resent :: x in items
    requires forall x | x in items :: x in applied || x in resent
    ensures ApplyAll(ApplyAll(db, targets, applied), targets, resent) == ApplyAll(db, targets, items)
  {
    ApplyAllConcat(db, targets, applied, resent);
    assert forall x :: x in applied + resent <==> x in applied || x in resent;
    SameItemsSameResult(db, targets, ToSet(items), applied + resent, items);
  }

  /** A second full run of compatible items changes nothing. */
  lemma SecondRunChangesNothing(db: Database, targets: Targets, items: seq<Item>)
    requires Compatible(targets, ToSet(items))
    ensures ApplyAll(ApplyAll(db, targets, items), targets, items) == ApplyAll(db, targets, items)
  {
    AllAbsorbed(db, targets, ToSet(items), items, items);
  }

  // ---------------------------------------------------------------- the tool among other writers

  class Store {
    var db: Database

    constructor (initial: Database)
      ensures db == initial
    {
      db := initial;
    }
  }

  /** What other writers do to the database between two statements of the tool. */
  type Others = (nat, Database) -> Database

  ghost predicate Nobody(others: Others) {
    forall n, db :: others(n, db) == db
  }

  ghost predicate HasTables(schema: Schema, db: Database) {
    forall t | t in schema :: t in db
  }

  /** They leave the tables in place. */
  ghost predicate KeepTables(schema: Schema, others: Others) {
    forall n, db :: HasTables(schema, db) ==> HasTables(schema, others(n, db))
  }

  /** Between two databases, cells have only gone from the item's source to its destination, in
      its column, in rows with its id. */
  ghost predicate Guarded(before: Database, after: Database, idColumn: string, item: Item) {
    && after.Keys == before.Keys
    && (forall t | t in before && t != item.table :: after[t] == before[t])
    && (item.table in before ==>
          && |after[item.table]| == |before[item.table]|
          && forall i :: 0 <= i < |before[item.table]| ==> RowGuarded(before[item.table][i], after[item.table][i], idColumn, item))
  }

  ghost predicate RowGuarded(before: Row, after: Row, idColumn: string, item: Item) {
    after == before ||
    (HasId(before, idColumn, item.rowId) && Holds(before, item.column, item.source) && after == before[item.column := Some(item.destination)])
  }

  /** At most one row has the id. */
  ghost predicate UniqueId(rows: seq<Row>, idColumn: string, rowId: string) {
    forall i, j :: 0 <= i < j < |rows| ==> !(HasId(rows[i], idColumn, rowId) && HasId(rows[j], idColumn, rowId))
  }

  lemma {:induction false} HitsNone(rows: seq<Row>, idColumn: string, item: Item)
    ensures Hits(rows, idColumn, item) == 0 <==> forall i :: 0 <= i < |rows| ==> !Hit(rows[i], idColumn, item)
  {
    if rows != [] {
      HitsNone(rows[..|rows| - 1], idColumn, item);
      assert forall i :: 0 <= i < |rows| - 1 ==> rows[..|rows| - 1][i] == rows[i];
    }
  }

  lemma {:induction false} UniqueHitsOnce(rows: seq<Row>, idColumn: string, item: Item)
    requires UniqueId(rows, idColumn, item.rowId)
    ensures Hits(rows, idColumn, item) <= 1
  {
    if rows != [] {
      var before := rows[..|rows| - 1];
      UniqueHitsOnce(before, idColumn, item);
      HitsNone(before, idColumn, item);
    }
  }

  /** The UPDATE writes something if and only if it hits a row. */
  lemma UpdateWrites(rows: seq<Row>, idColumn: string, item: Item)
    requires item.source != item.destination
    ensures UpdateRows(rows, idColumn, item) == rows <==> Hits(rows, idColumn, item) == 0
  {
  }

  // ---------------------------------------------------------------- what an outcome says

  /** The row that a SELECT by id fetches. */
  ghost predicate IsFirst(rows: seq<Row>, idColumn: string, rowId: string, i: nat) {
    i < |rows| && HasId(rows[i], idColumn, rowId) && forall j :: 0 <= j < i ==> !HasId(rows[j], idColumn, rowId)
  }

  ghost predicate NoRow(rows: seq<Row>, idColumn: string, rowId: string) {
    forall i :: 0 <= i < |rows| ==> !HasId(rows[i], idColumn, rowId)
  }

  /** The first row with the item's id holds the value. */
  ghost predicate FirstHolds(rows: seq<Row>, idColumn: string, item: Item, value: string) {
    exists i: nat :: IsFirst(rows, idColumn, item.rowId, i) && Holds(rows[i], item.column, value)
  }

  ghost predicate AtSource(rows: seq<Row>, idColumn: string, item: Item, i: int) {
    0 <= i < |rows| && HasId(rows[i], idColumn, item.rowId) && Holds(rows[i], item.column, item.source)
  }

  /** Exactly one row of the id is at the source. */
  ghost predicate OneAtSource(rows: seq<Row>, idColumn: string, item: Item) {
    exists i :: AtSource(rows, idColumn, item, i) && forall j :: AtSource(rows, idColumn, item, j) ==> j == i
  }

  /** Every row of the id that is at the source goes to the destination, and nothing else changes. */
  ghost predicate Written(before: seq<Row>, after: seq<Row>, idColumn: string, item: Item) {
    && |after| == |before|
    && forall i :: 0 <= i < |before| ==>
         after[i] == if AtSource(before, idColumn, item, i) then before[i][item.column := Some(item.destination)] else before[i]
  }

  /** The outcome of one item, whose row was selected in `seen` and whose table went from `before` to
      `after`: missing if and only if no row has the id; already updated if and only if the first row with
      the id holds the destination; if it holds neither path, a conflict without a write; if it holds the
      source, all rows of the id at the source are written, and it is called updated if that was one. */
  ghost predicate OutcomeRight(seen: seq<Row>, before: seq<Row>, after: seq<Row>, idColumn: string, item: Item, outcome: Outcome) {
    && (outcome == Missing <==> NoRow(seen, idColumn, item.rowId))
    && (outcome == AlreadyUpdated <==> FirstHolds(seen, idColumn, item, item.destination))
    && (if FirstHolds(seen, idColumn, item, item.source) && !FirstHolds(seen, idColumn, item, item.destination)
        then Written(before, after, idColumn, item) && (outcome == Updated <==> OneAtSource(before, idColumn, item))
        else after == before && outcome != Updated)
  }

  lemma {:induction false} FirstAt(rows: seq<Row>, idColumn: string, rowId: string) returns (i: nat)
    requires FirstWith(rows, idColumn, rowId).Some?
    ensures IsFirst(rows, idColumn, rowId, i) && FirstWith(rows, idColumn, rowId).value == rows[i]
  {
    if HasId(rows[0], idColumn, rowId) {
      i := 0;
    } else {
      var j := FirstAt(rows[1..], idColumn, rowId);
      i := j + 1;
      assert forall k :: 1 <= k < i ==> rows[k] == rows[1..][k - 1];
    }
  }

  /** The decision, by the first row with the id. */
  lemma JudgeMeans(rows: seq<Row>, idColumn: string, item: Item)
    ensures var judged := Judge(FirstWith(rows, idColumn, item.rowId), item);
            && (judged == Some(Missing) <==> NoRow(rows, idColumn, item.rowId))
            && (judged == Some(AlreadyUpdated) <==> FirstHolds(rows, idColumn, item, item.destination))
            && (judged == None
                <==> FirstHolds(rows, idColumn, item, item.source) && !FirstHolds(rows, idColumn, item, item.destination))
            && judged != Some(Updated)
  {
    FirstNone(rows, idColumn, item.rowId);
    if FirstWith(rows, idColumn, item.rowId).Some? {
      var i := FirstAt(rows, idColumn, item.rowId);
      assert forall j: nat :: IsFirst(rows, idColumn, item.rowId, j) ==> j == i;
    }
  }

  lemma AtSourceFront(rows: seq<Row>, idColumn: string, item: Item, i: int)
    requires rows != []
    ensures AtSource(rows[..|rows| - 1], idColumn, item, i) <==> AtSource(rows, idColumn, item, i) && i != |rows| - 1
  {
  }

  lemma {:induction false} HitsOne(rows: seq<Row>, idColumn: string, item: Item)
    ensures Hits(rows, idColumn, item) == 0 <==> forall i :: !AtSource(rows, idColumn, item, i)
    ensures Hits(rows, idColumn, item) == 1 <==> OneAtSource(rows, idColumn, item)
  {
    if rows != [] {
      var front, last := rows[..|rows| - 1], |rows| - 1;
      HitsOne(front, idColumn, item);
      forall i
        ensures AtSource(front, idColumn, item, i) <==> AtSource(rows, idColumn, item, i) && i != last
      {
        AtSourceFront(rows, idColumn, item, i);
      }
      if Hit(rows[last], idColumn, item) {
        assert AtSource(rows, idColumn, item, last);
      } else {
        assert forall i :: AtSource(front, idColumn, item, i) <==> AtSource(rows, idColumn, item, i);
      }
    }
  }

  lemma UpdateIsWritten(rows: seq<Row>, idColumn: string, item: Item)
    ensures Written(rows, UpdateRows(rows, idColumn, item), idColumn, item)
  {
  }

  lemma UpdateIsGuarded(db: Database, idColumn: string, item: Item)
    requires item.table in db
    ensures Guarded(db, db[item.table := UpdateRows(db[item.table], idColumn, item)], idColumn, item)
  {
  }

  lemma NoWriteMeans(rows: seq<Row>, idColumn: string, item: Item)
    requires Judge(FirstWith(rows, idColumn, item.rowId), item).Some?
    ensures OutcomeRight(rows, rows, rows, idColumn, item, Judge(FirstWith(rows, idColumn, item.rowId), item).value)
  {
    JudgeMeans(rows, idColumn, item);
  }

  lemma WriteMeans(seen: seq<Row>, rows: seq<Row>, idColumn: string, item: Item)
    requires Judge(FirstWith(seen, idColumn, item.rowId), item).None?
    ensures var outcome := if Hits(rows, idColumn, item) == 1 then Updated else Conflict;
            OutcomeRight(seen, rows, UpdateRows(rows, idColumn, item), idColumn, item, outcome)
    ensures UpdateRows(rows, idColumn, item) == rows <==> Hits(rows, idColumn, item) == 0
    ensures UniqueId(rows, idColumn, item.rowId) ==> Hits(rows, idColumn, item) <= 1
  {
    JudgeMeans(seen, idColumn, item);
    UpdateIsWritten(rows, idColumn, item);
    UpdateWrites(rows, idColumn, item);
    HitsOne(rows, idColumn, item);
    if UniqueId(rows, idColumn, item.rowId) {
      UniqueHitsOnce(rows, idColumn, item);
    }
  }

  /** What one item saw, wrote and reported.  A write takes cells only from source to destination; the
      outcome is "updated" if and only if exactly one row was written; a conflict has written if and only if
      the id named several such rows. */
  ghost predicate Accounted(seen: Database, before: Database, after: Database, idColumn: string, item: Item, outcome: Outcome) {
    && item.table in seen && item.table in before && Guarded(before, after, idColumn, item)
    && OutcomeRight(seen[item.table], before[item.table], after[item.table], idColumn, item, outcome)
    && (outcome == Updated <==> after != before && Hits(before[item.table], idColumn, item) == 1)
    && (outcome == AlreadyUpdated || outcome == Missing ==> after == before)
    && (outcome == Conflict && after != before ==> Hits(before[item.table], idColumn, item) >= 2)
    && (UniqueId(before[item.table], idColumn, item.rowId) ==> (outcome == Updated <==> after != before))
  }

  lemma AccountedUnwritten(db: Database, idColumn: string, item: Item)
    requires item.table in db && Judge(FirstWith(db[item.table], idColumn, item.rowId), item).Some?
    ensures var judged := Judge(FirstWith(db[item.table], idColumn, item.rowId), item);
            Accounted(db, db, db, idColumn, item, judged.value)
  {
    NoWriteMeans(db[item.table], idColumn, item);
    JudgeMeans(db[item.table], idColumn, item);
  }

  lemma AccountedWritten(seen: Database, before: Database, idColumn: string, item: Item)
    requires item.table in seen && item.table in before
    requires Judge(FirstWith(seen[item.table], idColumn, item.rowId), item).None?
    ensures var rows := before[item.table];
            var outcome := if Hits(rows, idColumn, item) == 1 then Updated else Conflict;
            Accounted(seen, before, before[item.table := UpdateRows(rows, idColumn, item)], idColumn, item, outcome)
  {
    var rows := before[item.table];
    var after := before[item.table := UpdateRows(rows, idColumn, item)];
    UpdateIsGuarded(before, idColumn, item);
    WriteMeans(seen[item.table], rows, idColumn, item);
    assert after == before <==> after[item.table] == rows;
  }

  /** One item: select, judge, update, with other writers before each statement. */
  method UpdateItem(store: Store, schema: Schema, idColumn: string, item: Item, others: Others, n: nat)
    returns (outcome: Outcome, ghost seen: Database, ghost before: Database)
    requires KeepTables(schema, others) && item.table in schema && HasTables(schema, store.db)
    modifies store
    ensures HasTables(schema, store.db) && Accounted(seen, before, store.db, idColumn, item, outcome)
    ensures Nobody(others) ==> seen == old(store.db) && before == old(store.db)
  {
    store.db := others(2 * n, store.db);
    seen := store.db;
    var selected := FirstWith(store.db[item.table], idColumn, item.rowId);
    var judged := Judge(selected, item);
    if judged.Some? {
      before := store.db;
      AccountedUnwritten(seen, idColumn, item);
      return judged.value, seen, before;
    }
    store.db := others(2 * n + 1, store.db);
    before := store.db;
    AccountedWritten(seen, before, idColumn, item);
    var rowCount := Hits(store.db[item.table], idColumn, item);
    store.db := store.db[item.table := UpdateRows(store.db[item.table], idColumn, item)];
    outcome := if rowCount == 1 then Updated else Conflict;
  }

  /** What is reported for an item when nobody else writes. */
  function Reported(rows: seq<Row>, idColumn: string, item: Item): Outcome {
    var judged := Judge(FirstWith(rows, idColumn, item.rowId), item);
    if judged.Some? then judged.value
    else if Hits(rows, idColumn, item) == 1 then Updated
    else Conflict
  }

  lemma AloneRows(rows: seq<Row>, after: seq<Row>, idColumn: string, item: Item, outcome: Outcome)
    requires OutcomeRight(rows, rows, after, idColumn, item, outcome)
    ensures after == ApplyRows(rows, idColumn, item)
  {
    JudgeMeans(rows, idColumn, item);
    if Judge(FirstWith(rows, idColumn, item.rowId), item).None? {
      assert after == UpdateRows(rows, idColumn, item);
    }
  }

  lemma AloneSays(rows: seq<Row>, after: seq<Row>, idColumn: string, item: Item, outcome: Outcome)
    requires OutcomeRight(rows, rows, after, idColumn, item, outcome)
    ensures outcome == Reported(rows, idColumn, item)
  {
    JudgeMeans(rows, idColumn, item);
    HitsOne(rows, idColumn, item);
  }

  lemma OnlyTable(db: Database, after: Database, table: string)
    requires table in db && after.Keys == db.Keys && forall t | t in db && t != table :: after[t] == db[t]
    ensures after == db[table := after[table]]
  {
  }

  /** An item's account with nobody else around determines what it did and said. */
  lemma AccountedAlone(db: Database, after: Database, idColumn: string, item: Item, outcome: Outcome)
    requires Accounted(db, db, after, idColumn, item, outcome)
    ensures after == db[item.table := ApplyRows(db[item.table], idColumn, item)]
    ensures outcome == Reported(db[item.table], idColumn, item)
  {
    AloneRows(db[item.table], after[item.table], idColumn, item, outcome);
    AloneSays(db[item.table], after[item.table], idColumn, item, outcome);
    OnlyTable(db, after, item.table);
  }

  /** Rows that share a fallback id: the rows are written, yet the item is reported as a conflict,
      if and only if the first row with the id is still at the source and another one is, too. */
  lemma ConflictHasWritten(rows: seq<Row>, idColumn: string, item: Item)
    requires item.source != item.destination
    ensures Reported(rows, idColumn, item) == Conflict && ApplyRows(rows, idColumn, item) != rows
       <==> Judge(FirstWith(rows, idColumn, item.rowId), item).None? && Hits(rows, idColumn, item) >= 2
  {
    UpdateWrites(rows, idColumn, item);
    if Judge(FirstWith(rows, idColumn, item.rowId), item).None? {
      FirstIsHit(rows, idColumn, item);
    }
  }

  lemma {:induction false} FirstIsHit(rows: seq<Row>, idColumn: string, item: Item)
    requires Judge(FirstWith(rows, idColumn, item.rowId), item).None?
    ensures Hits(rows, idColumn, item) >= 1
  {
    HitsNone(rows, idColumn, item);
    FirstHasId(rows, idColumn, item.rowId);
    FirstAmong(rows, idColumn, item.rowId);
  }

  lemma {:induction false} FirstAmong(rows: seq<Row>, idColumn: string, rowId: string)
    requires FirstWith(rows, idColumn, rowId).Some?
    ensures FirstWith(rows, idColumn, rowId).value in rows
  {
    if !HasId(rows[0], idColumn, rowId) {
      FirstAmong(rows[1..], idColumn, rowId);
    }
  }

  /** Two rows with one fallback id: both are repointed and the report says "conflict". */
  lemma SharedIdExample()
    ensures var row: Row := map["id" := Some("7"), "url" := Some("old")];
            var item := Item("t", "url", "7", "old", "new");
            Reported([row, row], "id", item) == Conflict && ApplyRows([row, row], "id", item) != [row, row]
  {
  }

  function Tally(outcomes: seq<Outcome>, total: nat): Counts {
    Counts(multiset(outcomes)[Updated], multiset(outcomes)[AlreadyUpdated], multiset(outcomes)[Conflict],
           multiset(outcomes)[Missing], total)
  }

  function CountOne(c: Counts, o: Outcome): Counts {
    match o
    case Updated => c.(updated := c.updated + 1)
    case AlreadyUpdated => c.(alreadyUpdated := c.alreadyUpdated + 1)
    case Conflict => c.(conflict := c.conflict + 1)
    case Missing => c.(missing := c.missing + 1)
  }

  lemma TallyNext(outcomes: seq<Outcome>, o: Outcome, total: nat)
    ensures Tally(outcomes + [o], total) == CountOne(Tally(outcomes, total), o)
  {
  }

  lemma {:induction false} TallyAddsUp(outcomes: seq<Outcome>, total: nat)
    ensures var c := Tally(outcomes, total); c.updated + c.alreadyUpdated + c.conflict + c.missing == |outcomes|
  {
    if outcomes != [] {
      var before, last := outcomes[..|outcomes| - 1], outcomes[|outcomes| - 1];
      TallyAddsUp(before, total);
      TallyNext(before, last, total);
      assert outcomes == before + [last];
    }
  }

  /** The database an item's row was selected from, the one right before the tool's decision to write, the
      one right after, and what it reported. */
  datatype Step = Step(seen: Database, before: Database, after: Database, outcome: Outcome)

  ghost predicate StepRight(schema: Schema, targets: Targets, item: Item, step: Step) {
    && item.table in targets && item.table in schema && IdColumn(schema[item.table]) == Some(targets[item.table])
    && Accounted(step.seen, step.before, step.after, targets[item.table], item, step.outcome)
  }

  lemma ApplyNext(db: Database, targets: Targets, items: seq<Item>, k: nat)
    requires k < |items|
    ensures ApplyAll(db, targets, items[..k + 1]) == Apply(ApplyAll(db, targets, items[..k]), targets, items[k])
  {
    assert items[..k + 1][..k] == items[..k];
  }

  method Advance(store: Store, schema: Schema, targets: Targets, item: Item, others: Others, k: nat)
    returns (outcome: Outcome, ghost step: Step)
    requires KeepTables(schema, others) && HasTables(schema, store.db)
    requires item.table in schema && item.table in targets && IdColumn(schema[item.table]) == Some(targets[item.table])
    modifies store
    ensures HasTables(schema, store.db)
    ensures step.outcome == outcome && StepRight(schema, targets, item, step)
    ensures Nobody(others) ==> store.db == Apply(old(store.db), targets, item)
    ensures Nobody(others) ==> step.seen == old(store.db) && step.before == old(store.db)
    ensures step.after == store.db
  {
    ghost var seen, before;
    outcome, seen, before := UpdateItem(store, schema, targets[item.table], item, others, k);
    step := Step(seen, before, store.db, outcome);
    if Nobody(others) {
      AccountedAlone(seen, store.db, targets[item.table], item, outcome);
    }
  }

  /** Every item starts from what the one before it left, and nobody writes in between. */
  ghost predicate Chained(steps: seq<Step>, start: Database, end: Database) {
    && (steps == [] ==> end == start)
    && (steps != [] ==> steps[0].seen == start && steps[|steps| - 1].after == end)
    && (forall k :: 0 <= k < |steps| ==> steps[k].before == steps[k].seen)
    && forall k :: 1 <= k < |steps| ==> steps[k].seen == steps[k - 1].after
  }

  ghost predicate Resolved(schema: Schema, targets: Targets, items: seq<Item>) {
    forall i :: 0 <= i < |items| ==>
      items[i].table in schema && items[i].table in targets && IdColumn(schema[items[i].table]) == Some(targets[items[i].table])
  }

  ghost predicate StepsRight(schema: Schema, targets: Targets, items: seq<Item>, outcomes: seq<Outcome>, steps: seq<Step>) {
    && |outcomes| == |steps| <= |items|
    && forall k :: 0 <= k < |steps| ==> steps[k].outcome == outcomes[k] && StepRight(schema, targets, items[k], steps[k])
  }

  method WriteAll(store: Store, schema: Schema, targets: Targets, items: seq<Item>, others: Others, reached: nat)
    returns (counts: Counts, outcomes: seq<Outcome>, ghost steps: seq<Step>)
    requires KeepTables(schema, others) && HasTables(schema, store.db)
    requires Resolved(schema, targets, items) && reached <= |items|
    modifies store
    ensures |outcomes| == reached && counts == Tally(outcomes, |items|) && StepsRight(schema, targets, items, outcomes, steps)
    ensures Nobody(others) ==> store.db == ApplyAll(old(store.db), targets, items[..reached])
    ensures Nobody(others) ==> Chained(steps, old(store.db), store.db)
  {
    outcomes, steps := [], [];
    counts := Counts(0, 0, 0, 0, |items|);
    ghost var alone := Nobody(others);
    for k := 0 to reached
      invariant |outcomes| == k && StepsRight(schema, targets, items, outcomes, steps)
      invariant HasTables(schema, store.db)
      invariant counts == Tally(outcomes, |items|)
      invariant alone ==> AloneSoFar(targets, items, steps, old(store.db), store.db)
    {
      ghost var step: Step;
      ghost var before := store.db;
      var outcome;
      outcome, step := Advance(store, schema, targets, items[k], others, k);
      TallyNext(outcomes, outcome, |items|);
      StepsNext(schema, targets, items, outcomes, steps, step);
      if alone {
        AloneNext(targets, items, steps, step, old(store.db), before);
      }
      outcomes, steps, counts := outcomes + [outcome], steps + [step], CountOne(counts, outcome);
    }
  }

  /** What the items reached so far have done to a database that nobody else writes. */
  ghost predicate AloneSoFar(targets: Targets, items: seq<Item>, steps: seq<Step>, start: Database, now: Database) {
    |steps| <= |items| && now == ApplyAll(start, targets, items[..|steps|]) && Chained(steps, start, now)
  }

  lemma AloneNext(targets: Targets, items: seq<Item>, steps: seq<Step>, step: Step, start: Database, now: Database)
    requires AloneSoFar(targets, items, steps, start, now) && |steps| < |items|
    requires step.seen == now && step.before == now && step.after == Apply(now, targets, items[|steps|])
    ensures AloneSoFar(targets, items, steps + [step], start, step.after)
  {
    ApplyNext(start, targets, items, |steps|);
    ChainNext(steps, start, step);
  }

  lemma ChainNext(steps: seq<Step>, start: Database, step: Step)
    requires Chained(steps, start, step.seen) && step.before == step.seen
    ensures Chained(steps + [step], start, step.after)
  {
  }

  lemma StepsNext(schema: Schema, targets: Targets, items: seq<Item>, outcomes: seq<Outcome>, steps: seq<Step>, step: Step)
    requires StepsRight(schema, targets, items, outcomes, steps)
    requires |steps| < |items| && StepRight(schema, targets, items[|steps|], step)
    ensures StepsRight(schema, targets, items, outcomes + [step.outcome], steps + [step])
  {
  }

  /** The whole tool.  Nothing is written unless every item is valid; then every outcome says what its
      item met and wrote, the counts tell the outcomes, and without other writers the result is that of the items it
      reached before it was interrupted (all of them, if it was not). */
  method UpdateMigratedUrls(store: Store, schema: Schema, database: string, items: seq<Item>, others: Others, reached: nat)
    returns (counts: Option<Counts>, outcomes: seq<Outcome>, targets: Targets, ghost steps: seq<Step>)
    requires KeepTables(schema, others) && HasTables(schema, store.db)
    requires reached <= |items|
    modifies store
    ensures counts.None? <==> !ValidIdentifier(database) || exists i :: 0 <= i < |items| && !ValidItem(schema, items[i])
    ensures counts.None? ==> store.db == old(store.db)
    ensures counts.Some? ==>
      && |outcomes| == reached && counts.value == Tally(outcomes, |items|)
      && Resolved(schema, targets, items) && StepsRight(schema, targets, items, outcomes, steps)
      && (Nobody(others) ==> store.db == ApplyAll(old(store.db), targets, items[..reached]))
      && (Nobody(others) ==> Chained(steps, old(store.db), store.db))
  {
    outcomes, targets, steps := [], map[], [];
    var resolved := Resolve(schema, database, items);
    if resolved.None? {
      return None, outcomes, targets, steps;
    }
    targets := resolved.value;
    assert forall i :: 0 <= i < |items| ==> ValidItem(schema, items[i]) && items[i].table in schema;
    var c;
    c, outcomes, steps := WriteAll(store, schema, targets, items, others, reached);
    counts := Some(c);
  }

  // ---------------------------------------------------------------- where replay is not safe

  /** Two items for one cell: after x -> y has followed y -> z, a second run goes on to z. */
  lemma ChainedItemsReplay()
    ensures var row: Row := map["id" := Some("7"), "url" := Some("x")];
            var first, second := Item("t", "url", "7", "y", "z"), Item("t", "url", "7", "x", "y");
            ApplyRows(ApplyRows([row], "id", first), "id", second) == [row["url" := Some("y")]]
    ensures var row: Row := map["id" := Some("7"), "url" := Some("y")];
            ApplyRows([row], "id", Item("t", "url", "7", "y", "z")) == [row["url" := Some("z")]]
  {
  }

  /** An item for the id column itself: a row that was missing in the first run is found in the
      second. */
  lemma IdItemsReplay()
    ensures var row: Row := map["id" := Some("1"), "url" := Some("x")];
            var first, second := Item("t", "url", "2", "x", "y"), Item("t", "id", "1", "1", "2");
            ApplyRows(ApplyRows([row], "id", first), "id", second) == [row["id" := Some("2")]]
    ensures var row: Row := map["id" := Some("2"), "url" := Some("x")];
            ApplyRows([row], "id", Item("t", "url", "2", "x", "y")) == [row["url" := Some("y")]]
  {
  }
}
