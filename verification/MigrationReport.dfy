/** The sheet of a migration report: written after a copy run, read before deleting or repointing. */
module MigrationReport {
  import opened Basics
  import opened PyStrings

  /** A cell as it is read: no value, a text, or a number with its printed form. */
  datatype Cell = Blank | Text(text: string) | Number(value: int, printed: string)

  type Sheet = seq<seq<Cell>>

  /** Python's truth of a cell value. */
  predicate Truthy(c: Cell) {
    match c
    case Blank => false
    case Text(t) => t != ""
    case Number(v, _) => v != 0
  }

  /** `str(value)`. */
  function Shown(c: Cell): string {
    match c
    case Blank => "None"
    case Text(t) => t
    case Number(_, p) => p
  }

  /** `str(value or "")`. */
  function ShownOrEmpty(c: Cell): string {
    if Truthy(c) then Shown(c) else ""
  }

  function Normal(s: string): string {
    Lower(Trim(s))
  }

  predicate Named(c: Cell, name: string) {
    c != Blank && Normal(Shown(c)) == name
  }

  /** The column of a name: the last one, where a name is repeated. */
  function ColumnOf(header: seq<Cell>, name: string): Option<nat> {
    if header == [] then None
    else if Named(header[|header| - 1], name) then Some(|header| - 1)
    else ColumnOf(header[..|header| - 1], name)
  }

  /** A row's value in a named column; rows may be shorter than the header. */
  function ValueAt(row: seq<Cell>, column: Option<nat>): Cell {
    if column.Some? && column.value < |row| then row[column.value] else Blank
  }

  function Value(header: seq<Cell>, row: seq<Cell>, name: string): Cell {
    ValueAt(row, ColumnOf(header, name))
  }

  predicate BlankRow(row: seq<Cell>) {
    forall i :: 0 <= i < |row| ==> row[i] == Blank
  }

  /** The dictionary from normalised header names to columns. */
  method IndexColumns(header: seq<Cell>) returns (columns: map<string, nat>)
    ensures Indexed(header, columns)
  {
    columns := map[];
    for i := 0 to |header|
      invariant forall name :: (if name in columns then Some(columns[name]) else None) == ColumnOf(header[..i], name)
    {
      assert header[..i + 1][..i] == header[..i];
      if header[i] != Blank {
        columns := columns[Normal(Shown(header[i])) := i];
      }
    }
    assert header[..|header|] == header;
  }

  // ---------------------------------------------------------------- reading for deletion

  datatype Deletion = Deletion(bucket: Cell, key: Cell, url: Cell, sizeMb: Cell, status: string)

  datatype Reason = Given(error: Cell) | NotMigrated | Lacks(columns: seq<string>)

  datatype Exclusion = Exclusion(bucket: Cell, key: Cell, url: Cell, status: string, reason: Reason)

  datatype Stats = Stats(total: nat, eligible: nat, copied: nat, skipped: nat, failed: nat, incomplete: nat)

  datatype Verdict = Ignored | Eligible(item: Deletion) | Failed(why: Exclusion) | Incomplete(why: Exclusion)

  /** The fields of one row that the reader looks at. */
  datatype Fields = Fields(blank: bool, status: Cell, bucket: Cell, key: Cell, url: Cell, sizeMb: Cell, error: Cell)

  function FieldsOf(header: seq<Cell>, row: seq<Cell>): Fields {
    Fields(BlankRow(row), Value(header, row, "status"), Value(header, row, "bucket"), Value(header, row, "key"),
           Value(header, row, "destination url"), Value(header, row, "size (mb)"), Value(header, row, "error"))
  }

  function Capitalized(status: string): string {
    if status == "copied" then "Copied" else "Skipped"
  }

  function MissingLabels(f: Fields): seq<string> {
    (if Truthy(f.bucket) then [] else ["Bucket"]) +
    (if Truthy(f.key) then [] else ["Key"]) +
    (if Truthy(f.url) then [] else ["Destination URL"])
  }

  /** What a row means: only a copied or skipped object that is fully named may be deleted. */
  function Judge(f: Fields): Verdict {
    var status := Normal(ShownOrEmpty(f.status));
    if f.blank then Ignored
    else if status != "copied" && status != "skipped" then
      Failed(Exclusion(f.bucket, f.key, f.url, ShownOrEmpty(f.status), if Truthy(f.error) then Given(f.error) else NotMigrated))
    else if !Truthy(f.bucket) || !Truthy(f.key) || !Truthy(f.url) then
      Incomplete(Exclusion(f.bucket, f.key, f.url, Capitalized(status), Lacks(MissingLabels(f))))
    else Eligible(Deletion(f.bucket, f.key, f.url, f.sizeMb, Capitalized(status)))
  }

  function Verdicts(header: seq<Cell>, rows: seq<seq<Cell>>): seq<Verdict> {
    seq(|rows|, i requires 0 <= i < |rows| => Judge(FieldsOf(header, rows[i])))
  }

  function Deletions(verdicts: seq<Verdict>): seq<Deletion> {
    if verdicts == [] then []
    else
      var last := verdicts[|verdicts| - 1];
      Deletions(verdicts[..|verdicts| - 1]) + if last.Eligible? then [last.item] else []
  }

  function Exclusions(verdicts: seq<Verdict>): seq<Exclusion> {
    if verdicts == [] then []
    else
      var last := verdicts[|verdicts| - 1];
      Exclusions(verdicts[..|verdicts| - 1]) + if last.Failed? || last.Incomplete? then [last.why] else []
  }

  function StatsOf(verdicts: seq<Verdict>): Stats {
    if verdicts == [] then Stats(0, 0, 0, 0, 0, 0)
    else
      var s, last := StatsOf(verdicts[..|verdicts| - 1]), verdicts[|verdicts| - 1];
      match last
      case Ignored => s
      case Eligible(item) =>
        if item.status == "Copied" then s.(total := s.total + 1, eligible := s.eligible + 1, copied := s.copied + 1)
        else s.(total := s.total + 1, eligible := s.eligible + 1, skipped := s.skipped + 1)
      case Failed(_) => s.(total := s.total + 1, failed := s.failed + 1)
      case Incomplete(_) => s.(total := s.total + 1, incomplete := s.incomplete + 1)
  }

  datatype DeleteDetails = DeleteDetails(results: seq<Deletion>, stats: Stats, excluded: seq<Exclusion>)

  function DetailsOf(verdicts: seq<Verdict>): DeleteDetails {
    DeleteDetails(Deletions(verdicts), StatsOf(verdicts), Exclusions(verdicts))
  }

  predicate HasColumns(header: seq<Cell>, names: seq<string>) {
    forall i :: 0 <= i < |names| ==> ColumnOf(header, names[i]).Some?
  }

  const DELETE_COLUMNS := ["bucket", "key", "destination url", "status"]

  function ParseForDelete(sheet: Sheet): Option<DeleteDetails> {
    if sheet == [] || sheet[0] == [] then Some(DetailsOf([]))
    else if !HasColumns(sheet[0], DELETE_COLUMNS) then None
    else Some(DetailsOf(Verdicts(sheet[0], sheet[1..])))
  }

  function At(columns: map<string, nat>, row: seq<Cell>, name: string): Cell {
    ValueAt(row, if name in columns then Some(columns[name]) else None)
  }

  /** The dictionary finds the column of every name. */
  ghost predicate Indexed(header: seq<Cell>, columns: map<string, nat>) {
    forall name :: (if name in columns then Some(columns[name]) else None) == ColumnOf(header, name)
  }

  lemma AtIsValue(header: seq<Cell>, columns: map<string, nat>, row: seq<Cell>, name: string)
    requires Indexed(header, columns)
    ensures At(columns, row, name) == Value(header, row, name)
  {
  }

  method ReadFields(ghost header: seq<Cell>, columns: map<string, nat>, row: seq<Cell>) returns (f: Fields)
    requires Indexed(header, columns)
    ensures f == FieldsOf(header, row)
  {
    AtIsValue(header, columns, row, "status");
    AtIsValue(header, columns, row, "bucket");
    AtIsValue(header, columns, row, "key");
    AtIsValue(header, columns, row, "destination url");
    AtIsValue(header, columns, row, "size (mb)");
    AtIsValue(header, columns, row, "error");
    f := Fields(BlankRow(row), At(columns, row, "status"), At(columns, row, "bucket"), At(columns, row, "key"),
                At(columns, row, "destination url"), At(columns, row, "size (mb)"), At(columns, row, "error"));
  }

  /** One turn of the reader's loop. */
  method ReadRow(f: Fields) returns (verdict: Verdict)
    ensures verdict == Judge(f)
  {
    if f.blank {
      return Ignored;
    }
    var status := Normal(ShownOrEmpty(f.status));
    if status != "copied" && status != "skipped" {
      var reason := if Truthy(f.error) then Given(f.error) else NotMigrated;
      return Failed(Exclusion(f.bucket, f.key, f.url, ShownOrEmpty(f.status), reason));
    }
    if !Truthy(f.bucket) || !Truthy(f.key) || !Truthy(f.url) {
      var missing := [];
      if !Truthy(f.bucket) {
        missing := missing + ["Bucket"];
      }
      if !Truthy(f.key) {
        missing := missing + ["Key"];
      }
      if !Truthy(f.url) {
        missing := missing + ["Destination URL"];
      }
      assert missing == MissingLabels(f);
      return Incomplete(Exclusion(f.bucket, f.key, f.url, Capitalized(status), Lacks(missing)));
    }
    verdict := Eligible(Deletion(f.bucket, f.key, f.url, f.sizeMb, Capitalized(status)));
  }

  /** The bookkeeping of one row. */
  method Record(verdict: Verdict, d: DeleteDetails, ghost verdicts: seq<Verdict>) returns (d': DeleteDetails)
    requires d == DetailsOf(verdicts)
    ensures d' == DetailsOf(verdicts + [verdict])
  {
    assert (verdicts + [verdict])[..|verdicts|] == verdicts;
    var results, stats, excluded := d.results, d.stats, d.excluded;
    match verdict {
      case Ignored =>
      case Failed(why) =>
        stats := stats.(total := stats.total + 1, failed := stats.failed + 1);
        excluded := excluded + [why];
      case Incomplete(why) =>
        stats := stats.(total := stats.total + 1, incomplete := stats.incomplete + 1);
        excluded := excluded + [why];
      case Eligible(item) =>
        results := results + [item];
        stats := stats.(total := stats.total + 1, eligible := stats.eligible + 1);
        stats := if item.status == "Copied" then stats.(copied := stats.copied + 1) else stats.(skipped := stats.skipped + 1);
    }
    d' := DeleteDetails(results, stats, excluded);
  }

  method ReadRows(header: seq<Cell>, columns: map<string, nat>, rows: seq<seq<Cell>>) returns (d: DeleteDetails)
    requires Indexed(header, columns)
    ensures d == DetailsOf(Verdicts(header, rows))
  {
    d := DeleteDetails([], Stats(0, 0, 0, 0, 0, 0), []);
    ghost var verdicts: seq<Verdict> := [];
    for i := 0 to |rows|
      invariant verdicts == Verdicts(header, rows)[..i]
      invariant d == DetailsOf(verdicts)
    {
      var f := ReadFields(header, columns, rows[i]);
      var verdict := ReadRow(f);
      d := Record(verdict, d, verdicts);
      verdicts := verdicts + [verdict];
      assert verdict == Verdicts(header, rows)[i];
    }
    assert verdicts == Verdicts(header, rows);
  }

  method ParseCopyReportForDeleteDetails(sheet: Sheet) returns (details: Option<DeleteDetails>)
    ensures details == ParseForDelete(sheet)
  {
    if sheet == [] || sheet[0] == [] {
      return Some(DeleteDetails([], Stats(0, 0, 0, 0, 0, 0), []));
    }
    var columns := IndexColumns(sheet[0]);
    if exists i :: 0 <= i < |DELETE_COLUMNS| && DELETE_COLUMNS[i] !in columns {
      return None;
    }
    var d := ReadRows(sheet[0], columns, sheet[1..]);
    details := Some(d);
  }

  // ---------------------------------------------------------------- laws of every sheet

  function CountRows(rows: seq<seq<Cell>>): nat {
    if rows == [] then 0 else CountRows(rows[..|rows| - 1]) + if BlankRow(rows[|rows| - 1]) then 0 else 1
  }

  lemma {:induction false} StatsAddUp(verdicts: seq<Verdict>)
    ensures var s := StatsOf(verdicts);
      && s.total == s.eligible + s.failed + s.incomplete && s.eligible == s.copied + s.skipped
      && s.eligible == |Deletions(verdicts)| && s.failed + s.incomplete == |Exclusions(verdicts)|
  {
    if verdicts != [] {
      StatsAddUp(verdicts[..|verdicts| - 1]);
    }
  }

  lemma {:induction false} TotalCounts(verdicts: seq<Verdict>, rows: seq<seq<Cell>>)
    requires |verdicts| == |rows| && forall i :: 0 <= i < |rows| ==> (verdicts[i].Ignored? <==> BlankRow(rows[i]))
    ensures StatsOf(verdicts).total == CountRows(rows)
  {
    if rows != [] {
      TotalCounts(verdicts[..|rows| - 1], rows[..|rows| - 1]);
    }
  }

  lemma TotalCountsRows(header: seq<Cell>, rows: seq<seq<Cell>>)
    ensures StatsOf(Verdicts(header, rows)).total == CountRows(rows)
  {
    forall i | 0 <= i < |rows|
      ensures Verdicts(header, rows)[i].Ignored? <==> BlankRow(rows[i])
    {
      assert Verdicts(header, rows)[i] == Judge(FieldsOf(header, rows[i]));
    }
    TotalCounts(Verdicts(header, rows), rows);
  }

  /** For any sheet at all: every row with a value is counted once, as eligible, failed or
      incomplete; the lists are as long as their counts say. */
  lemma DeleteCountsAddUp(sheet: Sheet)
    requires ParseForDelete(sheet).Some? && sheet != [] && sheet[0] != []
    ensures var d := ParseForDelete(sheet).value;
      && d.stats.total == d.stats.eligible + d.stats.failed + d.stats.incomplete == CountRows(sheet[1..])
      && d.stats.eligible == d.stats.copied + d.stats.skipped == |d.results|
      && d.stats.failed + d.stats.incomplete == |d.excluded|
  {
    StatsAddUp(Verdicts(sheet[0], sheet[1..]));
    TotalCountsRows(sheet[0], sheet[1..]);
  }

  // ---------------------------------------------------------------- the order of the columns

  ghost predicate DistinctNames(header: seq<Cell>) {
    forall i, j :: 0 <= i < j < |header| && header[i] != Blank && header[j] != Blank ==>
      Normal(Shown(header[i])) != Normal(Shown(header[j]))
  }

  ghost predicate Rectangular(sheet: Sheet, width: nat) {
    forall r :: 0 <= r < |sheet| ==> |sheet[r]| == width
  }

  function Permute(row: seq<Cell>, order: seq<nat>): seq<Cell>
    requires forall k :: 0 <= k < |order| ==> order[k] < |row|
  {
    seq(|order|, k requires 0 <= k < |order| => row[order[k]])
  }

  function PermuteAll(sheet: Sheet, order: seq<nat>, width: nat): Sheet
    requires (forall r :: 0 <= r < |sheet| ==> |sheet[r]| == width) && forall k :: 0 <= k < |order| ==> order[k] < width
  {
    seq(|sheet|, r requires 0 <= r < |sheet| => Permute(sheet[r], order))
  }

  lemma {:induction false} ColumnIs(header: seq<Cell>, name: string)
    ensures var c := ColumnOf(header, name);
      && (c.Some? ==> c.value < |header| && Named(header[c.value], name))
      && (c.None? ==> forall i :: 0 <= i < |header| ==> !Named(header[i], name))
  {
    if header != [] && !Named(header[|header| - 1], name) {
      ColumnIs(header[..|header| - 1], name);
      assert forall i :: 0 <= i < |header| - 1 ==> header[..|header| - 1][i] == header[i];
    }
  }

  lemma PermutedValue(header: seq<Cell>, row: seq<Cell>, order: seq<nat>, name: string)
    requires IsSchedule(order, |header|) && |row| == |header| && DistinctNames(header)
    ensures Value(Permute(header, order), Permute(row, order), name) == Value(header, row, name)
  {
    var header', c := Permute(header, order), ColumnOf(header, name);
    var c' := ColumnOf(header', name);
    ColumnIs(header, name);
    ColumnIs(header', name);
    if c.Some? {
      assert c.value in order;
      var k :| 0 <= k < |order| && order[k] == c.value;
      assert Named(header'[k], name);
      assert order[c'.value] == c.value;
    }
  }

  lemma PermutedBlank(row: seq<Cell>, order: seq<nat>)
    requires IsSchedule(order, |row|)
    ensures BlankRow(Permute(row, order)) <==> BlankRow(row)
  {
    var row' := Permute(row, order);
    if BlankRow(row') {
      forall i: nat | i < |row|
        ensures row[i] == Blank
      {
        assert i in order;
        var k :| 0 <= k < |order| && order[k] == i;
        assert row'[k] == row[i];
      }
    }
  }

  lemma PermutedFields(header: seq<Cell>, row: seq<Cell>, order: seq<nat>)
    requires IsSchedule(order, |header|) && |row| == |header| && DistinctNames(header)
    ensures FieldsOf(Permute(header, order), Permute(row, order)) == FieldsOf(header, row)
  {
    PermutedBlank(row, order);
    PermutedValue(header, row, order, "status");
    PermutedValue(header, row, order, "bucket");
    PermutedValue(header, row, order, "key");
    PermutedValue(header, row, order, "destination url");
    PermutedValue(header, row, order, "size (mb)");
    PermutedValue(header, row, order, "error");
  }

  lemma PermutedColumn(header: seq<Cell>, order: seq<nat>, name: string)
    requires IsSchedule(order, |header|)
    ensures ColumnOf(Permute(header, order), name).Some? <==> ColumnOf(header, name).Some?
  {
    var header' := Permute(header, order);
    ColumnIs(header, name);
    ColumnIs(header', name);
    var c := ColumnOf(header, name);
    if c.Some? {
      assert c.value in order;
      var k :| 0 <= k < |order| && order[k] == c.value;
      assert Named(header'[k], name);
    }
  }

  /** Moving columns with distinct names around changes nothing. */
  lemma ColumnOrderIrrelevant(sheet: Sheet, order: seq<nat>)
    requires sheet != [] && IsSchedule(order, |sheet[0]|) && DistinctNames(sheet[0]) && Rectangular(sheet, |sheet[0]|)
    ensures ParseForDelete(PermuteAll(sheet, order, |sheet[0]|)) == ParseForDelete(sheet)
  {
    var header, moved := sheet[0], PermuteAll(sheet, order, |sheet[0]|);
    ScheduleLength(order, |header|);
    if header != [] {
      forall i | 0 <= i < |DELETE_COLUMNS|
        ensures ColumnOf(moved[0], DELETE_COLUMNS[i]).Some? <==> ColumnOf(header, DELETE_COLUMNS[i]).Some?
      {
        PermutedColumn(header, order, DELETE_COLUMNS[i]);
      }
      forall r | 0 <= r < |sheet| - 1
        ensures Verdicts(moved[0], moved[1..])[r] == Verdicts(header, sheet[1..])[r]
      {
        PermutedFields(header, sheet[r + 1], order);
      }
      assert Verdicts(moved[0], moved[1..]) == Verdicts(header, sheet[1..]);
    }
  }
}
