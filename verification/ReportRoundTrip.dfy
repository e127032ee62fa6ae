/** Writing a migration report and reading it back. */
module ReportRoundTrip {
  import opened Basics
  import opened MigrationReport
  import opened PyStrings

  // ---------------------------------------------------------------- reading for repointing

  datatype Repointing = Repointing(source: Cell, url: Cell, table: Cell, column: Cell, rowId: Cell)

  datatype UpdateStats = UpdateStats(total: nat, eligible: nat, failed: nat, incomplete: nat)

  datatype UpdateVerdict = Ignore | Use(item: Repointing) | NotCopied | Unfinished

  const UPDATE_COLUMNS := ["source path", "destination url", "table", "column", "row id", "status"]

  predicate Filled(c: Cell) {
    c != Blank && c != Text("")
  }

  function ItemOf(header: seq<Cell>, row: seq<Cell>): Repointing {
    Repointing(Value(header, row, "source path"), Value(header, row, "destination url"), Value(header, row, "table"),
               Value(header, row, "column"), Value(header, row, "row id"))
  }

  predicate Finished(item: Repointing) {
    Filled(item.source) && Filled(item.url) && Filled(item.table) && Filled(item.column) && Filled(item.rowId)
  }

  function JudgeUpdate(blank: bool, status: Cell, item: Repointing): UpdateVerdict {
    var s := Normal(ShownOrEmpty(status));
    if blank then Ignore
    else if s != "copied" && s != "skipped" then NotCopied
    else if Finished(item) then Use(item)
    else Unfinished
  }

  function UpdateVerdicts(header: seq<Cell>, rows: seq<seq<Cell>>): seq<UpdateVerdict> {
    seq(|rows|, i requires 0 <= i < |rows| =>
      JudgeUpdate(BlankRow(rows[i]), Value(header, rows[i], "status"), ItemOf(header, rows[i])))
  }

  function Repointings(verdicts: seq<UpdateVerdict>): seq<Repointing> {
    if verdicts == [] then []
    else
      var last := verdicts[|verdicts| - 1];
      Repointings(verdicts[..|verdicts| - 1]) + if last.Use? then [last.item] else []
  }

  function UpdateStatsOf(verdicts: seq<UpdateVerdict>): UpdateStats {
    if verdicts == [] then UpdateStats(0, 0, 0, 0)
    else
      var s := UpdateStatsOf(verdicts[..|verdicts| - 1]);
      match verdicts[|verdicts| - 1]
      case Ignore => s
      case Use(_) => s.(total := s.total + 1, eligible := s.eligible + 1)
      case NotCopied => s.(total := s.total + 1, failed := s.failed + 1)
      case Unfinished => s.(total := s.total + 1, incomplete := s.incomplete + 1)
  }

  function ParseForUpdate(sheet: Sheet): Option<(seq<Repointing>, UpdateStats)> {
    if sheet == [] || sheet[0] == [] then Some(([], UpdateStats(0, 0, 0, 0)))
    else if !HasColumns(sheet[0], UPDATE_COLUMNS) then None
    else
      var verdicts := UpdateVerdicts(sheet[0], sheet[1..]);
      Some((Repointings(verdicts), UpdateStatsOf(verdicts)))
  }

  method ParseCopyReportForDbUpdate(sheet: Sheet) returns (parsed: Option<(seq<Repointing>, UpdateStats)>)
    ensures parsed == ParseForUpdate(sheet)
  {
    if sheet == [] || sheet[0] == [] {
      return Some(([], UpdateStats(0, 0, 0, 0)));
    }
    var columns := IndexColumns(sheet[0]);
    if exists i :: 0 <= i < |UPDATE_COLUMNS| && UPDATE_COLUMNS[i] !in columns {
      return None;
    }
    var results, stats := ReadRowsForUpdate(sheet[0], columns, sheet[1..]);
    parsed := Some((results, stats));
  }

  method ReadRowsForUpdate(header: seq<Cell>, columns: map<string, nat>, rows: seq<seq<Cell>>)
    returns (results: seq<Repointing>, stats: UpdateStats)
    requires Indexed(header, columns)
    ensures results == Repointings(UpdateVerdicts(header, rows)) && stats == UpdateStatsOf(UpdateVerdicts(header, rows))
  {
    results, stats := [], UpdateStats(0, 0, 0, 0);
    ghost var verdicts := UpdateVerdicts(header, rows);
    for i := 0 to |rows|
      invariant results == Repointings(verdicts[..i]) && stats == UpdateStatsOf(verdicts[..i])
    {
      var verdict := ReadForUpdate(header, columns, rows[i]);
      assert verdict == verdicts[i];
      assert verdicts[..i + 1][..i] == verdicts[..i];
      match verdict {
        case Ignore =>
        case NotCopied => stats := stats.(total := stats.total + 1, failed := stats.failed + 1);
        case Unfinished => stats := stats.(total := stats.total + 1, incomplete := stats.incomplete + 1);
        case Use(item) =>
          results := results + [item];
          stats := stats.(total := stats.total + 1, eligible := stats.eligible + 1);
      }
    }
    assert verdicts[..|rows|] == verdicts;
  }

  method ReadForUpdate(ghost header: seq<Cell>, columns: map<string, nat>, row: seq<Cell>) returns (verdict: UpdateVerdict)
    requires Indexed(header, columns)
    ensures verdict == JudgeUpdate(BlankRow(row), Value(header, row, "status"), ItemOf(header, row))
  {
    var item := ReadItem(header, columns, row);
    AtIsValue(header, columns, row, "status");
    if BlankRow(row) {
      return Ignore;
    }
    var status := Normal(ShownOrEmpty(At(columns, row, "status")));
    if status != "copied" && status != "skipped" {
      return NotCopied;
    }
    verdict := if Finished(item) then Use(item) else Unfinished;
  }

  method ReadItem(ghost header: seq<Cell>, columns: map<string, nat>, row: seq<Cell>) returns (item: Repointing)
    requires Indexed(header, columns)
    ensures item == ItemOf(header, row)
  {
    AtIsValue(header, columns, row, "source path");
    AtIsValue(header, columns, row, "destination url");
    AtIsValue(header, columns, row, "table");
    AtIsValue(header, columns, row, "column");
    AtIsValue(header, columns, row, "row id");
    item := Repointing(At(columns, row, "source path"), At(columns, row, "destination url"), At(columns, row, "table"),
                       At(columns, row, "column"), At(columns, row, "row id"));
  }

  /** For any sheet at all: every counted row is eligible, failed or incomplete. */
  lemma {:induction false} UpdateCountsAddUp(verdicts: seq<UpdateVerdict>)
    ensures var s := UpdateStatsOf(verdicts);
      s.total == s.eligible + s.failed + s.incomplete && s.eligible == |Repointings(verdicts)|
  {
    if verdicts != [] {
      UpdateCountsAddUp(verdicts[..|verdicts| - 1]);
    }
  }

  // ---------------------------------------------------------------- writing

  /** What a copy run was asked to move. */
  datatype CopyItem = CopyItem(path: Option<string>, sizeMb: Cell, table: Option<string>, column: Option<string>, rowId: Cell)

  /** What it answered. */
  datatype CopyAnswer = CopyAnswer(success: bool, skipped: bool, bucket: string, key: string, destBucket: Option<string>, error: Option<string>)

  datatype Entry = Entry(item: CopyItem, answer: CopyAnswer, status: string)

  type UrlOf = (string, string) -> string

  function StatusOf(a: CopyAnswer): string {
    if !a.success then "Failed" else if a.skipped then "Skipped" else "Copied"
  }

  function TextOrEmpty(s: Option<string>): Cell {
    Text(if s.Some? then s.value else "")
  }

  /** A sheet keeps no empty texts. */
  function Stored(c: Cell): Cell {
    if c == Text("") then Blank else c
  }

  function UrlCell(a: CopyAnswer, url: UrlOf): Cell {
    Text(if a.destBucket.Some? && a.destBucket.value != "" then url(a.destBucket.value, a.key) else "")
  }

  function RowOf(e: Entry, url: UrlOf): seq<Cell> {
    [Stored(TextOrEmpty(e.item.path)), Stored(Text(e.answer.bucket)), Stored(Text(e.answer.key)),
     Stored(UrlCell(e.answer, url)), Stored(e.item.sizeMb), Stored(TextOrEmpty(e.item.table)),
     Stored(TextOrEmpty(e.item.column)), Stored(e.item.rowId), Stored(Text(e.status)), Stored(TextOrEmpty(e.answer.error))]
  }

  const TITLES: seq<string> := ["Source Path", "Bucket", "Key", "Destination URL", "Size (MB)",
                                "Table", "Column", "Row ID", "Status", "Error"]

  const NAMES: seq<string> := ["source path", "bucket", "key", "destination url", "size (mb)",
                               "table", "column", "row id", "status", "error"]

  function TitleRow(): (r: seq<Cell>)
    ensures |r| == 10 && forall i :: 0 <= i < 10 ==> r[i] == Text(TITLES[i])
  {
    seq(10, i requires 0 <= i < 10 => Text(TITLES[i]))
  }

  function Entries(items: seq<CopyItem>, answers: seq<CopyAnswer>): seq<Entry>
    requires |items| == |answers|
  {
    seq(|items|, i requires 0 <= i < |items| => Entry(items[i], answers[i], StatusOf(answers[i])))
  }

  function CopySheet(entries: seq<Entry>, url: UrlOf): Sheet {
    [TitleRow()] + seq(|entries|, i requires 0 <= i < |entries| => RowOf(entries[i], url))
  }

  function Statuses(entries: seq<Entry>): seq<string> {
    seq(|entries|, i requires 0 <= i < |entries| => entries[i].status)
  }

  ghost predicate Counted(counts: map<string, nat>, statuses: seq<string>) {
    forall s :: (if s in counts then counts[s] else 0) == multiset(statuses)[s]
  }

  method CountStatus(counts: map<string, nat>, status: string, ghost statuses: seq<string>) returns (counts': map<string, nat>)
    requires Counted(counts, statuses)
    ensures Counted(counts', statuses + [status])
  {
    counts' := counts[status := (if status in counts then counts[status] else 0) + 1];
  }

  /** One row per entry, in order, and the number of entries of every status. */
  method GenerateCopyReport(entries: seq<Entry>, url: UrlOf) returns (sheet: Sheet, counts: map<string, nat>)
    ensures sheet == CopySheet(entries, url) && Counted(counts, Statuses(entries))
  {
    sheet, counts := [TitleRow()], map[];
    ghost var done: seq<Entry> := [];
    for i := 0 to |entries|
      invariant done == entries[..i]
      invariant sheet == CopySheet(done, url) && Counted(counts, Statuses(done))
    {
      var e := entries[i];
      counts := CountStatus(counts, e.status, Statuses(done));
      assert Statuses(done + [e]) == Statuses(done) + [e.status];
      assert CopySheet(done + [e], url) == CopySheet(done, url) + [RowOf(e, url)];
      sheet, done := sheet + [RowOf(e, url)], done + [e];
    }
    assert entries[..|entries|] == entries;
  }

  /** The entries of a copy run, request and answers side by side. */
  method BuildCopyReport(items: seq<CopyItem>, answers: seq<CopyAnswer>, url: UrlOf) returns (sheet: Sheet, counts: map<string, nat>)
    requires |items| == |answers|
    ensures sheet == CopySheet(Entries(items, answers), url) && Counted(counts, Statuses(Entries(items, answers)))
  {
    var entries := [];
    for i := 0 to |items|
      invariant entries == Entries(items[..i], answers[..i])
    {
      var a := answers[i];
      var status := if !a.success then "Failed" else if a.skipped then "Skipped" else "Copied";
      entries := entries + [Entry(items[i], a, status)];
    }
    assert items[..|items|] == items && answers[..|items|] == answers;
    sheet, counts := GenerateCopyReport(entries, url);
  }

  // ---------------------------------------------------------------- round trip

  lemma TitleNormal(i: nat)
    requires i < 10
    ensures Normal(TITLES[i]) == NAMES[i]
  {
    TrimNothing(TITLES[i]);
    if i == 0 { assert Lower("Source Path") == "source path"; }
    else if i == 1 { assert Lower("Bucket") == "bucket"; }
    else if i == 2 { assert Lower("Key") == "key"; }
    else if i == 3 { assert Lower("Destination URL") == "destination url"; }
    else if i == 4 { assert Lower("Size (MB)") == "size (mb)"; }
    else if i == 5 { assert Lower("Table") == "table"; }
    else if i == 6 { assert Lower("Column") == "column"; }
    else if i == 7 { assert Lower("Row ID") == "row id"; }
    else if i == 8 { assert Lower("Status") == "status"; }
    else { assert Lower("Error") == "error"; }
  }

  lemma NamesDiffer(i: nat, j: nat)
    requires i < 10 && j < 10 && i != j
    ensures NAMES[i] != NAMES[j]
  {
  }

  lemma TitleColumn(i: nat)
    requires i < 10
    ensures ColumnOf(TitleRow(), NAMES[i]) == Some(i)
  {
    ColumnIs(TitleRow(), NAMES[i]);
    TitleNormal(i);
    assert Named(TitleRow()[i], NAMES[i]);
    var c := ColumnOf(TitleRow(), NAMES[i]).value;
    TitleNormal(c);
    if c != i {
      NamesDiffer(c, i);
    }
  }

  lemma TitleValue(row: seq<Cell>, i: nat)
    requires i < 10 && |row| == 10
    ensures Value(TitleRow(), row, NAMES[i]) == row[i]
  {
    TitleColumn(i);
  }

  /** A successful answer names its object and where it now lives. */
  ghost predicate ValidAnswer(a: CopyAnswer, url: UrlOf) {
    a.success ==> a.bucket != "" && a.key != "" && a.destBucket.Some? && a.destBucket.value != "" && url(a.destBucket.value, a.key) != ""
  }

  /** What reading for deletion must give for an item: the object if it was copied or was there
      already, an exclusion if it failed. */
  function ExpectedDeletion(item: CopyItem, a: CopyAnswer, url: UrlOf): Verdict {
    if !a.success then
      MigrationReport.Failed(Exclusion(Stored(Text(a.bucket)), Stored(Text(a.key)), Stored(UrlCell(a, url)), "Failed",
                       if a.error.Some? && a.error.value != "" then MigrationReport.Given(Text(a.error.value)) else NotMigrated))
    else Eligible(Deletion(Text(a.bucket), Text(a.key), UrlCell(a, url), Stored(item.sizeMb), StatusOf(a)))
  }

  lemma StatusNormal(a: CopyAnswer)
    ensures Normal(StatusOf(a)) == if !a.success then "failed" else if a.skipped then "skipped" else "copied"
  {
  }

  lemma RowFields(e: Entry, url: UrlOf)
    ensures var row, f := RowOf(e, url), FieldsOf(TitleRow(), RowOf(e, url));
      && f.bucket == row[1] && f.key == row[2] && f.url == row[3] && f.sizeMb == row[4] && f.status == row[8] && f.error == row[9]
      && Value(TitleRow(), row, "status") == row[8]
      && ItemOf(TitleRow(), row) == Repointing(row[0], row[3], row[5], row[6], row[7])
  {
    var row := RowOf(e, url);
    TitleValue(row, 0);
    TitleValue(row, 1);
    TitleValue(row, 2);
    TitleValue(row, 3);
    TitleValue(row, 4);
    TitleValue(row, 5);
    TitleValue(row, 6);
    TitleValue(row, 7);
    TitleValue(row, 8);
    TitleValue(row, 9);
  }

  lemma RowHasStatus(item: CopyItem, a: CopyAnswer, url: UrlOf)
    ensures var row := RowOf(Entry(item, a, StatusOf(a)), url);
      row[8] == Text(StatusOf(a)) && StatusOf(a) != "" && !BlankRow(row)
  {
  }

  lemma RowRead(item: CopyItem, a: CopyAnswer, url: UrlOf)
    requires ValidAnswer(a, url)
    ensures Judge(FieldsOf(TitleRow(), RowOf(Entry(item, a, StatusOf(a)), url))) == ExpectedDeletion(item, a, url)
  {
    var row := RowOf(Entry(item, a, StatusOf(a)), url);
    RowFields(Entry(item, a, StatusOf(a)), url);
    StatusNormal(a);
    RowHasStatus(item, a, url);
    var f := FieldsOf(TitleRow(), row);
    assert Normal(ShownOrEmpty(f.status)) == Normal(StatusOf(a));
    FieldsRead(item, a, url, f);
  }

  lemma FieldsRead(item: CopyItem, a: CopyAnswer, url: UrlOf, f: Fields)
    requires ValidAnswer(a, url) && !f.blank && f.status == Text(StatusOf(a)) && StatusOf(a) != ""
    requires Normal(StatusOf(a)) == if !a.success then "failed" else if a.skipped then "skipped" else "copied"
    requires f.bucket == Stored(Text(a.bucket)) && f.key == Stored(Text(a.key)) && f.url == Stored(UrlCell(a, url))
    requires f.sizeMb == Stored(item.sizeMb) && f.error == Stored(TextOrEmpty(a.error))
    ensures Judge(f) == ExpectedDeletion(item, a, url)
  {
  }

  lemma TitlesSuffice()
    ensures TitleRow() != [] && HasColumns(TitleRow(), DELETE_COLUMNS) && HasColumns(TitleRow(), UPDATE_COLUMNS)
  {
    DeleteTitles();
    UpdateTitles();
  }

  lemma DeleteTitles()
    ensures HasColumns(TitleRow(), DELETE_COLUMNS)
  {
    TitleColumn(1);
    TitleColumn(2);
    TitleColumn(3);
    TitleColumn(8);
  }

  lemma UpdateTitles()
    ensures HasColumns(TitleRow(), UPDATE_COLUMNS)
  {
    TitleColumn(0);
    TitleColumn(3);
    TitleColumn(5);
    TitleColumn(6);
    TitleColumn(7);
    TitleColumn(8);
  }

  function ExpectedDeletions(items: seq<CopyItem>, answers: seq<CopyAnswer>, url: UrlOf): seq<Verdict>
    requires |items| == |answers|
  {
    seq(|items|, i requires 0 <= i < |items| => ExpectedDeletion(items[i], answers[i], url))
  }

  /** Round trip: reading the sheet of a copy run gives exactly the successful items as deletable,
      in order, and every failed item as excluded. */
  lemma DeletionRoundTrip(items: seq<CopyItem>, answers: seq<CopyAnswer>, url: UrlOf)
    requires |items| == |answers| && forall i :: 0 <= i < |answers| ==> ValidAnswer(answers[i], url)
    ensures ParseForDelete(CopySheet(Entries(items, answers), url)) == Some(DetailsOf(ExpectedDeletions(items, answers, url)))
    ensures DetailsOf(ExpectedDeletions(items, answers, url)).stats.incomplete == 0
  {
    var sheet := CopySheet(Entries(items, answers), url);
    TitlesSuffice();
    forall i | 0 <= i < |items|
      ensures Verdicts(sheet[0], sheet[1..])[i] == ExpectedDeletions(items, answers, url)[i]
    {
      assert sheet[1..][i] == RowOf(Entry(items[i], answers[i], StatusOf(answers[i])), url);
      RowRead(items[i], answers[i], url);
    }
    assert Verdicts(sheet[0], sheet[1..]) == ExpectedDeletions(items, answers, url);
    NoneIncomplete(ExpectedDeletions(items, answers, url));
  }

  lemma {:induction false} NoneIncomplete(verdicts: seq<Verdict>)
    requires forall i :: 0 <= i < |verdicts| ==> !verdicts[i].Incomplete?
    ensures StatsOf(verdicts).incomplete == 0
  {
    if verdicts != [] {
      NoneIncomplete(verdicts[..|verdicts| - 1]);
    }
  }

  /** What reading for repointing must give. */
  function ExpectedUpdate(item: CopyItem, a: CopyAnswer, url: UrlOf): UpdateVerdict {
    var r := Repointing(Stored(TextOrEmpty(item.path)), Stored(UrlCell(a, url)), Stored(TextOrEmpty(item.table)),
                        Stored(TextOrEmpty(item.column)), Stored(item.rowId));
    if !a.success then NotCopied else if Finished(r) then Use(r) else Unfinished
  }

  lemma RowReadForUpdate(item: CopyItem, a: CopyAnswer, url: UrlOf)
    ensures var row := RowOf(Entry(item, a, StatusOf(a)), url);
      JudgeUpdate(BlankRow(row), Value(TitleRow(), row, "status"), ItemOf(TitleRow(), row)) == ExpectedUpdate(item, a, url)
  {
    var row := RowOf(Entry(item, a, StatusOf(a)), url);
    RowFields(Entry(item, a, StatusOf(a)), url);
    StatusNormal(a);
    RowHasStatus(item, a, url);
  }

  function ExpectedUpdates(items: seq<CopyItem>, answers: seq<CopyAnswer>, url: UrlOf): seq<UpdateVerdict>
    requires |items| == |answers|
  {
    seq(|items|, i requires 0 <= i < |items| => ExpectedUpdate(items[i], answers[i], url))
  }

  /** The same for repointing: exactly the successful items with all five values are used, with the
      values they were written with. */
  lemma UpdateRoundTrip(items: seq<CopyItem>, answers: seq<CopyAnswer>, url: UrlOf)
    requires |items| == |answers|
    ensures ParseForUpdate(CopySheet(Entries(items, answers), url))
         == Some((Repointings(ExpectedUpdates(items, answers, url)), UpdateStatsOf(ExpectedUpdates(items, answers, url))))
  {
    var sheet := CopySheet(Entries(items, answers), url);
    TitlesSuffice();
    forall i | 0 <= i < |items|
      ensures UpdateVerdicts(sheet[0], sheet[1..])[i] == ExpectedUpdates(items, answers, url)[i]
    {
      assert sheet[1..][i] == RowOf(Entry(items[i], answers[i], StatusOf(answers[i])), url);
      RowReadForUpdate(items[i], answers[i], url);
    }
    assert UpdateVerdicts(sheet[0], sheet[1..]) == ExpectedUpdates(items, answers, url);
  }

  lemma {:induction false} DeletionMembers(verdicts: seq<Verdict>, d: Deletion)
    ensures d in Deletions(verdicts) <==> exists i :: 0 <= i < |verdicts| && verdicts[i] == Eligible(d)
  {
    if verdicts != [] {
      var before, last := verdicts[..|verdicts| - 1], verdicts[|verdicts| - 1];
      DeletionMembers(before, d);
      assert verdicts == before + [last];
      assert d in Deletions(verdicts) <==> d in Deletions(before) || last == Eligible(d);
    }
  }

  /** An object is offered for deletion only if its copy succeeded, and every success is offered. */
  lemma DeletableAreSuccesses(items: seq<CopyItem>, answers: seq<CopyAnswer>, url: UrlOf, d: Deletion)
    requires |items| == |answers|
    ensures d in Deletions(ExpectedDeletions(items, answers, url)) <==>
      exists i :: 0 <= i < |answers| && answers[i].success && ExpectedDeletion(items[i], answers[i], url) == Eligible(d)
  {
    var all := ExpectedDeletions(items, answers, url);
    DeletionMembers(all, d);
    assert forall i :: 0 <= i < |all| ==> all[i] == ExpectedDeletion(items[i], answers[i], url);
    assert forall i :: 0 <= i < |all| ==> (all[i].Eligible? <==> answers[i].success);
  }
}
