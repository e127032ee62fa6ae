/** What the two readers of a migration report take from a sheet, told by its cells. */
module ReportRules {
  import opened Basics
  import opened PyStrings
  import opened MigrationReport
  import opened ReportRoundTrip

  // ---------------------------------------------------------------- texts and columns

  /** A letter and its capital. */
  predicate SameLetter(c: char, small: char) {
    c == small || ('A' <= c <= 'Z' && small as int == c as int + 32)
  }

  predicate Spells(t: string, word: string) {
    |t| == |word| && forall i :: 0 <= i < |t| ==> SameLetter(t[i], word[i])
  }

  ghost predicate ReadsBetween(t: string, word: string, a: int, b: int) {
    0 <= a <= b <= |t| && AllBlank(t[..a]) && AllBlank(t[b..]) && Spells(t[a..b], word)
  }

  /** Apart from blanks around it and from capitals, the text is the word. */
  ghost predicate Reads(t: string, word: string) {
    exists a, b :: ReadsBetween(t, word, a, b)
  }

  /** A word as the code spells it: in small letters, without blanks around it. */
  predicate Word(word: string) {
    word != "" && Bounded(word) && forall i :: 0 <= i < |word| ==> !('A' <= word[i] <= 'Z')
  }

  lemma LowerSpells(t: string, word: string)
    requires Word(word)
    ensures Lower(t) == word <==> Spells(t, word)
  {
    if Spells(t, word) {
      assert forall i :: 0 <= i < |t| ==> Lower(t)[i] == word[i];
    }
    if Lower(t) == word {
      forall i | 0 <= i < |t|
        ensures SameLetter(t[i], word[i])
      {
        assert LowerChar(t[i]) == word[i];
      }
    }
  }

  lemma NormalIsRead(t: string, word: string)
    requires Word(word) && Normal(t) == word
    ensures Reads(t, word)
  {
    var a, b := TrimParts(t);
    LowerSpells(t[a..b], word);
    assert ReadsBetween(t, word, a, b);
  }

  lemma ReadIsNormal(t: string, word: string, a: int, b: int)
    requires Word(word) && ReadsBetween(t, word, a, b)
    ensures Normal(t) == word
  {
    var pre, middle, post := t[..a], t[a..b], t[b..];
    assert SameLetter(middle[0], word[0]) && SameLetter(middle[|middle| - 1], word[|word| - 1]);
    assert t == pre + middle + post;
    TrimBlanks(pre, middle, post);
    LowerSpells(middle, word);
  }

  /** A text normalises to a word if and only if it reads it. */
  lemma NormalReads(t: string, word: string)
    requires Word(word)
    ensures Normal(t) == word <==> Reads(t, word)
  {
    if Normal(t) == word {
      NormalIsRead(t, word);
    }
    if Reads(t, word) {
      var a, b :| ReadsBetween(t, word, a, b);
      ReadIsNormal(t, word, a, b);
    }
  }

  ghost predicate HeaderReads(c: Cell, name: string) {
    c != Blank && Reads(match c case Text(t) => t case Number(_, p) => p case Blank => "", name)
  }

  /** The `i`-th header is the last one that reads the name. */
  ghost predicate IsColumn(header: seq<Cell>, name: string, i: nat) {
    i < |header| && HeaderReads(header[i], name) && forall j :: i < j < |header| ==> !HeaderReads(header[j], name)
  }

  lemma NamedReads(c: Cell, name: string)
    requires Word(name)
    ensures Named(c, name) <==> HeaderReads(c, name)
  {
    NormalReads(Shown(c), name);
  }

  /** No header of the sheet reads the name. */
  ghost predicate NoColumn(header: seq<Cell>, name: string) {
    forall j :: 0 <= j < |header| ==> !HeaderReads(header[j], name)
  }

  lemma ColumnNext(front: seq<Cell>, last: Cell, name: string)
    ensures HeaderReads(last, name) ==> IsColumn(front + [last], name, |front|)
    ensures !HeaderReads(last, name) ==> forall i: nat :: IsColumn(front, name, i) ==> IsColumn(front + [last], name, i)
    ensures !HeaderReads(last, name) && NoColumn(front, name) ==> NoColumn(front + [last], name)
  {
  }

  lemma {:induction false} ColumnFound(header: seq<Cell>, name: string)
    requires Word(name)
    ensures var c := ColumnOf(header, name); if c.Some? then IsColumn(header, name, c.value) else NoColumn(header, name)
  {
    if header != [] {
      var front, last := header[..|header| - 1], header[|header| - 1];
      assert header == front + [last];
      NamedReads(last, name);
      ColumnNext(front, last, name);
      if !Named(last, name) {
        ColumnFound(front, name);
      }
    }
  }

  lemma ColumnUnique(header: seq<Cell>, name: string, i: nat)
    requires IsColumn(header, name, i)
    ensures !NoColumn(header, name) && forall j: nat :: IsColumn(header, name, j) ==> j == i
  {
  }

  /** A name stands for the last column whose header reads it, and for none if there is no such column. */
  lemma ColumnExactly(header: seq<Cell>, name: string)
    requires Word(name)
    ensures forall i: nat :: ColumnOf(header, name) == Some(i) <==> IsColumn(header, name, i)
    ensures ColumnOf(header, name) == None <==> NoColumn(header, name)
  {
    ColumnFound(header, name);
    if ColumnOf(header, name).Some? {
      ColumnUnique(header, name, ColumnOf(header, name).value);
    }
  }

  /** A row's value under a name: its cell in that column, or blank if there is no such column or the row is
      too short for it. */
  lemma ValueExactly(header: seq<Cell>, row: seq<Cell>, name: string)
    requires Word(name)
    ensures forall i: nat :: IsColumn(header, name, i) ==> Value(header, row, name) == if i < |row| then row[i] else Blank
    ensures NoColumn(header, name) ==> Value(header, row, name) == Blank
  {
    ColumnExactly(header, name);
  }

  // ---------------------------------------------------------------- rows for deletion

  /** Neither empty nor zero. */
  predicate HasValue(c: Cell) {
    c != Blank && c != Text("") && !(c.Number? && c.value == 0)
  }

  /** A cell's text, if it has a value. */
  function TextIn(c: Cell): string {
    if !HasValue(c) then "" else if c.Text? then c.text else if c.Number? then c.printed else ""
  }

  ghost predicate StatusReads(header: seq<Cell>, row: seq<Cell>, word: string) {
    Reads(TextIn(Value(header, row, "status")), word)
  }

  ghost predicate HasCell(row: seq<Cell>) {
    exists i :: 0 <= i < |row| && row[i] != Blank
  }

  ghost predicate Migrated(header: seq<Cell>, row: seq<Cell>) {
    StatusReads(header, row, "copied") || StatusReads(header, row, "skipped")
  }

  /** A row of an object that may be deleted. */
  ghost predicate Deletable(header: seq<Cell>, row: seq<Cell>) {
    && HasCell(row) && Migrated(header, row)
    && HasValue(Value(header, row, "bucket")) && HasValue(Value(header, row, "key")) && HasValue(Value(header, row, "destination url"))
  }

  ghost predicate Excluded(header: seq<Cell>, row: seq<Cell>) {
    HasCell(row) && !Deletable(header, row)
  }

  ghost predicate DeletionIs(d: Deletion, header: seq<Cell>, row: seq<Cell>) {
    && d.bucket == Value(header, row, "bucket") && d.key == Value(header, row, "key")
    && d.url == Value(header, row, "destination url") && d.sizeMb == Value(header, row, "size (mb)")
    && (d.status == "Copied" || d.status == "Skipped")
    && (d.status == "Copied" <==> StatusReads(header, row, "copied")) && (d.status == "Skipped" <==> StatusReads(header, row, "skipped"))
  }

  /** An exclusion repeats the row's cells.  A row of a migrated object lacks exactly the values it names;
      any other row is excluded with its own error, or for its status where it states none. */
  ghost predicate ExclusionIs(e: Exclusion, header: seq<Cell>, row: seq<Cell>) {
    var (bucket, key, url) := (Value(header, row, "bucket"), Value(header, row, "key"), Value(header, row, "destination url"));
    var error := Value(header, row, "error");
    && e.bucket == bucket && e.key == key && e.url == url
    && (e.reason.Lacks? <==> Migrated(header, row))
    && (e.reason.Lacks? ==>
          && e.status == (if StatusReads(header, row, "copied") then "Copied" else "Skipped")
          && e.reason.columns == (if HasValue(bucket) then [] else ["Bucket"]) + (if HasValue(key) then [] else ["Key"])
                               + (if HasValue(url) then [] else ["Destination URL"]))
    && (!e.reason.Lacks? ==>
          && e.status == TextIn(Value(header, row, "status"))
          && e.reason == if HasValue(error) then MigrationReport.Given(error) else NotMigrated)
  }

  lemma Statuses(header: seq<Cell>, row: seq<Cell>)
    ensures var s := Normal(ShownOrEmpty(Value(header, row, "status")));
            && (s == "copied" <==> StatusReads(header, row, "copied")) && (s == "skipped" <==> StatusReads(header, row, "skipped"))
    ensures TextIn(Value(header, row, "status")) == ShownOrEmpty(Value(header, row, "status"))
  {
    NormalReads(TextIn(Value(header, row, "status")), "copied");
    NormalReads(TextIn(Value(header, row, "status")), "skipped");
  }

  /** The verdict on a row, by its cells. */
  lemma JudgeMeans(header: seq<Cell>, row: seq<Cell>)
    ensures var v := Judge(FieldsOf(header, row));
            && (v.Ignored? <==> !HasCell(row))
            && (v.Eligible? <==> Deletable(header, row)) && (v.Eligible? ==> DeletionIs(v.item, header, row))
            && (v.Failed? || v.Incomplete? <==> Excluded(header, row))
            && (v.Failed? || v.Incomplete? ==> ExclusionIs(v.why, header, row) && (v.Incomplete? <==> v.why.reason.Lacks?))
  {
    Statuses(header, row);
  }

  // ---------------------------------------------------------------- the whole sheet

  predicate Ascending(places: seq<nat>, n: nat) {
    (forall k :: 0 <= k < |places| ==> places[k] < n) && forall k, m :: 0 <= k < m < |places| ==> places[k] < places[m]
  }

  /** The results are the deletable rows, in order. */
  ghost predicate ResultsAt(header: seq<Cell>, rows: seq<seq<Cell>>, results: seq<Deletion>, places: seq<nat>) {
    && Ascending(places, |rows|) && (forall r: nat :: r < |rows| ==> (r in places <==> Deletable(header, rows[r])))
    && |results| == |places| && forall k :: 0 <= k < |places| ==> DeletionIs(results[k], header, rows[places[k]])
  }

  /** The exclusions are the other rows that are not blank, in order. */
  ghost predicate ExclusionsAt(header: seq<Cell>, rows: seq<seq<Cell>>, excluded: seq<Exclusion>, places: seq<nat>) {
    && Ascending(places, |rows|) && (forall r: nat :: r < |rows| ==> (r in places <==> Excluded(header, rows[r])))
    && |excluded| == |places| && forall k :: 0 <= k < |places| ==> ExclusionIs(excluded[k], header, rows[places[k]])
  }

  function WithStatus(results: seq<Deletion>, status: string): set<nat> {
    set k: nat | k < |results| && results[k].status == status
  }

  function Lacking(excluded: seq<Exclusion>): set<nat> {
    set k: nat | k < |excluded| && excluded[k].reason.Lacks?
  }

  ghost predicate StatsTell(s: Stats, results: seq<Deletion>, excluded: seq<Exclusion>) {
    && s.eligible == |results| && s.copied == |WithStatus(results, "Copied")| && s.skipped == |WithStatus(results, "Skipped")|
    && s.incomplete == |Lacking(excluded)| && s.failed == |excluded| - |Lacking(excluded)|
    && s.total == |results| + |excluded|
  }

  /** The reader's answer for the rows of a sheet. */
  ghost predicate Tells(header: seq<Cell>, rows: seq<seq<Cell>>, d: DeleteDetails) {
    && (exists places :: ResultsAt(header, rows, d.results, places))
    && (exists places :: ExclusionsAt(header, rows, d.excluded, places))
    && StatsTell(d.stats, d.results, d.excluded)
  }

  lemma VerdictsMean(header: seq<Cell>, rows: seq<seq<Cell>>)
    ensures var v := Verdicts(header, rows);
            forall r :: 0 <= r < |rows| ==>
              && (v[r].Eligible? <==> Deletable(header, rows[r])) && (v[r].Eligible? ==> DeletionIs(v[r].item, header, rows[r]))
              && (Refused(v[r]) <==> Excluded(header, rows[r]))
              && (Refused(v[r]) ==> ExclusionIs(v[r].why, header, rows[r]) && (v[r].Incomplete? <==> v[r].why.reason.Lacks?))
  {
    forall r | 0 <= r < |rows|
      ensures var v := Verdicts(header, rows)[r];
              && (v.Eligible? <==> Deletable(header, rows[r])) && (v.Eligible? ==> DeletionIs(v.item, header, rows[r]))
              && (Refused(v) <==> Excluded(header, rows[r]))
              && (Refused(v) ==> ExclusionIs(v.why, header, rows[r]) && (v.Incomplete? <==> v.why.reason.Lacks?))
    {
      JudgeMeans(header, rows[r]);
    }
  }

  predicate Refused(v: Verdict) {
    v.Failed? || v.Incomplete?
  }

  predicate DeletionsAt(verdicts: seq<Verdict>, deletions: seq<Deletion>, places: seq<nat>) {
    && Ascending(places, |verdicts|) && (forall r: nat :: r < |verdicts| ==> (r in places <==> verdicts[r].Eligible?))
    && |deletions| == |places| && forall k :: 0 <= k < |places| ==> verdicts[places[k]] == Eligible(deletions[k])
  }

  predicate RefusalsAt(verdicts: seq<Verdict>, excluded: seq<Exclusion>, places: seq<nat>) {
    && Ascending(places, |verdicts|) && (forall r: nat :: r < |verdicts| ==> (r in places <==> Refused(verdicts[r])))
    && |excluded| == |places| && forall k :: 0 <= k < |places| ==> Refused(verdicts[places[k]]) && verdicts[places[k]].why == excluded[k]
  }

  lemma DeletionsNext(front: seq<Verdict>, deletions: seq<Deletion>, places: seq<nat>, v: Verdict)
    requires DeletionsAt(front, deletions, places)
    ensures v.Eligible? ==> DeletionsAt(front + [v], deletions + [v.item], places + [|front|])
    ensures !v.Eligible? ==> DeletionsAt(front + [v], deletions, places)
  {
  }

  lemma RefusalsNext(front: seq<Verdict>, excluded: seq<Exclusion>, places: seq<nat>, v: Verdict)
    requires RefusalsAt(front, excluded, places)
    ensures Refused(v) ==> RefusalsAt(front + [v], excluded + [v.why], places + [|front|])
    ensures !Refused(v) ==> RefusalsAt(front + [v], excluded, places)
  {
  }

  lemma ListsNext(front: seq<Verdict>, v: Verdict)
    ensures Deletions(front + [v]) == if v.Eligible? then Deletions(front) + [v.item] else Deletions(front)
    ensures Exclusions(front + [v]) == if Refused(v) then Exclusions(front) + [v.why] else Exclusions(front)
  {
    assert (front + [v])[..|front|] == front;
  }

  lemma DeletionsStep(verdicts: seq<Verdict>, before: seq<nat>) returns (places: seq<nat>)
    requires verdicts != []
    requires var front := verdicts[..|verdicts| - 1]; DeletionsAt(front, Deletions(front), before)
    ensures DeletionsAt(verdicts, Deletions(verdicts), places)
  {
    var front, last := verdicts[..|verdicts| - 1], verdicts[|verdicts| - 1];
    assert verdicts == front + [last];
    DeletionsNext(front, Deletions(front), before, last);
    ListsNext(front, last);
    places := if last.Eligible? then before + [|front|] else before;
  }

  lemma RefusalsStep(verdicts: seq<Verdict>, before: seq<nat>) returns (places: seq<nat>)
    requires verdicts != []
    requires var front := verdicts[..|verdicts| - 1]; RefusalsAt(front, Exclusions(front), before)
    ensures RefusalsAt(verdicts, Exclusions(verdicts), places)
  {
    var front, last := verdicts[..|verdicts| - 1], verdicts[|verdicts| - 1];
    assert verdicts == front + [last];
    RefusalsNext(front, Exclusions(front), before, last);
    ListsNext(front, last);
    places := if Refused(last) then before + [|front|] else before;
  }

  lemma {:induction false} DeletionPlaces(verdicts: seq<Verdict>) returns (places: seq<nat>)
    ensures DeletionsAt(verdicts, Deletions(verdicts), places)
  {
    if verdicts == [] {
      places := [];
    } else {
      places := DeletionPlaces(verdicts[..|verdicts| - 1]);
      places := DeletionsStep(verdicts, places);
    }
  }

  lemma {:induction false} ExclusionPlaces(verdicts: seq<Verdict>) returns (places: seq<nat>)
    ensures RefusalsAt(verdicts, Exclusions(verdicts), places)
  {
    if verdicts == [] {
      places := [];
    } else {
      places := ExclusionPlaces(verdicts[..|verdicts| - 1]);
      places := RefusalsStep(verdicts, places);
    }
  }

  lemma ResultsTold(header: seq<Cell>, rows: seq<seq<Cell>>) returns (places: seq<nat>)
    ensures ResultsAt(header, rows, Deletions(Verdicts(header, rows)), places)
  {
    VerdictsMean(header, rows);
    places := DeletionPlaces(Verdicts(header, rows));
  }

  lemma ExclusionsTold(header: seq<Cell>, rows: seq<seq<Cell>>) returns (places: seq<nat>)
    ensures ExclusionsAt(header, rows, Exclusions(Verdicts(header, rows)), places)
  {
    VerdictsMean(header, rows);
    places := ExclusionPlaces(Verdicts(header, rows));
  }

  lemma OneMore(results: seq<Deletion>, d: Deletion, status: string)
    ensures |WithStatus(results + [d], status)| == |WithStatus(results, status)| + if d.status == status then 1 else 0
  {
    var more := results + [d];
    if d.status == status {
      assert WithStatus(more, status) == WithStatus(results, status) + {|results|};
    } else {
      assert WithStatus(more, status) == WithStatus(results, status);
    }
  }

  lemma OneMoreExcluded(excluded: seq<Exclusion>, e: Exclusion)
    ensures |Lacking(excluded + [e])| == |Lacking(excluded)| + if e.reason.Lacks? then 1 else 0
  {
    var more := excluded + [e];
    if e.reason.Lacks? {
      assert Lacking(more) == Lacking(excluded) + {|excluded|};
    } else {
      assert Lacking(more) == Lacking(excluded);
    }
  }

  ghost predicate Countable(v: Verdict) {
    && (v.Eligible? ==> v.item.status == "Copied" || v.item.status == "Skipped")
    && (Refused(v) ==> (v.Incomplete? <==> v.why.reason.Lacks?))
  }

  lemma StatsNext(front: seq<Verdict>, v: Verdict)
    ensures StatsOf(front + [v]) ==
      var s := StatsOf(front);
      Stats(s.total + (if v.Ignored? then 0 else 1), s.eligible + (if v.Eligible? then 1 else 0),
            s.copied + (if v.Eligible? && v.item.status == "Copied" then 1 else 0),
            s.skipped + (if v.Eligible? && v.item.status != "Copied" then 1 else 0),
            s.failed + (if v.Failed? then 1 else 0), s.incomplete + (if v.Incomplete? then 1 else 0))
  {
    assert (front + [v])[..|front|] == front;
  }

  lemma StatsStep(front: seq<Verdict>, v: Verdict)
    requires StatsTell(StatsOf(front), Deletions(front), Exclusions(front)) && Countable(v)
    ensures StatsTell(StatsOf(front + [v]), Deletions(front + [v]), Exclusions(front + [v]))
  {
    StatsNext(front, v);
    ListsNext(front, v);
    if v.Eligible? {
      OneMore(Deletions(front), v.item, "Copied");
      OneMore(Deletions(front), v.item, "Skipped");
    } else if Refused(v) {
      OneMoreExcluded(Exclusions(front), v.why);
    }
  }

  lemma {:induction false} VerdictsCounted(verdicts: seq<Verdict>)
    requires forall r :: 0 <= r < |verdicts| ==> Countable(verdicts[r])
    ensures StatsTell(StatsOf(verdicts), Deletions(verdicts), Exclusions(verdicts))
  {
    if verdicts != [] {
      var front, last := verdicts[..|verdicts| - 1], verdicts[|verdicts| - 1];
      VerdictsCounted(front);
      StatsStep(front, last);
      assert verdicts == front + [last];
    } else {
      assert WithStatus(Deletions(verdicts), "Copied") == {} && WithStatus(Deletions(verdicts), "Skipped") == {};
      assert Lacking(Exclusions(verdicts)) == {};
    }
  }

  lemma StatsTold(header: seq<Cell>, rows: seq<seq<Cell>>)
    ensures var v := Verdicts(header, rows); StatsTell(StatsOf(v), Deletions(v), Exclusions(v))
  {
    VerdictsMean(header, rows);
    VerdictsCounted(Verdicts(header, rows));
  }

  lemma FourColumns(header: seq<Cell>)
    ensures HasColumns(header, DELETE_COLUMNS)
       <==> && ColumnOf(header, "bucket").Some? && ColumnOf(header, "key").Some?
            && ColumnOf(header, "destination url").Some? && ColumnOf(header, "status").Some?
  {
    assert DELETE_COLUMNS[0] == "bucket" && DELETE_COLUMNS[1] == "key" && DELETE_COLUMNS[2] == "destination url" && DELETE_COLUMNS[3] == "status";
  }

  lemma RequiredNames()
    ensures Word("bucket") && Word("key") && Word("destination url") && Word("status")
  {
  }

  lemma ColumnMissing(header: seq<Cell>, name: string)
    requires Word(name)
    ensures ColumnOf(header, name).None? <==> NoColumn(header, name)
  {
    ColumnExactly(header, name);
  }

  /** The reader refuses a sheet if and only if no header reads one of the four names. */
  lemma RefusedExactly(sheet: Sheet)
    requires sheet != [] && sheet[0] != []
    ensures ParseForDelete(sheet).None?
       <==> || NoColumn(sheet[0], "bucket") || NoColumn(sheet[0], "key")
            || NoColumn(sheet[0], "destination url") || NoColumn(sheet[0], "status")
  {
    RequiredNames();
    ColumnMissing(sheet[0], "bucket");
    ColumnMissing(sheet[0], "key");
    ColumnMissing(sheet[0], "destination url");
    ColumnMissing(sheet[0], "status");
    FourColumns(sheet[0]);
  }

  /** What is read for deletion from any sheet with the columns: exactly the rows whose status reads copied or
      skipped and that name bucket, key and destination, in order, with these values; every other row that is
      not blank is excluded for the reason its cells give; and the counts count these lists.  A sheet without a
      header gives nothing. */
  lemma DeletionRule(sheet: Sheet)
    requires ParseForDelete(sheet).Some?
    ensures var d := ParseForDelete(sheet).value;
            if sheet == [] || sheet[0] == [] then d == DeleteDetails([], Stats(0, 0, 0, 0, 0, 0), [])
            else Tells(sheet[0], sheet[1..], d)
  {
    if sheet != [] && sheet[0] != [] {
      var header, rows := sheet[0], sheet[1..];
      var kept := ResultsTold(header, rows);
      var refused := ExclusionsTold(header, rows);
      StatsTold(header, rows);
    }
  }

  // ---------------------------------------------------------------- rows for repointing

  /** Not empty; a zero counts as a value here. */
  predicate Present(c: Cell) {
    c != Blank && c != Text("")
  }

  /** All five values of an update are there. */
  predicate Complete(header: seq<Cell>, row: seq<Cell>) {
    && Present(Value(header, row, "source path")) && Present(Value(header, row, "destination url"))
    && Present(Value(header, row, "table")) && Present(Value(header, row, "column")) && Present(Value(header, row, "row id"))
  }

  ghost predicate Usable(header: seq<Cell>, row: seq<Cell>) {
    HasCell(row) && Migrated(header, row) && Complete(header, row)
  }

  predicate RepointingIs(r: Repointing, header: seq<Cell>, row: seq<Cell>) {
    && r.source == Value(header, row, "source path") && r.url == Value(header, row, "destination url")
    && r.table == Value(header, row, "table") && r.column == Value(header, row, "column") && r.rowId == Value(header, row, "row id")
  }

  /** The items are the usable rows, in order. */
  ghost predicate ItemsAt(header: seq<Cell>, rows: seq<seq<Cell>>, items: seq<Repointing>, places: seq<nat>) {
    && Ascending(places, |rows|) && (forall r: nat :: r < |rows| ==> (r in places <==> Usable(header, rows[r])))
    && |items| == |places| && forall k :: 0 <= k < |places| ==> RepointingIs(items[k], header, rows[places[k]])
  }

  /** The rows that pass a test. */
  ghost function Picked(rows: seq<seq<Cell>>, test: seq<Cell> -> bool): set<nat> {
    set r: nat | r < |rows| && test(rows[r])
  }

  ghost function NotBlank(): seq<Cell> -> bool {
    row => HasCell(row)
  }

  ghost function Unmigrated(header: seq<Cell>): seq<Cell> -> bool {
    row => HasCell(row) && !Migrated(header, row)
  }

  ghost function Unfilled(header: seq<Cell>): seq<Cell> -> bool {
    row => HasCell(row) && Migrated(header, row) && !Complete(header, row)
  }

  ghost predicate UpdateStatsTell(header: seq<Cell>, rows: seq<seq<Cell>>, s: UpdateStats, items: seq<Repointing>) {
    && s.total == |Picked(rows, NotBlank())| && s.eligible == |items|
    && s.failed == |Picked(rows, Unmigrated(header))| && s.incomplete == |Picked(rows, Unfilled(header))|
  }

  lemma UpdateJudged(header: seq<Cell>, row: seq<Cell>)
    ensures var v := JudgeUpdate(BlankRow(row), Value(header, row, "status"), ItemOf(header, row));
            && (v.Ignore? <==> !HasCell(row))
            && (v.Use? <==> Usable(header, row)) && (v.Use? ==> RepointingIs(v.item, header, row))
            && (v.NotCopied? <==> HasCell(row) && !Migrated(header, row))
            && (v.Unfinished? <==> HasCell(row) && Migrated(header, row) && !Complete(header, row))
  {
    Statuses(header, row);
  }

  predicate UsesAt(verdicts: seq<UpdateVerdict>, items: seq<Repointing>, places: seq<nat>) {
    && Ascending(places, |verdicts|) && (forall r: nat :: r < |verdicts| ==> (r in places <==> verdicts[r].Use?))
    && |items| == |places| && forall k :: 0 <= k < |places| ==> verdicts[places[k]] == Use(items[k])
  }

  lemma UsesNext(front: seq<UpdateVerdict>, items: seq<Repointing>, places: seq<nat>, v: UpdateVerdict)
    requires UsesAt(front, items, places)
    ensures v.Use? ==> UsesAt(front + [v], items + [v.item], places + [|front|])
    ensures !v.Use? ==> UsesAt(front + [v], items, places)
  {
  }

  lemma RepointingsNext(front: seq<UpdateVerdict>, v: UpdateVerdict)
    ensures Repointings(front + [v]) == if v.Use? then Repointings(front) + [v.item] else Repointings(front)
  {
    assert (front + [v])[..|front|] == front;
  }

  lemma {:induction false} UsePlaces(verdicts: seq<UpdateVerdict>) returns (places: seq<nat>)
    ensures UsesAt(verdicts, Repointings(verdicts), places)
  {
    places := [];
    if verdicts != [] {
      var front, last := verdicts[..|verdicts| - 1], verdicts[|verdicts| - 1];
      places := UsePlaces(front);
      UsesNext(front, Repointings(front), places, last);
      RepointingsNext(front, last);
      assert verdicts == front + [last];
      if last.Use? {
        places := places + [|front|];
      }
    }
  }

  lemma ItemsTold(header: seq<Cell>, rows: seq<seq<Cell>>) returns (places: seq<nat>)
    ensures ItemsAt(header, rows, Repointings(UpdateVerdicts(header, rows)), places)
  {
    var v := UpdateVerdicts(header, rows);
    forall r | 0 <= r < |rows|
      ensures (v[r].Use? <==> Usable(header, rows[r])) && (v[r].Use? ==> RepointingIs(v[r].item, header, rows[r]))
    {
      UpdateJudged(header, rows[r]);
    }
    places := UsePlaces(v);
  }

  lemma PickedNext(front: seq<seq<Cell>>, row: seq<Cell>, test: seq<Cell> -> bool)
    ensures |Picked(front + [row], test)| == |Picked(front, test)| + if test(row) then 1 else 0
  {
    if test(row) {
      assert Picked(front + [row], test) == Picked(front, test) + {|front|};
    } else {
      assert Picked(front + [row], test) == Picked(front, test);
    }
  }

  lemma UpdateVerdictsNext(header: seq<Cell>, front: seq<seq<Cell>>, row: seq<Cell>)
    ensures UpdateVerdicts(header, front + [row])
         == UpdateVerdicts(header, front) + [JudgeUpdate(BlankRow(row), Value(header, row, "status"), ItemOf(header, row))]
  {
  }

  lemma UpdateStatsNext(front: seq<UpdateVerdict>, v: UpdateVerdict)
    ensures UpdateStatsOf(front + [v]) ==
      var s := UpdateStatsOf(front);
      UpdateStats(s.total + (if v.Ignore? then 0 else 1), s.eligible + (if v.Use? then 1 else 0),
                  s.failed + (if v.NotCopied? then 1 else 0), s.incomplete + (if v.Unfinished? then 1 else 0))
  {
    assert (front + [v])[..|front|] == front;
  }

  lemma {:induction false} UpdateStatsTold(header: seq<Cell>, rows: seq<seq<Cell>>)
    ensures var v := UpdateVerdicts(header, rows); UpdateStatsTell(header, rows, UpdateStatsOf(v), Repointings(v))
  {
    if rows == [] {
      assert forall test: seq<Cell> -> bool :: Picked(rows, test) == {};
    } else {
      var front, last := rows[..|rows| - 1], rows[|rows| - 1];
      assert rows == front + [last];
      UpdateStatsTold(header, front);
      var before := UpdateVerdicts(header, front);
      var v := JudgeUpdate(BlankRow(last), Value(header, last, "status"), ItemOf(header, last));
      UpdateVerdictsNext(header, front, last);
      UpdateStatsNext(before, v);
      RepointingsNext(before, v);
      UpdateJudged(header, last);
      PickedNext(front, last, NotBlank());
      PickedNext(front, last, Unmigrated(header));
      PickedNext(front, last, Unfilled(header));
    }
  }

  lemma SixColumns(header: seq<Cell>)
    ensures HasColumns(header, UPDATE_COLUMNS)
       <==> && ColumnOf(header, "source path").Some? && ColumnOf(header, "destination url").Some? && ColumnOf(header, "table").Some?
            && ColumnOf(header, "column").Some? && ColumnOf(header, "row id").Some? && ColumnOf(header, "status").Some?
  {
    assert UPDATE_COLUMNS[0] == "source path" && UPDATE_COLUMNS[1] == "destination url" && UPDATE_COLUMNS[2] == "table";
    assert UPDATE_COLUMNS[3] == "column" && UPDATE_COLUMNS[4] == "row id" && UPDATE_COLUMNS[5] == "status";
  }

  lemma MoreRequiredNames()
    ensures Word("source path") && Word("table") && Word("column") && Word("row id")
  {
  }

  /** The other reader refuses a sheet if and only if no header reads one of its six names. */
  lemma UpdateRefusedExactly(sheet: Sheet)
    requires sheet != [] && sheet[0] != []
    ensures ParseForUpdate(sheet).None?
       <==> || NoColumn(sheet[0], "source path") || NoColumn(sheet[0], "destination url") || NoColumn(sheet[0], "table")
            || NoColumn(sheet[0], "column") || NoColumn(sheet[0], "row id") || NoColumn(sheet[0], "status")
  {
    RequiredNames();
    MoreRequiredNames();
    ColumnMissing(sheet[0], "source path");
    ColumnMissing(sheet[0], "destination url");
    ColumnMissing(sheet[0], "table");
    ColumnMissing(sheet[0], "column");
    ColumnMissing(sheet[0], "row id");
    ColumnMissing(sheet[0], "status");
    SixColumns(sheet[0]);
  }

  /** What is read for repointing from any sheet with the columns: exactly the rows whose status reads copied
      or skipped and that have all five values, in order, with these values; the counts are the numbers of
      rows that are not blank, used, not migrated, and migrated but incomplete. */
  lemma UpdateRule(sheet: Sheet) returns (places: seq<nat>)
    requires ParseForUpdate(sheet).Some? && sheet != [] && sheet[0] != []
    ensures var (items, stats) := ParseForUpdate(sheet).value;
            ItemsAt(sheet[0], sheet[1..], items, places) && UpdateStatsTell(sheet[0], sheet[1..], stats, items)
  {
    places := ItemsTold(sheet[0], sheet[1..]);
    UpdateStatsTold(sheet[0], sheet[1..]);
  }
}
