/** Filtering log tables out of a SQL dump, line by line. */
module DumpFilter {
  import opened Basics
  import opened PyStrings

  /** A line as a text file delivers it: a line feed stands only at its end. */
  predicate IsLine(line: string) {
    line != "" && forall i :: 0 <= i < |line| - 1 ==> line[i] != '\n'
  }

  const MARKER := "-- Table structure for "
  const DROP := "DROP TABLE IF EXISTS `"
  const CREATE := "CREATE TABLE `"
  const INSERT := "INSERT INTO `"

  // ---------------------------------------------------------------- reading a line

  predicate LogHere(s: string) {
    |s| >= 3 && LowerChar(s[0]) == 'l' && LowerChar(s[1]) == 'o' && LowerChar(s[2]) == 'g'
  }

  /** `"log" in s.lower()`. */
  predicate ContainsLog(s: string) {
    s != "" && (LogHere(s) || ContainsLog(s[1..]))
  }

  predicate IsLogTable(table: string) {
    ContainsLog(StripRight(StripLeft(table, '`'), '`'))
  }

  /** The name in a table marker: what follows, without trailing white space but at least one
      character that is no line feed. */
  function MarkerName(line: string): Option<string> {
    if !(MARKER <= line) then None
    else
      var rest := line[|MARKER|..];
      if rest == "" || rest[0] == '\n' then None
      else Some(if TrimRight(rest) == "" then rest[..1] else TrimRight(rest))
  }

  function UptoTick(s: string): (r: string)
    ensures |r| <= |s| && r == s[..|r|]
  {
    if s == "" || s[0] == '`' then "" else [s[0]] + UptoTick(s[1..])
  }

  /** The text before the first backtick, if there is one. */
  function Quoted(s: string): Option<string> {
    var name := UptoTick(s);
    if name != "" && |name| < |s| then Some(name) else None
  }

  /** The name between the backticks after one of the three statement heads. */
  function TableFromLine(line: string): Option<string> {
    if DROP <= line && DropName(line[|DROP|..]).Some? then DropName(line[|DROP|..])
    else if CREATE <= line && Quoted(line[|CREATE|..]).Some? then Quoted(line[|CREATE|..])
    else if INSERT <= line then Quoted(line[|INSERT|..])
    else None
  }

  /** A DROP statement also needs its semicolon right after the name. */
  function DropName(rest: string): Option<string> {
    var name := Quoted(rest);
    if name.Some? && |name.value| + 1 < |rest| && rest[|name.value| + 1] == ';' then name else None
  }

  predicate LogMarker(line: string) {
    MarkerName(line).Some? && IsLogTable(MarkerName(line).value)
  }

  predicate OtherMarker(line: string) {
    MarkerName(line).Some? && !IsLogTable(MarkerName(line).value)
  }

  predicate LogStatement(line: string) {
    TableFromLine(line).Some? && IsLogTable(TableFromLine(line).value)
  }

  // ---------------------------------------------------------------- normalising a line

  /** `s.replace(from, to)`. */
  function Replace(s: string, from: string, to: string): string
    requires from != ""
  {
    if s == "" then ""
    else if from <= s then to + Replace(s[|from|..], from, to)
    else [s[0]] + Replace(s[1..], from, to)
  }

  datatype Substitution = Substitution(from: string, to: string)

  const SUBSTITUTIONS := [
    Substitution("ROW_FORMAT = Compact", "ROW_FORMAT = Dynamic"),
    Substitution("ROW_FORMAT=Compact", "ROW_FORMAT=Dynamic"),
    Substitution("ROW_FORMAT = COMPACT", "ROW_FORMAT = DYNAMIC"),
    Substitution("ROW_FORMAT=COMPACT", "ROW_FORMAT=DYNAMIC"),
    Substitution("utf8mb4_0900_ai_ci", "utf8mb4_unicode_ci"),
    Substitution("utf8mb4_0900_bin", "utf8mb4_bin")
  ]

  function ReplaceAll(line: string, subs: seq<Substitution>): string
    requires forall i :: 0 <= i < |subs| ==> subs[i].from != ""
    decreases |subs|
  {
    if subs == [] then line else ReplaceAll(Replace(line, subs[0].from, subs[0].to), subs[1..])
  }

  function NormalizeLine(line: string): string {
    ReplaceAll(line, SUBSTITUTIONS)
  }

  /** Settings that the new header replaces. */
  predicate IsSetting(normalized: string) {
    "SET NAMES " <= normalized || "SET FOREIGN_KEY_CHECKS" <= normalized
  }

  const HEADER := [
    "-- Fixed for" + " MySQL import: log tables removed, utf8mb4_0900 normalized, ROW_FORMAT Dynamic.\n",
    "SET NAMES utf8mb4;\n",
    "SET FOREIGN_KEY_CHECKS = 0;\n",
    "SET SQL_MODE = 'NO_AUTO_VALUE_ON_ZERO';\n",
    "\n"
  ]

  // ---------------------------------------------------------------- the sections

  /** Something opened at or before `j` that nothing has closed since. */
  ghost predicate Within(opens: int -> bool, closes: int -> bool, j: int) {
    exists i {:trigger opens(i)} :: 0 <= i <= j && opens(i) && forall k :: i < k <= j ==> !closes(k)
  }

  lemma WithinStep(opens: int -> bool, closes: int -> bool, j: nat)
    ensures Within(opens, closes, j) <==> opens(j) || (!closes(j) && j > 0 && Within(opens, closes, j - 1))
  {
  }

  /** Markers and statements that name a log table. */
  function LogLines(lines: seq<string>): int -> bool {
    i => 0 <= i < |lines| && (LogMarker(lines[i]) || LogStatement(lines[i]))
  }

  function OtherMarkers(lines: seq<string>): int -> bool {
    i => 0 <= i < |lines| && OtherMarker(lines[i])
  }

  /** The line belongs to the section of a log table: the section was opened by a marker or a
      statement naming a log table, and no other marker has come since. */
  ghost predicate InLogSection(lines: seq<string>, j: int) {
    0 <= j < |lines| && Within(LogLines(lines), OtherMarkers(lines), j)
  }

  ghost predicate Survives(lines: seq<string>, j: int) {
    0 <= j < |lines| && !InLogSection(lines, j) && !IsSetting(NormalizeLine(lines[j]))
  }

  /** The surviving lines among the first `n`, normalised. */
  ghost function Surviving(lines: seq<string>, n: nat): seq<string>
    requires n <= |lines|
  {
    Collect(n, Survival(lines), Normalized(lines))
  }

  ghost function Survival(lines: seq<string>): nat -> bool {
    (i: nat) => Survives(lines, i)
  }

  function Normalized(lines: seq<string>): nat -> string {
    (i: nat) => if i < |lines| then NormalizeLine(lines[i]) else ""
  }

  /** The texts of the kept numbers below `n`, in order. */
  ghost function Collect(n: nat, keep: nat -> bool, text: nat -> string): seq<string> {
    if n == 0 then [] else Collect(n - 1, keep, text) + if keep(n - 1) then [text(n - 1)] else []
  }

  ghost function SectionLines(lines: seq<string>, n: nat): nat
    requires n <= |lines|
  {
    if n == 0 then 0 else SectionLines(lines, n - 1) + if InLogSection(lines, n - 1) then 1 else 0
  }

  ghost function DroppedSettings(lines: seq<string>, n: nat): nat
    requires n <= |lines|
  {
    if n == 0 then 0
    else DroppedSettings(lines, n - 1) + if !InLogSection(lines, n - 1) && IsSetting(NormalizeLine(lines[n - 1])) then 1 else 0
  }

  ghost function LogNames(line: string): set<string> {
    if LogMarker(line) then {MarkerName(line).value}
    else if LogStatement(line) then {TableFromLine(line).value}
    else {}
  }

  /** A line opens a section, closes one, or stays in the one it follows. */
  lemma SectionStep(lines: seq<string>, j: nat)
    requires j < |lines|
    ensures InLogSection(lines, j) <==>
            LogMarker(lines[j]) || LogStatement(lines[j]) || (!OtherMarker(lines[j]) && j > 0 && InLogSection(lines, j - 1))
  {
    WithinStep(LogLines(lines), OtherMarkers(lines), j);
  }

  /** What happens to a line: it is skipped, naming a log table or not, dropped as a setting, or
      written. */
  datatype Action = SkipNamed(table: string) | Skip | DropSetting | Write(text: string)

  ghost predicate ActionRight(lines: seq<string>, i: int, action: Action)
    requires 0 <= i < |lines|
  {
    match action
    case SkipNamed(table) => InLogSection(lines, i) && LogNames(lines[i]) == {table}
    case Skip => InLogSection(lines, i) && LogNames(lines[i]) == {}
    case DropSetting => !InLogSection(lines, i) && IsSetting(NormalizeLine(lines[i])) && LogNames(lines[i]) == {}
    case Write(text) => Survives(lines, i) && text == NormalizeLine(lines[i]) && LogNames(lines[i]) == {}
  }

  /** One turn of the streaming loop. */
  method Judge(lines: seq<string>, i: nat, skipping: bool) returns (now: bool, action: Action)
    requires i < |lines| && (skipping <==> i > 0 && InLogSection(lines, i - 1))
    ensures now <==> InLogSection(lines, i)
    ensures ActionRight(lines, i, action)
  {
    var line := lines[i];
    SectionStep(lines, i);
    now := skipping;
    var marker := MarkerName(line);
    if marker.Some? {
      now := IsLogTable(marker.value);
      if now {
        return true, SkipNamed(marker.value);
      }
    }
    var table := TableFromLine(line);
    if table.Some? && IsLogTable(table.value) {
      return true, SkipNamed(table.value);
    }
    if now {
      return true, Skip;
    }
    var normalized := NormalizeLine(line);
    if IsSetting(normalized) {
      return false, DropSetting;
    }
    action := Write(normalized);
  }

  ghost function NamesSeen(lines: seq<string>, n: nat): set<string>
    requires n <= |lines|
  {
    Union(n, LogNamesOf(lines))
  }

  ghost function LogNamesOf(lines: seq<string>): nat -> set<string> {
    (i: nat) => if i < |lines| then LogNames(lines[i]) else {}
  }

  ghost function Union(n: nat, sets: nat -> set<string>): set<string> {
    if n == 0 then {} else Union(n - 1, sets) + sets(n - 1)
  }

  lemma {:induction false} UnionMembers(n: nat, sets: nat -> set<string>, x: string)
    ensures x in Union(n, sets) <==> exists i: nat :: i < n && x in sets(i)
  {
    if n > 0 {
      UnionMembers(n - 1, sets, x);
    }
  }

  /** The reported tables are those whose log marker or log statement stands anywhere in the dump. */
  lemma NamesSeenAre(lines: seq<string>, n: nat, table: string)
    requires n <= |lines|
    ensures table in NamesSeen(lines, n) <==> exists i: nat :: i < n && table in LogNames(lines[i])
  {
    UnionMembers(n, LogNamesOf(lines), table);
    assert forall i: nat :: i < n ==> LogNamesOf(lines)(i) == LogNames(lines[i]);
  }

  /** The texts that a list of actions writes, the lines it skips and drops, and the tables it names. */
  function Texts(actions: seq<Action>): seq<string> {
    if actions == [] then []
    else
      var last := actions[|actions| - 1];
      Texts(actions[..|actions| - 1]) + if last.Write? then [last.text] else []
  }

  function Skips(actions: seq<Action>): nat {
    if actions == [] then 0
    else
      var last := actions[|actions| - 1];
      Skips(actions[..|actions| - 1]) + if last.SkipNamed? || last.Skip? then 1 else 0
  }

  function Drops(actions: seq<Action>): nat {
    if actions == [] then 0
    else Drops(actions[..|actions| - 1]) + if actions[|actions| - 1].DropSetting? then 1 else 0
  }

  function Tables(actions: seq<Action>): set<string> {
    if actions == [] then {}
    else
      var last := actions[|actions| - 1];
      Tables(actions[..|actions| - 1]) + if last.SkipNamed? then {last.table} else {}
  }

  /** Every line has exactly one action. */
  lemma {:induction false} ActionsAddUp(actions: seq<Action>)
    ensures |Texts(actions)| + Skips(actions) + Drops(actions) == |actions|
  {
    if actions != [] {
      ActionsAddUp(actions[..|actions| - 1]);
    }
  }

  lemma CountersStep(lines: seq<string>, i: nat, action: Action)
    requires i < |lines| && ActionRight(lines, i, action)
    ensures Surviving(lines, i + 1) == Surviving(lines, i) + if action.Write? then [action.text] else []
    ensures SectionLines(lines, i + 1) == SectionLines(lines, i) + if action.SkipNamed? || action.Skip? then 1 else 0
    ensures DroppedSettings(lines, i + 1) == DroppedSettings(lines, i) + if action.DropSetting? then 1 else 0
    ensures NamesSeen(lines, i + 1) == NamesSeen(lines, i) + if action.SkipNamed? then {action.table} else {}
  {
  }

  ghost predicate ActionsRight(lines: seq<string>, actions: seq<Action>) {
    |actions| <= |lines| && forall i :: 0 <= i < |actions| ==> ActionRight(lines, i, actions[i])
  }

  lemma ActionsNext(lines: seq<string>, actions: seq<Action>, action: Action)
    requires ActionsRight(lines, actions) && |actions| < |lines| && ActionRight(lines, |actions|, action)
    ensures ActionsRight(lines, actions + [action]) && (actions + [action])[..|actions|] == actions
  {
  }

  lemma {:induction false} ActionsDetermine(lines: seq<string>, actions: seq<Action>)
    requires ActionsRight(lines, actions)
    ensures Texts(actions) == Surviving(lines, |actions|) && Tables(actions) == NamesSeen(lines, |actions|)
    ensures Skips(actions) == SectionLines(lines, |actions|) && Drops(actions) == DroppedSettings(lines, |actions|)
  {
    if actions != [] {
      var n := |actions| - 1;
      ActionsDetermine(lines, actions[..n]);
      CountersStep(lines, n, actions[n]);
    }
  }

  /** The bookkeeping of one turn. */
  method Count(action: Action, written: seq<string>, skippedLines: nat, skippedTables: set<string>, ghost actions: seq<Action>)
    returns (written': seq<string>, skippedLines': nat, skippedTables': set<string>)
    requires written == Texts(actions) && skippedLines == Skips(actions) && skippedTables == Tables(actions)
    ensures written' == Texts(actions + [action]) && skippedLines' == Skips(actions + [action])
    ensures skippedTables' == Tables(actions + [action])
  {
    assert (actions + [action])[..|actions|] == actions;
    written', skippedLines', skippedTables' := written, skippedLines, skippedTables;
    match action
    case SkipNamed(table) => skippedTables', skippedLines' := skippedTables + {table}, skippedLines + 1;
    case Skip => skippedLines' := skippedLines + 1;
    case DropSetting =>
    case Write(text) => written' := written + [text];
  }

  /** The streaming loop with its counters.  Every line is skipped, dropped or written. */
  method FilterLines(lines: seq<string>) returns (written: seq<string>, skippedLines: nat, skippedTables: set<string>)
    ensures written == Surviving(lines, |lines|) && skippedLines == SectionLines(lines, |lines|)
    ensures skippedTables == NamesSeen(lines, |lines|)
    ensures |written| + skippedLines + DroppedSettings(lines, |lines|) == |lines|
  {
    written, skippedLines, skippedTables := [], 0, {};
    var skipping := false;
    ghost var actions: seq<Action> := [];
    for i := 0 to |lines|
      invariant skipping <==> i > 0 && InLogSection(lines, i - 1)
      invariant |actions| == i && ActionsRight(lines, actions)
      invariant written == Texts(actions) && skippedLines == Skips(actions) && skippedTables == Tables(actions)
    {
      var action;
      skipping, action := Judge(lines, i, skipping);
      written, skippedLines, skippedTables := Count(action, written, skippedLines, skippedTables, actions);
      ActionsNext(lines, actions, action);
      actions := actions + [action];
    }
    ActionsDetermine(lines, actions);
    ActionsAddUp(actions);
  }

  method FixDump(lines: seq<string>) returns (output: seq<string>, skippedLines: nat, writtenLines: nat, skippedTables: set<string>)
    ensures output == HEADER + Surviving(lines, |lines|)
    ensures skippedLines == SectionLines(lines, |lines|) && writtenLines == |Surviving(lines, |lines|)|
    ensures skippedTables == NamesSeen(lines, |lines|)
    ensures writtenLines + skippedLines + DroppedSettings(lines, |lines|) == |lines|
  {
    var written;
    written, skippedLines, skippedTables := FilterLines(lines);
    output, writtenLines := HEADER + written, |written|;
  }
}
