/** The line forms of a dump that the filter reads and rewrites, told by their text. */
module DumpForms {
  import opened Basics
  import opened DumpFilter
  import opened PyStrings

  // ---------------------------------------------------------------- statements

  lemma {:induction false} UptoTickIs(s: string)
    ensures var r := UptoTick(s); '`' !in r && (|r| < |s| ==> s[|r|] == '`')
  {
    if s != "" && s[0] != '`' {
      UptoTickIs(s[1..]);
    }
  }

  lemma {:induction false} UptoTickOf(name: string, rest: string)
    requires '`' !in name
    ensures UptoTick(name + "`" + rest) == name
  {
    var s := name + "`" + rest;
    if name != "" {
      assert s[0] == name[0] && name[0] in name;
      assert s[1..] == name[1..] + "`" + rest;
      UptoTickOf(name[1..], rest);
    }
  }

  /** The text before the first backtick. */
  lemma QuotedExactly(s: string, name: string)
    ensures Quoted(s) == Some(name) <==> name != "" && '`' !in name && name + "`" <= s
  {
    if name != "" && '`' !in name && name + "`" <= s {
      assert s == name + "`" + s[|name| + 1..];
      UptoTickOf(name, s[|name| + 1..]);
    }
    if Quoted(s) == Some(name) {
      UptoTickIs(s);
      assert s[..|name| + 1] == name + "`";
    }
  }

  /** A line that drops, creates or fills the table. */
  predicate Names(line: string, name: string) {
    && name != "" && '`' !in name
    && (|| "DROP TABLE IF EXISTS `" + name + "`;" <= line
        || "CREATE TABLE `" + name + "`" <= line
        || "INSERT INTO `" + name + "`" <= line)
  }

  lemma HeadAndTail(line: string, head: string, tail: string)
    ensures head + tail <= line <==> head <= line && tail <= line[|head|..]
  {
    if head + tail <= line {
      assert line[..|head|] == (head + tail)[..|head|];
      assert line[|head|..][..|tail|] == (head + tail)[|head|..];
    }
  }

  lemma DropNameExactly(rest: string, name: string)
    ensures DropName(rest) == Some(name) <==> name != "" && '`' !in name && name + "`;" <= rest
  {
    QuotedExactly(rest, name);
    assert name + "`;" == (name + "`") + ";";
    HeadAndTail(rest, name + "`", ";");
    if Quoted(rest).Some? {
      QuotedExactly(rest, Quoted(rest).value);
    }
  }

  lemma HeadsDiffer(line: string)
    ensures !(DROP <= line && CREATE <= line) && !(DROP <= line && INSERT <= line) && !(CREATE <= line && INSERT <= line)
  {
    assert DROP[0] == 'D' && CREATE[0] == 'C' && INSERT[0] == 'I';
  }

  /** A line names a table if and only if it begins with one of the three statements for it. */
  lemma TableNamed(line: string, name: string)
    ensures TableFromLine(line) == Some(name) <==> Names(line, name)
  {
    HeadsDiffer(line);
    StatementHead(line, DROP, name, "`;");
    StatementHead(line, CREATE, name, "`");
    StatementHead(line, INSERT, name, "`");
    if DROP <= line {
      DropNameExactly(line[|DROP|..], name);
    }
    if CREATE <= line {
      QuotedExactly(line[|CREATE|..], name);
    }
    if INSERT <= line {
      QuotedExactly(line[|INSERT|..], name);
    }
  }

  lemma StatementHead(line: string, head: string, name: string, close: string)
    ensures head + name + close <= line <==> head <= line && name + close <= line[|head|..]
  {
    assert head + name + close == head + (name + close);
    HeadAndTail(line, head, name + close);
  }

  // ---------------------------------------------------------------- markers

  /** A marker for the table: its name ends the line, but for blanks. */
  ghost predicate Marks(line: string, name: string) {
    && "-- Table structure for " + name <= line && name != "" && name[0] != '\n'
    && AllBlank(line[|"-- Table structure for "| + |name|..])
    && (|name| == 1 || !IsSpace(name[|name| - 1]))
  }

  /** The shortest beginning, of one character at least, that only blanks follow. */
  predicate Lead(rest: string, name: string) {
    name <= rest && name != "" && AllBlank(rest[|name|..]) && (|name| == 1 || !IsSpace(name[|name| - 1]))
  }

  lemma LeadIsRead(rest: string, name: string)
    requires Lead(rest, name)
    ensures name == if TrimRight(rest) == "" then rest[..1] else TrimRight(rest)
  {
    assert rest == name + rest[|name|..];
    TrimRightBlank(name, rest[|name|..]);
    assert |name| == 1 ==> TrimRight(name[..0]) == "";
  }

  lemma ReadIsLead(rest: string)
    requires rest != ""
    ensures Lead(rest, if TrimRight(rest) == "" then rest[..1] else TrimRight(rest))
  {
    TrimRightParts(rest);
    if TrimRight(rest) == "" {
      assert forall i :: 0 <= i < |rest[1..]| ==> rest[1..][i] == rest[0..][i + 1];
    }
  }

  /** A line is a marker for a table if and only if it ends in the table's name. */
  lemma MarkerExactly(line: string, name: string)
    ensures MarkerName(line) == Some(name) <==> Marks(line, name)
  {
    assert MARKER == "-- Table structure for ";
    HeadAndTail(line, MARKER, name);
    if MARKER <= line {
      var rest := line[|MARKER|..];
      if Lead(rest, name) {
        LeadIsRead(rest, name);
      }
      if rest != "" {
        ReadIsLead(rest);
      }
      if MARKER + name <= line {
        assert line[|MARKER|..][|name|..] == line[|MARKER| + |name|..];
      }
    }
  }

  // ---------------------------------------------------------------- substitutions

  predicate OccursAt(s: string, t: string, i: int) {
    0 <= i && i + |t| <= |s| && s[i..i + |t|] == t
  }

  ghost predicate Absent(s: string, t: string) {
    forall i :: !OccursAt(s, t, i)
  }

  lemma AbsentTail(s: string, t: string)
    requires s != "" && Absent(s, t)
    ensures Absent(s[1..], t)
  {
    forall i
      ensures !OccursAt(s[1..], t, i)
    {
      if OccursAt(s[1..], t, i) {
        assert s[1..][i..i + |t|] == s[i + 1..i + 1 + |t|];
        assert OccursAt(s, t, i + 1);
      }
    }
  }

  /** Where the text does not occur nothing is replaced. */
  lemma {:induction false} ReplaceNothing(s: string, from: string, to: string)
    requires from != "" && Absent(s, from)
    ensures Replace(s, from, to) == s
  {
    if s != "" {
      assert !OccursAt(s, from, 0);
      AbsentTail(s, from);
      ReplaceNothing(s[1..], from, to);
    }
  }

  lemma LeftmostTail(s: string, from: string, p: nat)
    requires p > 0 && OccursAt(s, from, p) && forall i :: 0 <= i < p ==> !OccursAt(s, from, i)
    ensures s != "" && OccursAt(s[1..], from, p - 1) && forall i :: 0 <= i < p - 1 ==> !OccursAt(s[1..], from, i)
  {
    var rest := s[1..];
    assert rest[p - 1..p - 1 + |from|] == s[p..p + |from|];
    forall i | 0 <= i < p - 1
      ensures !OccursAt(rest, from, i)
    {
      assert !OccursAt(s, from, i + 1);
      assert i + 1 + |from| <= |s| ==> rest[i..i + |from|] == s[i + 1..i + 1 + |from|];
    }
  }

  lemma NotHere(s: string, from: string, to: string)
    requires from != "" && s != "" && !OccursAt(s, from, 0)
    ensures Replace(s, from, to) == [s[0]] + Replace(s[1..], from, to)
  {
  }

  lemma Here(s: string, from: string, to: string)
    requires from != "" && OccursAt(s, from, 0)
    ensures Replace(s, from, to) == to + Replace(s[|from|..], from, to)
  {
    assert s[0..|from|] == s[..|from|];
  }

  lemma OneFurther(s: string, p: nat, n: nat)
    requires 0 < p && p + n <= |s|
    ensures [s[0]] + s[1..][..p - 1] == s[..p] && s[1..][p - 1 + n..] == s[p + n..]
  {
  }

  lemma {:induction false} ReplaceUpTo(s: string, from: string, to: string, p: nat, rest: string)
    requires from != "" && OccursAt(s, from, p) && forall i :: 0 <= i < p ==> !OccursAt(s, from, i)
    requires rest == to + Replace(s[p + |from|..], from, to)
    ensures Replace(s, from, to) == s[..p] + rest
  {
    if p == 0 {
      Here(s, from, to);
    } else {
      OneFurther(s, p, |from|);
      LeftmostTail(s, from, p);
      ReplaceUpTo(s[1..], from, to, p - 1, rest);
      NotHere(s, from, to);
    }
  }

  /** Otherwise the leftmost occurrence is, and then what follows it. */
  lemma ReplaceLeftmost(s: string, from: string, to: string, p: nat)
    requires from != "" && OccursAt(s, from, p) && forall i :: 0 <= i < p ==> !OccursAt(s, from, i)
    ensures Replace(s, from, to) == s[..p] + (to + Replace(s[p + |from|..], from, to))
  {
    ReplaceUpTo(s, from, to, p, to + Replace(s[p + |from|..], from, to));
  }

  lemma FirstThenRest(line: string, first: Substitution, rest: seq<Substitution>)
    requires first.from != "" && forall i :: 0 <= i < |rest| ==> rest[i].from != ""
    ensures ReplaceAll(line, [first] + rest) == ReplaceAll(Replace(line, first.from, first.to), rest)
  {
    assert ([first] + rest)[1..] == rest;
  }

  lemma ThreeInTurn(line: string, a: Substitution, b: Substitution, c: Substitution, rest: seq<Substitution>)
    requires a.from != "" && b.from != "" && c.from != "" && forall i :: 0 <= i < |rest| ==> rest[i].from != ""
    ensures ReplaceAll(line, [a] + ([b] + ([c] + rest)))
         == ReplaceAll(Replace(Replace(Replace(line, a.from, a.to), b.from, b.to), c.from, c.to), rest)
  {
    FirstThenRest(line, a, [b] + ([c] + rest));
    FirstThenRest(Replace(line, a.from, a.to), b, [c] + rest);
    FirstThenRest(Replace(Replace(line, a.from, a.to), b.from, b.to), c, rest);
  }

  /** What the six substitutions are, and in which order. */
  lemma NormalizeExactly(line: string)
    ensures NormalizeLine(line)
         == Replace(Replace(Replace(Replace(Replace(Replace(line,
              "ROW_FORMAT = Compact", "ROW_FORMAT = Dynamic"),
              "ROW_FORMAT=Compact", "ROW_FORMAT=Dynamic"),
              "ROW_FORMAT = COMPACT", "ROW_FORMAT = DYNAMIC"),
              "ROW_FORMAT=COMPACT", "ROW_FORMAT=DYNAMIC"),
              "utf8mb4_0900_ai_ci", "utf8mb4_unicode_ci"),
              "utf8mb4_0900_bin", "utf8mb4_bin")
  {
    var s := SUBSTITUTIONS;
    var half := Replace(Replace(Replace(line, s[0].from, s[0].to), s[1].from, s[1].to), s[2].from, s[2].to);
    ThreeInTurn(line, s[0], s[1], s[2], [s[3]] + ([s[4]] + ([s[5]] + [])));
    ThreeInTurn(half, s[3], s[4], s[5], []);
    assert s == [s[0]] + ([s[1]] + ([s[2]] + ([s[3]] + ([s[4]] + ([s[5]] + [])))));
  }

  // ---------------------------------------------------------------- nothing old is left

  /** The texts differ at a place that both have. */
  predicate Clash(a: string, b: string) {
    exists m :: 0 <= m < |a| && m < |b| && a[m] != b[m]
  }

  /** No occurrence of `pat` overlaps a copy of `to`. */
  ghost predicate Apart(pat: string, to: string) {
    && pat != "" && to != ""
    && (forall d :: 0 <= d < |pat| ==> Clash(to, pat[d..]))
    && (forall i :: 0 <= i < |to| ==> Clash(to[i..], pat))
  }

  /** Of two texts that clash at most one begins a third. */
  lemma OneBegins(a: string, b: string, s: string)
    requires Clash(a, b) && a <= s
    ensures !(b <= s)
  {
  }

  /** What begins the result without meeting a replacement begins the text. */
  lemma {:induction false} PrefixOfResult(s: string, from: string, to: string, w: string)
    requires from != "" && forall d :: 0 <= d < |w| ==> Clash(to, w[d..])
    ensures w <= Replace(s, from, to) ==> w <= s
  {
    if w != "" && s != "" {
      if from <= s {
        assert w[0..] == w;
        OneBegins(to, w, Replace(s, from, to));
      } else {
        assert forall d :: 0 <= d < |w[1..]| ==> w[1..][d..] == w[d + 1..];
        PrefixOfResult(s[1..], from, to, w[1..]);
        BeginsWith(w, s[0], Replace(s[1..], from, to));
        BeginsWith(w, s[0], s[1..]);
        assert [s[0]] + s[1..] == s;
      }
    }
  }

  lemma BeginsWith(w: string, c: char, rest: string)
    requires w != ""
    ensures w <= [c] + rest <==> w[0] == c && w[1..] <= rest
  {
    assert ([c] + rest)[1..] == rest;
  }

  lemma OccursInTail(a: string, b: string, t: string, i: int)
    requires |a| <= i
    ensures OccursAt(a + b, t, i) <==> OccursAt(b, t, i - |a|)
  {
    if i + |t| <= |a| + |b| {
      assert (a + b)[i..i + |t|] == b[i - |a|..i - |a| + |t|];
    }
  }

  lemma OverlapImpossible(to: string, rest: string, pat: string, i: int)
    requires 0 <= i < |to| && Clash(to[i..], pat)
    ensures !OccursAt(to + rest, pat, i)
  {
    var m :| 0 <= m < |to[i..]| && m < |pat| && to[i..][m] != pat[m];
    assert (to + rest)[i + m] == to[i + m];
    if i + |pat| <= |to + rest| {
      assert (to + rest)[i..i + |pat|][m] == (to + rest)[i + m];
    }
  }

  lemma AbsentLater(s: string, t: string, n: nat)
    requires n <= |s| && Absent(s, t)
    ensures Absent(s[n..], t)
  {
    forall i
      ensures !OccursAt(s[n..], t, i)
    {
      assert s == s[..n] + s[n..];
      if i >= 0 {
        OccursInTail(s[..n], s[n..], t, i + n);
      }
    }
  }

  /** A text that is absent, or is what is replaced, is absent from the result. */
  lemma {:induction false} NoneAt(s: string, from: string, to: string, pat: string, i: int)
    requires from != "" && Apart(pat, to) && (pat == from || Absent(s, pat))
    ensures !OccursAt(Replace(s, from, to), pat, i)
    decreases |s|
  {
    if s != "" && i >= 0 {
      if from <= s {
        var rest := s[|from|..];
        if i < |to| {
          OverlapImpossible(to, Replace(rest, from, to), pat, i);
        } else {
          LaterOrSame(s, from, pat, |from|);
          NoneAt(rest, from, to, pat, i - |to|);
          OccursInTail(to, Replace(rest, from, to), pat, i);
        }
      } else if i == 0 {
        PrefixOfResult(s, from, to, pat);
        AtStart(s, pat);
        AtStart(Replace(s, from, to), pat);
      } else {
        LaterOrSame(s, from, pat, 1);
        NoneAt(s[1..], from, to, pat, i - 1);
        OccursInTail([s[0]], Replace(s[1..], from, to), pat, i);
      }
    }
  }

  lemma AtStart(s: string, t: string)
    ensures OccursAt(s, t, 0) <==> t <= s
  {
    if |t| <= |s| {
      assert s[0..|t|] == s[..|t|];
    }
  }

  lemma LaterOrSame(s: string, from: string, pat: string, n: nat)
    requires n <= |s| && (pat == from || Absent(s, pat))
    ensures pat == from || Absent(s[n..], pat)
  {
    if pat != from {
      AbsentLater(s, pat, n);
    }
  }

  ghost predicate AllApart(subs: seq<Substitution>, pat: string) {
    forall j :: 0 <= j < |subs| ==> Apart(pat, subs[j].to)
  }

  lemma {:induction false} AllLeaveNone(line: string, subs: seq<Substitution>, pat: string)
    requires forall j :: 0 <= j < |subs| ==> subs[j].from != ""
    requires AllApart(subs, pat) && (Absent(line, pat) || exists j :: 0 <= j < |subs| && subs[j].from == pat)
    ensures Absent(ReplaceAll(line, subs), pat)
    decreases |subs|
  {
    if subs != [] {
      var next := Replace(line, subs[0].from, subs[0].to);
      if Absent(line, pat) || subs[0].from == pat {
        forall i
          ensures !OccursAt(next, pat, i)
        {
          NoneAt(line, subs[0].from, subs[0].to, pat, i);
        }
      } else {
        var j :| 0 <= j < |subs| && subs[j].from == pat;
        assert subs[1..][j - 1].from == pat;
      }
      AllLeaveNone(next, subs[1..], pat);
    }
  }

  lemma {:induction false} AllAbsentNothing(line: string, subs: seq<Substitution>)
    requires forall j :: 0 <= j < |subs| ==> subs[j].from != "" && Absent(line, subs[j].from)
    ensures ReplaceAll(line, subs) == line
    decreases |subs|
  {
    if subs != [] {
      ReplaceNothing(line, subs[0].from, subs[0].to);
      AllAbsentNothing(line, subs[1..]);
    }
  }

  // The six texts come in two kinds, "ROW_FORMAT..." and "utf8mb4_...".

  /** A row format: "RO" stands only at its beginning, and `c` is the first letter of the format. */
  predicate RowFormat(s: string, c: char) {
    && |s| > 13 && s[0] == 'R' && s[1] == 'O' && ((s[10] == ' ' && s[13] == c) || (s[10] == '=' && s[11] == c))
    && (forall i :: 0 <= i < |s| ==> s[i] != 'u')
    && (forall i :: 1 <= i < |s| && s[i] == 'R' ==> i + 1 < |s| && s[i + 1] != 'O')
  }

  /** A collation: "ut" stands only at its beginning, and `early` tells whether it is of the 0900 family. */
  predicate Collation(s: string, early: bool) {
    && |s| > 8 && s[0] == 'u' && s[1] == 't' && (early <==> s[8] == '0')
    && (forall i :: 0 <= i < |s| ==> s[i] != 'R')
    && (forall i :: 1 <= i < |s| && s[i] == 'u' ==> i + 1 < |s| && s[i + 1] != 't')
  }

  predicate OldText(s: string) {
    RowFormat(s, 'C') || Collation(s, true)
  }

  predicate NewText(s: string) {
    RowFormat(s, 'D') || Collation(s, false)
  }

  lemma ClashAt(a: string, b: string, m: nat)
    requires m < |a| && m < |b| && a[m] != b[m]
    ensures Clash(a, b)
  {
  }

  lemma StartsClash(pat: string, to: string)
    requires OldText(pat) && NewText(to)
    ensures Clash(to, pat)
  {
    if to[0] != pat[0] {
      ClashAt(to, pat, 0);
    } else if to[0] == 'u' {
      ClashAt(to, pat, 8);
    } else if to[10] != pat[10] {
      ClashAt(to, pat, 10);
    } else {
      ClashAt(to, pat, if to[10] == ' ' then 13 else 11);
    }
  }

  lemma LaterClash(head: string, text: string, d: nat)
    requires (OldText(head) || NewText(head)) && (OldText(text) || NewText(text)) && 1 <= d < |text|
    ensures Clash(head, text[d..]) && Clash(text[d..], head)
  {
    var m := if head[0] != text[d] then 0 else 1;
    assert text[d..][m] == text[d + m];
    ClashAt(head, text[d..], m);
    ClashAt(text[d..], head, m);
  }

  lemma OldAndNewApart(pat: string, to: string)
    requires OldText(pat) && NewText(to)
    ensures Apart(pat, to)
  {
    StartsClash(pat, to);
    assert pat[0..] == pat && to[0..] == to;
    forall d | 0 <= d < |pat|
      ensures Clash(to, pat[d..])
    {
      if d > 0 {
        LaterClash(to, pat, d);
      }
    }
    forall i | 0 <= i < |to|
      ensures Clash(to[i..], pat)
    {
      if i > 0 {
        LaterClash(pat, to, i);
      }
    }
  }

  lemma SpacedOld()
    ensures OldText("ROW_FORMAT = Compact") && OldText("ROW_FORMAT = COMPACT")
  {
  }

  lemma SpacedNew()
    ensures NewText("ROW_FORMAT = Dynamic") && NewText("ROW_FORMAT = DYNAMIC")
  {
  }

  lemma UnspacedOld()
    ensures OldText("ROW_FORMAT=Compact") && OldText("ROW_FORMAT=COMPACT")
  {
  }

  lemma UnspacedNew()
    ensures NewText("ROW_FORMAT=Dynamic") && NewText("ROW_FORMAT=DYNAMIC")
  {
  }

  lemma Collations()
    ensures OldText("utf8mb4_0900_ai_ci") && OldText("utf8mb4_0900_bin")
    ensures NewText("utf8mb4_unicode_ci") && NewText("utf8mb4_bin")
  {
  }

  lemma SubstitutionTexts()
    ensures forall j :: 0 <= j < |SUBSTITUTIONS| ==> OldText(SUBSTITUTIONS[j].from) && NewText(SUBSTITUTIONS[j].to)
  {
    SpacedOld();
    SpacedNew();
    UnspacedOld();
    UnspacedNew();
    Collations();
  }

  lemma SubstitutedAway(line: string, j: nat)
    requires j < |SUBSTITUTIONS|
    ensures Absent(NormalizeLine(line), SUBSTITUTIONS[j].from)
  {
    SubstitutionTexts();
    forall k | 0 <= k < |SUBSTITUTIONS|
      ensures Apart(SUBSTITUTIONS[j].from, SUBSTITUTIONS[k].to)
    {
      OldAndNewApart(SUBSTITUTIONS[j].from, SUBSTITUTIONS[k].to);
    }
    AllLeaveNone(line, SUBSTITUTIONS, SUBSTITUTIONS[j].from);
  }

  /** Whatever the line, the normalised one has no compact row format and no 0900 collation of the two. */
  lemma NothingOldLeft(line: string)
    ensures var s := NormalizeLine(line);
            && Absent(s, "ROW_FORMAT = Compact") && Absent(s, "ROW_FORMAT=Compact")
            && Absent(s, "ROW_FORMAT = COMPACT") && Absent(s, "ROW_FORMAT=COMPACT")
            && Absent(s, "utf8mb4_0900_ai_ci") && Absent(s, "utf8mb4_0900_bin")
  {
    SubstitutedAway(line, 0);
    SubstitutedAway(line, 1);
    SubstitutedAway(line, 2);
    SubstitutedAway(line, 3);
    SubstitutedAway(line, 4);
    SubstitutedAway(line, 5);
  }

  /** A normalised line normalises to itself. */
  lemma NormalizeTwice(line: string)
    ensures NormalizeLine(NormalizeLine(line)) == NormalizeLine(line)
  {
    forall j | 0 <= j < |SUBSTITUTIONS|
      ensures Absent(NormalizeLine(line), SUBSTITUTIONS[j].from)
    {
      SubstitutedAway(line, j);
    }
    AllAbsentNothing(NormalizeLine(line), SUBSTITUTIONS);
  }

  // ---------------------------------------------------------------- settings

  lemma {:induction false} Collected(n: nat, keep: nat -> bool, text: nat -> string, line: string)
    ensures line in Collect(n, keep, text) <==> exists i: nat :: i < n && keep(i) && text(i) == line
  {
    if n > 0 {
      Collected(n - 1, keep, text, line);
    }
  }

  predicate IsSet(line: string) {
    "SET NAMES " <= line || "SET FOREIGN_KEY_CHECKS" <= line
  }

  lemma SettingExactly(line: string)
    ensures IsSetting(line) <==> IsSet(line)
  {
  }

  /** Line `i` is written, and reads so. */
  ghost predicate WrittenAs(lines: seq<string>, i: nat, line: string) {
    i < |lines| && !InLogSection(lines, i) && line == NormalizeLine(lines[i]) && !IsSet(line)
  }

  lemma SurvivalMeans(lines: seq<string>, i: nat, line: string)
    ensures i < |lines| && Survival(lines)(i) && Normalized(lines)(i) == line <==> WrittenAs(lines, i, line)
  {
    SettingExactly(line);
  }

  /** The filter writes, after its own header, the normalised lines outside the sections of log tables that
      set neither the names nor the checks. */
  lemma WrittenExactly(lines: seq<string>, line: string)
    ensures line in Surviving(lines, |lines|) <==> exists i: nat :: WrittenAs(lines, i, line)
  {
    var keep, text := Survival(lines), Normalized(lines);
    Collected(|lines|, keep, text, line);
    forall i: nat
      ensures i < |lines| && keep(i) && text(i) == line <==> WrittenAs(lines, i, line)
    {
      SurvivalMeans(lines, i, line);
    }
  }
}
