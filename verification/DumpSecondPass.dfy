/** Filtering a dump that has already been filtered. */
module DumpSecondPass {
  import opened Basics
  import opened DumpFilter
  import opened PyStrings

  /** What the substitutions have in common: the replacement begins like what it replaces, contains
      neither a "g" nor a backtick nor a line feed, and does not end in "l" or "o". */
  predicate Harmless(sub: Substitution) {
    && |sub.from| > 3 && |sub.to| > 3 && sub.to[0] == sub.from[0] && sub.to[3] == sub.from[3]
    && LowerChar(sub.to[0]) != 'o' && LowerChar(sub.to[0]) != 'g' && sub.to[0] != ';'
    && Plain(sub.from) && Plain(sub.to)
    && (forall i :: 0 <= i < |sub.to| ==> LowerChar(sub.to[i]) != 'g')
    && LowerChar(sub.to[|sub.to| - 1]) != 'l' && LowerChar(sub.to[|sub.to| - 1]) != 'o'
    && Blocked(MARKER, sub.from) && Blocked(DROP, sub.from) && Blocked(CREATE, sub.from) && Blocked(INSERT, sub.from)
  }

  predicate Plain(s: string) {
    forall i :: 0 <= i < |s| ==> s[i] != '`' && s[i] != '\n'
  }

  /** No occurrence of `from` begins inside `head`. */
  predicate Blocked(head: string, from: string) {
    |from| > 3 && forall k :: 0 <= k < |head| ==> head[k] != from[3] && (k + 3 >= |head| ==> head[k] != from[0])
  }

  // ---------------------------------------------------------------- looking for "log"

  lemma {:induction false} LogInSuffix(s: string, n: nat)
    requires n <= |s| && ContainsLog(s[n..])
    ensures ContainsLog(s)
  {
    if n > 0 {
      assert s[1..][n - 1..] == s[n..];
      LogInSuffix(s[1..], n - 1);
    } else {
      assert s[0..] == s;
    }
  }

  /** A last character that is no "g" is irrelevant. */
  lemma {:induction false} LogInInit(s: string)
    requires s != "" && LowerChar(s[|s| - 1]) != 'g'
    ensures ContainsLog(s) <==> ContainsLog(s[..|s| - 1])
  {
    var init := s[..|s| - 1];
    if |s| > 1 {
      assert init[1..] == s[1..][..|s[1..]| - 1];
      LogInInit(s[1..]);
      assert LogHere(s) <==> LogHere(init);
    }
  }

  lemma {:induction false} LogTrimmed(s: string)
    ensures ContainsLog(TrimRight(s)) <==> ContainsLog(s)
  {
    if s != "" && IsSpace(s[|s| - 1]) {
      LogInInit(s);
      LogTrimmed(s[..|s| - 1]);
    }
  }

  lemma {:induction false} LogStrippedRight(s: string)
    ensures ContainsLog(StripRight(s, '`')) <==> ContainsLog(s)
  {
    if s != "" && s[|s| - 1] == '`' {
      LogInInit(s);
      LogStrippedRight(s[..|s| - 1]);
    }
  }

  lemma {:induction false} LogStrippedLeft(s: string)
    ensures ContainsLog(StripLeft(s, '`')) <==> ContainsLog(s)
  {
    if s != "" && s[0] == '`' {
      LogStrippedLeft(s[1..]);
    }
  }

  /** Backticks around a name make no difference: a table counts as a log table if and only if its
      name contains "log" anywhere, in whatever case. */
  lemma LogTableWhen(table: string)
    ensures IsLogTable(table) <==> ContainsLog(table)
  {
    LogStrippedLeft(table);
    LogStrippedRight(StripLeft(table, '`'));
  }

  /** So a blog or a catalog is a log table, too. */
  lemma AnyLogIsLogTable(before: string, after: string)
    ensures IsLogTable(before + "log" + after)
  {
    var table := before + "log" + after;
    assert table[|before|..] == "log" + after;
    assert LogHere("log" + after);
    LogInSuffix(table, |before|);
    LogTableWhen(table);
  }

  /** Text without "g" that does not end in "l" or "o" contributes no "log". */
  lemma {:induction false} LogAcross(a: string, b: string)
    requires a != "" && (forall i :: 0 <= i < |a| ==> LowerChar(a[i]) != 'g')
    requires LowerChar(a[|a| - 1]) != 'l' && LowerChar(a[|a| - 1]) != 'o'
    ensures ContainsLog(a + b) ==> ContainsLog(b)
  {
    assert (a + b)[1..] == a[1..] + b;
    if |a| == 1 {
      assert a[1..] + b == b;
    } else {
      LogAcross(a[1..], b);
    }
  }

  /** A replacement creates no "log". */
  lemma {:induction false} ReplaceCreatesNoLog(s: string, sub: Substitution)
    requires Harmless(sub)
    ensures ContainsLog(Replace(s, sub.from, sub.to)) ==> ContainsLog(s)
  {
    if s == "" {
    } else if sub.from <= s {
      var rest := s[|sub.from|..];
      ReplaceCreatesNoLog(rest, sub);
      LogAcross(sub.to, Replace(rest, sub.from, sub.to));
      if ContainsLog(rest) {
        LogInSuffix(s, |sub.from|);
      }
    } else {
      ReplaceCreatesNoLog(s[1..], sub);
      var r := Replace(s, sub.from, sub.to);
      assert r[1..] == Replace(s[1..], sub.from, sub.to);
      if LogHere(r) {
        FirstKept(s[1..], sub, 'o');
        FirstKept(s[2..], sub, 'g');
        assert s[1..][1..] == s[2..];
      }
    }
  }

  /** A first character other than that of the replacement has been there before. */
  lemma FirstKept(s: string, sub: Substitution, lower: char)
    requires Harmless(sub) && (lower == 'o' || lower == 'g')
    requires var r := Replace(s, sub.from, sub.to); r != "" && LowerChar(r[0]) == lower
    ensures s != "" && LowerChar(s[0]) == lower && Replace(s, sub.from, sub.to)[1..] == Replace(s[1..], sub.from, sub.to)
  {
  }

  // ---------------------------------------------------------------- heads and names

  /** The head of a statement or marker is neither touched nor created. */
  lemma {:induction false} HeadKept(head: string, s: string, sub: Substitution)
    requires Harmless(sub) && Blocked(head, sub.from)
    ensures var r := Replace(s, sub.from, sub.to);
            (head <= r <==> head <= s) && (head <= s ==> r[|head|..] == Replace(s[|head|..], sub.from, sub.to))
  {
    if head != "" && s != "" {
      var r := Replace(s, sub.from, sub.to);
      if sub.from <= s {
        assert head[0] == sub.from[0] ==> |head| > 3;
        assert r[0] == sub.from[0] && r[3] == sub.from[3] && s[0] == sub.from[0] && s[3] == sub.from[3];
      } else {
        HeadKept(head[1..], s[1..], sub);
        assert r[1..] == Replace(s[1..], sub.from, sub.to);
        assert head <= s ==> s[1..][|head| - 1..] == s[|head|..] && r[1..][|head| - 1..] == r[|head|..];
        assert head <= r <==> head[0] == r[0] && head[1..] <= r[1..];
        assert head <= s <==> head[0] == s[0] && head[1..] <= s[1..];
      }
    }
  }

  lemma {:induction false} UptoPlain(a: string, s: string)
    requires Plain(a)
    ensures UptoTick(a + s) == a + UptoTick(s)
  {
    if a == "" {
      assert a + s == s;
    } else {
      assert (a + s)[1..] == a[1..] + s;
      UptoPlain(a[1..], s);
    }
  }

  lemma ReplaceFront(name: string, sub: Substitution)
    requires sub.from != ""
    ensures Replace(sub.from + name, sub.from, sub.to) == sub.to + Replace(name, sub.from, sub.to)
  {
  }

  lemma DropTwice(a: string, b: string, n: nat)
    requires n <= |b|
    ensures (a + b)[|a| + n..] == b[n..]
  {
  }

  /** The text before the first backtick is normalised by itself, and so is what follows. */
  ghost predicate TickIsKept(s: string, sub: Substitution)
    requires sub.from != ""
  {
    var r := Replace(s, sub.from, sub.to);
    && UptoTick(r) == Replace(UptoTick(s), sub.from, sub.to)
    && r[|UptoTick(r)|..] == Replace(s[|UptoTick(s)|..], sub.from, sub.to)
  }

  lemma TickAfterMatch(rest: string, sub: Substitution)
    requires sub.from != "" && Plain(sub.from) && Plain(sub.to) && TickIsKept(rest, sub)
    ensures TickIsKept(sub.from + rest, sub)
  {
    var done, name := Replace(rest, sub.from, sub.to), UptoTick(rest);
    var s, r := sub.from + rest, sub.to + done;
    ReplaceFront(rest, sub);
    assert Replace(s, sub.from, sub.to) == r;
    UptoPlain(sub.from, rest);
    UptoPlain(sub.to, done);
    ReplaceFront(name, sub);
    assert UptoTick(r) == Replace(UptoTick(s), sub.from, sub.to);
    DropTwice(sub.from, rest, |name|);
    DropTwice(sub.to, done, |UptoTick(done)|);
    assert r[|UptoTick(r)|..] == done[|UptoTick(done)|..];
    assert s[|UptoTick(s)|..] == rest[|name|..];
  }

  lemma TickAfterChar(c: char, rest: string, sub: Substitution)
    requires sub.from != "" && TickIsKept(rest, sub) && c != '`' && !(sub.from <= [c] + rest)
    ensures TickIsKept([c] + rest, sub)
  {
  }

  lemma {:induction false} TickKept(s: string, sub: Substitution)
    requires Harmless(sub)
    ensures TickIsKept(s, sub)
  {
    if s != "" && sub.from <= s {
      TickKept(s[|sub.from|..], sub);
      TickAfterMatch(s[|sub.from|..], sub);
      assert s == sub.from + s[|sub.from|..];
    } else if s != "" && s[0] != '`' {
      TickKept(s[1..], sub);
      assert s == [s[0]] + s[1..];
      TickAfterChar(s[0], s[1..], sub);
    }
  }

  lemma NonEmptyKept(s: string, sub: Substitution)
    requires Harmless(sub)
    ensures Replace(s, sub.from, sub.to) == "" <==> s == ""
    ensures s != "" ==> (Replace(s, sub.from, sub.to)[0] == ';' <==> s[0] == ';')
  {
  }

  function Renamed(name: Option<string>, sub: Substitution): Option<string>
    requires sub.from != ""
  {
    if name.Some? then Some(Replace(name.value, sub.from, sub.to)) else None
  }

  lemma QuotedKept(s: string, sub: Substitution)
    requires Harmless(sub)
    ensures Quoted(Replace(s, sub.from, sub.to)) == Renamed(Quoted(s), sub)
    ensures DropName(Replace(s, sub.from, sub.to)) == Renamed(DropName(s), sub)
  {
    var r := Replace(s, sub.from, sub.to);
    TickKept(s, sub);
    NonEmptyKept(UptoTick(s), sub);
    var tail := s[|UptoTick(s)|..];
    NonEmptyKept(tail, sub);
    if tail != "" {
      TickStarts(s);
      assert tail[0] == '`';
      assert Replace(tail, sub.from, sub.to) == ['`'] + Replace(tail[1..], sub.from, sub.to);
      NonEmptyKept(tail[1..], sub);
      var n := |UptoTick(r)|;
      assert r[n..][1..] == Replace(tail[1..], sub.from, sub.to);
      assert |tail| > 1 ==> tail[1] == tail[1..][0] && s[|UptoTick(s)| + 1] == tail[1];
      assert |r| > n + 1 ==> r[n + 1] == r[n..][1..][0];
    }
  }

  lemma {:induction false} TickStarts(s: string)
    requires |UptoTick(s)| < |s|
    ensures s[|UptoTick(s)|] == '`'
  {
    if s[0] != '`' {
      TickStarts(s[1..]);
    }
  }

  lemma TableKept(line: string, sub: Substitution)
    requires Harmless(sub)
    ensures TableFromLine(Replace(line, sub.from, sub.to)) == Renamed(TableFromLine(line), sub)
  {
    HeadKept(DROP, line, sub);
    HeadKept(CREATE, line, sub);
    HeadKept(INSERT, line, sub);
    if DROP <= line {
      QuotedKept(line[|DROP|..], sub);
    }
    if CREATE <= line {
      QuotedKept(line[|CREATE|..], sub);
    }
    if INSERT <= line {
      QuotedKept(line[|INSERT|..], sub);
    }
  }

  // ---------------------------------------------------------------- whole lines

  /** A line that neither marks nor names a log table. */
  predicate NamesNoLog(line: string) {
    IsLine(line) && !LogMarker(line) && !LogStatement(line)
  }

  lemma {:induction false} LineKept(s: string, sub: Substitution)
    requires Harmless(sub) && IsLine(s)
    ensures IsLine(Replace(s, sub.from, sub.to))
  {
    var r := Replace(s, sub.from, sub.to);
    if sub.from <= s {
      var rest := s[|sub.from|..];
      if rest != "" {
        assert forall i :: 0 <= i < |rest| ==> rest[i] == s[|sub.from| + i];
        LineKept(rest, sub);
      }
    } else if |s| > 1 {
      assert forall i :: 0 <= i < |s| - 1 ==> s[1..][i] == s[i + 1];
      LineKept(s[1..], sub);
    }
  }

  /** A marker is a log marker if and only if "log" stands anywhere after its head. */
  lemma LogMarkerWhen(line: string)
    requires IsLine(line)
    ensures LogMarker(line) <==> MARKER <= line && ContainsLog(line[|MARKER|..])
  {
    if MARKER <= line {
      var rest := line[|MARKER|..];
      LogTrimmed(rest);
      assert forall i :: 0 <= i < |rest| ==> rest[i] == line[|MARKER| + i];
      if rest != "" && rest[0] == '\n' {
        assert |rest| == 1;
      }
      if rest != "" {
        NoLogInOne(rest[..1]);
        LogTableWhen(rest[..1]);
      }
      LogTableWhen(TrimRight(rest));
    }
  }

  lemma NoLogInOne(s: string)
    requires |s| <= 1
    ensures !ContainsLog(s)
  {
  }

  lemma MarkerKept(line: string, sub: Substitution)
    requires Harmless(sub) && IsLine(line)
    ensures LogMarker(Replace(line, sub.from, sub.to)) ==> LogMarker(line)
  {
    var r := Replace(line, sub.from, sub.to);
    HeadKept(MARKER, line, sub);
    LineKept(line, sub);
    LogMarkerWhen(line);
    LogMarkerWhen(r);
    if MARKER <= line {
      ReplaceCreatesNoLog(line[|MARKER|..], sub);
    }
  }

  lemma StatementKept(line: string, sub: Substitution)
    requires Harmless(sub)
    ensures LogStatement(Replace(line, sub.from, sub.to)) ==> LogStatement(line)
  {
    var r := Replace(line, sub.from, sub.to);
    TableKept(line, sub);
    if LogStatement(r) {
      var name := TableFromLine(line).value;
      LogTableWhen(TableFromLine(r).value);
      ReplaceCreatesNoLog(name, sub);
      LogTableWhen(name);
    }
  }

  lemma {:induction false} ReplaceAllKeeps(line: string, subs: seq<Substitution>)
    requires (forall i :: 0 <= i < |subs| ==> subs[i].from != "" && Harmless(subs[i])) && NamesNoLog(line)
    ensures NamesNoLog(ReplaceAll(line, subs))
    decreases |subs|
  {
    if subs != [] {
      LineKept(line, subs[0]);
      MarkerKept(line, subs[0]);
      StatementKept(line, subs[0]);
      ReplaceAllKeeps(Replace(line, subs[0].from, subs[0].to), subs[1..]);
    }
  }

  predicate HarmlessTexts(from: string, to: string) {
    && |from| > 3 && |to| > 3 && to[0] == from[0] && to[3] == from[3] && Plain(from) && Plain(to)
    && (forall i :: 0 <= i < |to| ==> LowerChar(to[i]) != 'g')
    && LowerChar(to[|to| - 1]) != 'l' && LowerChar(to[|to| - 1]) != 'o'
  }

  lemma RowFormatBlocked(sub: Substitution)
    requires HarmlessTexts(sub.from, sub.to) && sub.from[0] == 'R' && sub.from[3] == '_'
    ensures Harmless(sub)
  {
  }

  lemma CharsetBlocked(sub: Substitution)
    requires HarmlessTexts(sub.from, sub.to) && sub.from[0] == 'u' && sub.from[3] == '8'
    ensures Harmless(sub)
  {
  }

  lemma SpacedCompactHarmless()
    ensures Harmless(Substitution("ROW_FORMAT = Compact", "ROW_FORMAT = Dynamic"))
  {
    assert HarmlessTexts("ROW_FORMAT = Compact", "ROW_FORMAT = Dynamic");
    RowFormatBlocked(Substitution("ROW_FORMAT = Compact", "ROW_FORMAT = Dynamic"));
  }

  lemma CompactHarmless()
    ensures Harmless(Substitution("ROW_FORMAT=Compact", "ROW_FORMAT=Dynamic"))
  {
    assert HarmlessTexts("ROW_FORMAT=Compact", "ROW_FORMAT=Dynamic");
    RowFormatBlocked(Substitution("ROW_FORMAT=Compact", "ROW_FORMAT=Dynamic"));
  }

  lemma SpacedCapitalsHarmless()
    ensures Harmless(Substitution("ROW_FORMAT = COMPACT", "ROW_FORMAT = DYNAMIC"))
  {
    assert HarmlessTexts("ROW_FORMAT = COMPACT", "ROW_FORMAT = DYNAMIC");
    RowFormatBlocked(Substitution("ROW_FORMAT = COMPACT", "ROW_FORMAT = DYNAMIC"));
  }

  lemma CapitalsHarmless()
    ensures Harmless(Substitution("ROW_FORMAT=COMPACT", "ROW_FORMAT=DYNAMIC"))
  {
    assert HarmlessTexts("ROW_FORMAT=COMPACT", "ROW_FORMAT=DYNAMIC");
    RowFormatBlocked(Substitution("ROW_FORMAT=COMPACT", "ROW_FORMAT=DYNAMIC"));
  }

  lemma AccentCollationHarmless()
    ensures Harmless(Substitution("utf8mb4_0900_ai_ci", "utf8mb4_unicode_ci"))
  {
    assert HarmlessTexts("utf8mb4_0900_ai_ci", "utf8mb4_unicode_ci");
    CharsetBlocked(Substitution("utf8mb4_0900_ai_ci", "utf8mb4_unicode_ci"));
  }

  lemma BinaryCollationHarmless()
    ensures Harmless(Substitution("utf8mb4_0900_bin", "utf8mb4_bin"))
  {
    assert HarmlessTexts("utf8mb4_0900_bin", "utf8mb4_bin");
    CharsetBlocked(Substitution("utf8mb4_0900_bin", "utf8mb4_bin"));
  }

  lemma SubstitutionsHarmless()
    ensures forall i :: 0 <= i < |SUBSTITUTIONS| ==> SUBSTITUTIONS[i].from != "" && Harmless(SUBSTITUTIONS[i])
  {
    SpacedCompactHarmless();
    CompactHarmless();
    SpacedCapitalsHarmless();
    CapitalsHarmless();
    AccentCollationHarmless();
    BinaryCollationHarmless();
    forall i | 0 <= i < |SUBSTITUTIONS|
      ensures Harmless(SUBSTITUTIONS[i])
    {
      if i == 0 {
      } else if i == 1 {
      } else if i == 2 {
      } else if i == 3 {
      } else if i == 4 {
      }
    }
  }

  /** Normalising a line makes no log table of another one. */
  lemma NormalizingNamesNoLog(line: string)
    requires NamesNoLog(line)
    ensures NamesNoLog(NormalizeLine(line))
  {
    SubstitutionsHarmless();
    ReplaceAllKeeps(line, SUBSTITUTIONS);
  }

  lemma NoHeadNoLog(line: string)
    requires |line| < 4 || (line[0] == 'S' || line[3] == 'F')
    ensures !LogMarker(line) && !LogStatement(line)
  {
    assert MARKER[0] == '-' && MARKER[3] == 'T' && |MARKER| > 4;
    assert DROP[0] == 'D' && DROP[3] == 'P' && |DROP| > 4;
    assert CREATE[0] == 'C' && CREATE[3] == 'A' && |CREATE| > 4;
    assert INSERT[0] == 'I' && INSERT[3] == 'E' && |INSERT| > 4;
  }

  lemma CommentNamesNoLog(line: string)
    requires line == HEADER[0]
    ensures !LogMarker(line) && !LogStatement(line)
  {
    assert line[..12] == "-- Fixed for";
    assert line[3] == line[..12][3] == 'F';
    NoHeadNoLog(line);
  }

  lemma SettingNamesNoLog(line: string)
    requires line == HEADER[1] || line == HEADER[2] || line == HEADER[3]
    ensures !LogMarker(line) && !LogStatement(line)
  {
    assert line[0] == 'S';
    NoHeadNoLog(line);
  }

  lemma HeaderNamesNoLog(i: nat)
    requires i < |HEADER|
    ensures !LogMarker(HEADER[i]) && !LogStatement(HEADER[i])
  {
    if i == 0 {
      CommentNamesNoLog(HEADER[i]);
    } else if i < 4 {
      SettingNamesNoLog(HEADER[i]);
    } else {
      NoHeadNoLog(HEADER[i]);
    }
  }

  lemma SurvivorNamesNoLog(lines: seq<string>, j: nat)
    requires j < |lines| && Survives(lines, j) && IsLine(lines[j])
    ensures NamesNoLog(NormalizeLine(lines[j]))
  {
    SectionStep(lines, j);
    NormalizingNamesNoLog(lines[j]);
  }

  /** What holds of every kept text holds of the collection. */
  lemma {:induction false} CollectedSatisfy(n: nat, keep: nat -> bool, text: nat -> string, good: string -> bool)
    requires forall i: nat :: i < n && keep(i) ==> good(text(i))
    ensures forall k :: 0 <= k < |Collect(n, keep, text)| ==> good(Collect(n, keep, text)[k])
  {
    if n > 0 {
      CollectedSatisfy(n - 1, keep, text, good);
    }
  }

  lemma {:induction false} NoSections(lines: seq<string>, n: nat, good: string -> bool)
    requires forall line :: good(line) ==> !LogMarker(line) && !LogStatement(line)
    requires n <= |lines| && forall i :: 0 <= i < |lines| ==> good(lines[i])
    ensures SectionLines(lines, n) == 0 && NamesSeen(lines, n) == {}
  {
    if n > 0 {
      NoSections(lines, n - 1, good);
      assert forall i :: 0 <= i < n ==> good(lines[i]);
    }
  }

  lemma OutputSatisfies(lines: seq<string>, good: string -> bool)
    requires forall i :: 0 <= i < |HEADER| ==> good(HEADER[i])
    requires forall i: nat :: i < |lines| && Survival(lines)(i) ==> good(Normalized(lines)(i))
    ensures var output := HEADER + Surviving(lines, |lines|); forall i :: 0 <= i < |output| ==> good(output[i])
  {
    CollectedSatisfy(|lines|, Survival(lines), Normalized(lines), good);
  }

  /** A second pass over the output skips no line and reports no table. */
  lemma SecondPassSkipsNothing(lines: seq<string>)
    requires forall i :: 0 <= i < |lines| ==> IsLine(lines[i])
    ensures var output := HEADER + Surviving(lines, |lines|);
            SectionLines(output, |output|) == 0 && NamesSeen(output, |output|) == {}
  {
    var output := HEADER + Surviving(lines, |lines|);
    var good := (line: string) => !LogMarker(line) && !LogStatement(line);
    forall i: nat | i < |lines| && Survival(lines)(i)
      ensures good(Normalized(lines)(i))
    {
      SurvivorNamesNoLog(lines, i);
    }
    forall i | 0 <= i < |HEADER|
      ensures good(HEADER[i])
    {
      HeaderNamesNoLog(i);
    }
    OutputSatisfies(lines, good);
    NoSections(output, |output|, good);
  }
}
