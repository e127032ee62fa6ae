/** The names under which a scan keeps what it has finished. */
module CheckpointNames {
  import opened Basics
  import opened Records

  // ---------------------------------------------------------------- identifiers

  predicate Letter(c: char) {
    'a' <= c <= 'z' || 'A' <= c <= 'Z'
  }

  predicate IdentifierChar(c: char) {
    Letter(c) || '0' <= c <= '9' || c == '_' || c == '-'
  }

  predicate PlainIdentifier(s: string) {
    s != "" && (Letter(s[0]) || s[0] == '_') && forall i :: 0 <= i < |s| ==> IdentifierChar(s[i])
  }

  /** What the pattern accepts: its `$` also matches before one final line break. */
  predicate ValidIdentifier(s: string) {
    PlainIdentifier(s) || (s != "" && s[|s| - 1] == '\n' && PlainIdentifier(s[..|s| - 1]))
  }

  /** The parts of the pattern: a letter or an underscore, then letters, digits, underscores and hyphens, and
      at the end nothing or a line break. */
  predicate Spelled(s: string, first: char, rest: string, end: string) {
    && s == [first] + (rest + end) && (end == "" || end == "\n")
    && ('a' <= first <= 'z' || 'A' <= first <= 'Z' || first == '_')
    && forall i :: 0 <= i < |rest| ==>
         'a' <= rest[i] <= 'z' || 'A' <= rest[i] <= 'Z' || '0' <= rest[i] <= '9' || rest[i] == '_' || rest[i] == '-'
  }

  lemma PlainIsSpelled(s: string, end: string)
    requires PlainIdentifier(s) && (end == "" || end == "\n")
    ensures Spelled(s + end, s[0], s[1..], end)
  {
    assert s + end == [s[0]] + (s[1..] + end);
  }

  lemma SpelledIsPlain(s: string, first: char, rest: string, end: string)
    requires Spelled(s, first, rest, end)
    ensures PlainIdentifier([first] + rest) && s == ([first] + rest) + end
  {
  }

  /** An identifier is accepted if and only if it is spelled by the pattern. */
  lemma IdentifierExactly(s: string)
    ensures ValidIdentifier(s) <==> exists first, rest, end :: Spelled(s, first, rest, end)
  {
    if PlainIdentifier(s) {
      PlainIsSpelled(s, "");
      assert s + "" == s;
    } else if ValidIdentifier(s) {
      var stem := s[..|s| - 1];
      PlainIsSpelled(stem, "\n");
      assert stem + "\n" == s;
    }
    if first, rest, end :| Spelled(s, first, rest, end) {
      SpelledIsPlain(s, first, rest, end);
      var stem := [first] + rest;
      assert end == "" ==> s == stem;
      assert end == "\n" ==> s[..|s| - 1] == stem;
    }
  }

  // ---------------------------------------------------------------- file names

  predicate SafeChar(c: char) {
    IdentifierChar(c) || c == '.'
  }

  function SafeName(name: string): (r: string)
    ensures |r| == |name|
    ensures forall i :: 0 <= i < |name| ==> r[i] == if SafeChar(name[i]) then name[i] else '_'
  {
    seq(|name|, i requires 0 <= i < |name| => if SafeChar(name[i]) then name[i] else '_')
  }

  datatype Kind = MappingKind | BucketKind | ContentKind

  function Prefix(kind: Kind): string {
    match kind
    case MappingKind => "mapping__"
    case BucketKind => "bucket__"
    case ContentKind => "content__"
  }

  const JSON := ".json"

  function ItemName(kind: Kind, name: string): string {
    Prefix(kind) + SafeName(name) + JSON
  }

  function MappingKey(table: string, column: string): string {
    table + "." + column
  }

  predicate PlainName(name: string) {
    forall i :: 0 <= i < |name| ==> SafeChar(name[i])
  }

  /** A name survives in its file name if and only if it has no character outside the safe ones. */
  lemma SafeNameKeeps(name: string)
    ensures SafeName(name) == name <==> PlainName(name)
  {
  }

  lemma ItemNameParts(kind: Kind, name: string)
    ensures ItemName(kind, name)[0] == Prefix(kind)[0]
    ensures |Prefix(kind)| <= |ItemName(kind, name)| - |JSON|
    ensures ItemName(kind, name)[|Prefix(kind)|..|ItemName(kind, name)| - |JSON|] == SafeName(name)
  {
  }

  /** Two items with the same file have the same kind and the same name up to unsafe characters. */
  lemma SameFileSameItem(k1: Kind, n1: string, k2: Kind, n2: string)
    requires ItemName(k1, n1) == ItemName(k2, n2)
    ensures k1 == k2 && SafeName(n1) == SafeName(n2)
    ensures PlainName(n1) && PlainName(n2) ==> n1 == n2
  {
    ItemNameParts(k1, n1);
    ItemNameParts(k2, n2);
    SafeNameKeeps(n1);
    SafeNameKeeps(n2);
  }

  predicate NoDot(s: string) {
    forall i :: 0 <= i < |s| ==> s[i] != '.'
  }

  /** The text before the first dot and after it are determined. */
  lemma DotSplits(a: string, x: string, b: string, y: string)
    requires NoDot(a) && NoDot(b) && a + "." + x == b + "." + y
    ensures a == b && x == y
  {
    var s := a + "." + x;
    assert s[|a|] == '.' && s[|b|] == '.';
    assert forall i :: 0 <= i < |a| ==> s[i] == a[i];
    assert forall i :: 0 <= i < |b| ==> s[i] == b[i];
    assert |a| == |b|;
    assert s[..|a|] == a && s[..|a|] == b;
    assert s[|a| + 1..] == x && s[|a| + 1..] == y;
  }

  lemma MappingKeyInjective(t1: string, c1: string, t2: string, c2: string)
    requires NoDot(t1) && NoDot(t2) && MappingKey(t1, c1) == MappingKey(t2, c2)
    ensures t1 == t2 && c1 == c2
  {
    DotSplits(t1, c1, t2, c2);
  }

  lemma IdentifiersPlain(table: string, column: string)
    requires PlainIdentifier(table) && PlainIdentifier(column)
    ensures PlainName(MappingKey(table, column)) && NoDot(table)
  {
  }

  // ---------------------------------------------------------------- the final line break

  /** An identifier that another accepted identifier is confused with. */
  predicate Ambiguous(s: string) {
    s != "" && (s[|s| - 1] == '\n' || (|s| > 1 && s[|s| - 1] == '_'))
  }

  function Twin(s: string): string
    requires Ambiguous(s)
  {
    s[..|s| - 1] + (if s[|s| - 1] == '\n' then "_" else "\n")
  }

  /** The pattern accepts a final line break, and the file name turns it into an underscore.  Two
      accepted identifiers give the same file name if and only if they are equal or differ in just
      that way. */
  lemma SameSafeName(a: string, b: string)
    requires ValidIdentifier(a) && ValidIdentifier(b)
    ensures SafeName(a) == SafeName(b) <==> a == b || (Ambiguous(a) && b == Twin(a))
  {
  }

  /** For example, a column with a final line break shares its checkpoint file with the column
      whose name ends in an underscore. */
  lemma NewlineCollision(stem: string, table: string)
    requires PlainIdentifier(stem)
    ensures ValidIdentifier(stem + "\n") && ValidIdentifier(stem + "_")
    ensures MappingKey(table, stem + "\n") != MappingKey(table, stem + "_")
    ensures ItemName(MappingKind, MappingKey(table, stem + "\n")) == ItemName(MappingKind, MappingKey(table, stem + "_"))
  {
    assert (stem + "\n")[..|stem|] == stem;
    var a, b := MappingKey(table, stem + "\n"), MappingKey(table, stem + "_");
    assert a[|a| - 1] == '\n' && b[|b| - 1] == '_';
    assert forall i :: 0 <= i < |a| - 1 ==> a[i] == b[i];
    assert SafeName(a) == SafeName(b);
  }

  // ---------------------------------------------------------------- request ids

  /** What is hashed: sorted lists appear as multisets. */
  datatype Canon = Canon(buckets: Option<multiset<string>>, prefix: Option<string>, database: Option<string>,
                         provider: Option<string>, mappings: multiset<string>)

  const DEFAULT_ID := "id"

  function MappingText(m: Mapping): string {
    m.table + "." + (m.column + "." + OrElse(m.idColumn, DEFAULT_ID))
  }

  function MappingTexts(mappings: seq<Mapping>): (r: seq<string>)
    ensures |r| == |mappings|
    ensures forall i :: 0 <= i < |r| ==> r[i] == MappingText(mappings[i])
  {
    seq(|mappings|, i requires 0 <= i < |mappings| => MappingText(mappings[i]))
  }

  function Canonical(r: Request): Canon {
    Canon(if r.buckets.Some? && r.buckets.value != [] then Some(multiset(r.buckets.value)) else None,
          r.prefix, r.database, r.provider, multiset(MappingTexts(r.mappings)))
  }

  /** The hash has no collisions. */
  ghost predicate Injective(digest: Canon -> string) {
    forall a, b {:trigger digest(a), digest(b)} :: digest(a) == digest(b) ==> a == b
  }

  predicate PlainMapping(m: Mapping) {
    PlainIdentifier(m.table) && PlainIdentifier(m.column)
  }

  /** Plain identifiers, one mapping per column, and no empty list of buckets. */
  ghost predicate PlainRequest(r: Request) {
    && (forall i :: 0 <= i < |r.mappings| ==> PlainMapping(r.mappings[i]))
    && (forall i, j :: 0 <= i < j < |r.mappings| ==>
          r.mappings[i].table != r.mappings[j].table || r.mappings[i].column != r.mappings[j].column)
    && (r.buckets.Some? ==> r.buckets.value != [] && forall b | b in r.buckets.value :: PlainName(b))
  }

  /** The mapping text is unambiguous. */
  lemma MappingTextInjective(a: Mapping, b: Mapping)
    requires PlainMapping(a) && PlainMapping(b) && MappingText(a) == MappingText(b)
    ensures a.table == b.table && a.column == b.column && OrElse(a.idColumn, DEFAULT_ID) == OrElse(b.idColumn, DEFAULT_ID)
  {
    DotSplits(a.table, a.column + "." + OrElse(a.idColumn, DEFAULT_ID), b.table, b.column + "." + OrElse(b.idColumn, DEFAULT_ID));
    DotSplits(a.column, OrElse(a.idColumn, DEFAULT_ID), b.column, OrElse(b.idColumn, DEFAULT_ID));
  }

  /** Requests with the same id agree in everything the scan reads by. */
  lemma SameIdSameRequest(digest: Canon -> string, a: Request, b: Request)
    requires Injective(digest) && digest(Canonical(a)) == digest(Canonical(b))
    ensures a.prefix == b.prefix && a.database == b.database && a.provider == b.provider
    ensures PlainRequest(a) && PlainRequest(b) ==>
      && (a.buckets.None? <==> b.buckets.None?)
      && (a.buckets.Some? ==> multiset(a.buckets.value) == multiset(b.buckets.value))
    ensures multiset(MappingTexts(a.mappings)) == multiset(MappingTexts(b.mappings))
  {
  }

  /** In one request, or in two with the same id, a column is read by one id column. */
  lemma SameColumnSameId(digest: Canon -> string, a: Request, i: nat, b: Request, j: nat)
    requires Injective(digest) && digest(Canonical(a)) == digest(Canonical(b)) && PlainRequest(a) && PlainRequest(b)
    requires i < |a.mappings| && j < |b.mappings|
    requires a.mappings[i].table == b.mappings[j].table && a.mappings[i].column == b.mappings[j].column
    ensures OrElse(a.mappings[i].idColumn, DEFAULT_ID) == OrElse(b.mappings[j].idColumn, DEFAULT_ID)
  {
    SameIdSameRequest(digest, a, b);
    var text := MappingTexts(a.mappings)[i];
    assert text in multiset(MappingTexts(a.mappings));
    assert text in multiset(MappingTexts(b.mappings));
    var k :| 0 <= k < |b.mappings| && MappingTexts(b.mappings)[k] == text;
    MappingTextInjective(a.mappings[i], b.mappings[k]);
    assert k == j;
  }

  /** No buckets and all buckets: an empty list, which means to scan nothing, has the id of the
      request without a list, which means to scan everything. */
  lemma EmptyListSharesId(r: Request, digest: Canon -> string)
    ensures digest(Canonical(r.(buckets := Some([])))) == digest(Canonical(r.(buckets := None)))
  {
  }

  predicate SameBuckets(a: Option<seq<string>>, b: Option<seq<string>>) {
    || (a.Some? && b.Some? && multiset(a.value) == multiset(b.value))
    || ((a.None? || a.value == []) && (b.None? || b.value == []))
  }

  /** That is the only confusion: two requests that differ only in their buckets have the same id
      if and only if the lists are permutations of each other or both name nothing. */
  lemma SameIdWhen(digest: Canon -> string, r: Request, a: Option<seq<string>>, b: Option<seq<string>>)
    requires Injective(digest)
    ensures digest(Canonical(r.(buckets := a))) == digest(Canonical(r.(buckets := b))) <==> SameBuckets(a, b)
  {
  }
}
