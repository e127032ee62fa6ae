/** parse_archive_refs: pasted archive URLs and paths become restore requests. */
module ArchiveRefs {
  import opened ArchiveKeys
  import opened Basics
  import opened PyStrings
  import opened PercentCoding
  import opened Urls
  import opened UrlRoundTrip
  import opened UrlForms

  /** What one pasted line turns into. */
  datatype Line = Blank | Row(item: Item, path: string) | NoBucket(path: string) | NothingLeft(path: string)

  function ReadLine(providers: seq<Provider>, raw: string): Line {
    var line := Trim(raw);
    if line == "" then Blank
    else
      var r := SplitObjectReference(providers, line);
      var given := r.bucket.Some? && r.bucket.value != "";
      var (head, slash, tail) := Partition(r.key, '/');
      var bucket := if given then r.bucket.value else if slash then head else "";
      var key := if !given && slash then tail else r.key;
      if bucket == "" then NoBucket(line)
      else if '/' !in key then NothingLeft(line)
      else Row(Item(bucket, key), line)
  }

  function Rows(lines: seq<Line>): seq<Line> {
    if lines == [] then []
    else Rows(lines[..|lines| - 1]) + if lines[|lines| - 1].Row? then [lines[|lines| - 1]] else []
  }

  function Errors(lines: seq<Line>): seq<Line> {
    if lines == [] then []
    else
      var last := lines[|lines| - 1];
      Errors(lines[..|lines| - 1]) + if last.NoBucket? || last.NothingLeft? then [last] else []
  }

  function ReadAll(providers: seq<Provider>, raw: seq<string>): seq<Line> {
    seq(|raw|, i requires 0 <= i < |raw| => ReadLine(providers, raw[i]))
  }

  /** The lines that have anything on them, trimmed. */
  function NonBlank(raw: seq<string>): seq<string> {
    if raw == [] then []
    else
      var last := Trim(raw[|raw| - 1]);
      NonBlank(raw[..|raw| - 1]) + if last == "" then [] else [last]
  }

  /** The texts of the lines that are not blank. */
  function Paths(lines: seq<Line>): seq<string> {
    if lines == [] then []
    else Paths(lines[..|lines| - 1]) + if lines[|lines| - 1].Blank? then [] else [lines[|lines| - 1].path]
  }

  lemma PathsExtend(lines: seq<Line>, line: Line)
    ensures Paths(lines + [line]) == Paths(lines) + if line.Blank? then [] else [line.path]
  {
    assert (lines + [line])[..|lines|] == lines;
  }

  lemma {:induction false} PathsRead(providers: seq<Provider>, raw: seq<string>)
    ensures Paths(ReadAll(providers, raw)) == NonBlank(raw)
  {
    if raw != [] {
      PathsRead(providers, raw[..|raw| - 1]);
      assert ReadAll(providers, raw)[..|raw| - 1] == ReadAll(providers, raw[..|raw| - 1]);
    }
  }

  lemma RowsAndErrorsNext(lines: seq<Line>)
    requires lines != []
    ensures var front, last := lines[..|lines| - 1], lines[|lines| - 1];
            && Rows(lines) == (if last.Row? then Rows(front) + [last] else Rows(front))
            && Errors(lines) == (if last.NoBucket? || last.NothingLeft? then Errors(front) + [last] else Errors(front))
            && Paths(lines) == (if last.Blank? then Paths(front) else Paths(front) + [last.path])
  {
  }

  lemma SplitExtend(a: seq<string>, b: seq<string>, c: seq<string>, x: string)
    requires multiset(a) + multiset(b) == multiset(c)
    ensures multiset(a + [x]) + multiset(b) == multiset(c + [x])
    ensures multiset(a) + multiset(b + [x]) == multiset(c + [x])
  {
  }

  lemma {:induction false} RowsAndErrors(lines: seq<Line>)
    ensures multiset(Paths(Rows(lines))) + multiset(Paths(Errors(lines))) == multiset(Paths(lines))
  {
    if lines != [] {
      var front, last := lines[..|lines| - 1], lines[|lines| - 1];
      RowsAndErrors(front);
      if !last.Blank? {
        SplitExtend(Paths(Rows(front)), Paths(Errors(front)), Paths(front), last.path);
        PathsExtend(Rows(front), last);
        PathsExtend(Errors(front), last);
      }
      RowsAndErrorsNext(lines);
    }
  }

  /** No line is dropped and none is made up: the texts of rows and errors together are the lines that
      are not blank.  Each is a row or an error by what `ReadLine` makes of it, in the order given. */
  method ParseArchiveRefs(providers: seq<Provider>, raw: seq<string>) returns (rows: seq<Line>, errors: seq<Line>)
    ensures rows == Rows(ReadAll(providers, raw)) && errors == Errors(ReadAll(providers, raw))
    ensures forall row | row in rows :: row.Row? && row.item.bucket != "" && '/' in row.item.key
    ensures multiset(Paths(rows)) + multiset(Paths(errors)) == multiset(NonBlank(raw))
  {
    rows, errors := [], [];
    for i := 0 to |raw|
      invariant rows == Rows(ReadAll(providers, raw)[..i]) && errors == Errors(ReadAll(providers, raw)[..i])
      invariant forall row | row in rows :: row.Row? && row.item.bucket != "" && '/' in row.item.key
    {
      assert ReadAll(providers, raw)[..i + 1][..i] == ReadAll(providers, raw)[..i];
      var line := Trim(raw[i]);
      if line == "" {
        continue;
      }
      var r := SplitObjectReference(providers, line);
      var bucket, key := if r.bucket.Some? then r.bucket.value else "", r.key;
      if bucket == "" && '/' in key {
        var (head, _, tail) := Partition(key, '/');
        bucket, key := head, tail;
      }
      if bucket == "" {
        errors := errors + [NoBucket(line)];
      } else if '/' !in key {
        errors := errors + [NothingLeft(line)];
      } else {
        rows := rows + [Row(Item(bucket, key), line)];
      }
    }
    assert ReadAll(providers, raw)[..|raw|] == ReadAll(providers, raw);
    RowsAndErrors(ReadAll(providers, raw));
    PathsRead(providers, raw);
  }

  /** A line whose reference names a bucket and an archive key restores the original. */
  lemma RowRestores(providers: seq<Provider>, line: string, bucket: string, item: Item)
    requires Trim(line) == line && line != "" && bucket != "" && SlashFree(item.bucket)
    requires var r := SplitObjectReference(providers, line); r.bucket == Some(bucket) && r.key == ArchiveDestKey(item)
    ensures ReadLine(providers, line) == Row(Item(bucket, ArchiveDestKey(item)), line)
    ensures RestoreDest(ReadLine(providers, line).item) == item
  {
    assert ArchiveDestKey(item)[|item.bucket|] == '/';
    RestoreUndoesArchiveKey(item, bucket);
  }

  lemma NoLeadingSlash(item: Item)
    requires item.bucket != "" && SlashFree(item.bucket)
    ensures !("/" <= ArchiveDestKey(item))
  {
    assert ArchiveDestKey(item)[0] == item.bucket[0];
    assert item.bucket[0] in item.bucket;
  }

  /** Pasting the URL of an archived object restores the object it was made from: its bucket and
      its key, whatever path- or host-style provider holds the archive. */
  lemma ArchiveUrlRestores(providers: seq<Provider>, index: nat, archiveBucket: string, item: Item)
    requires index < |providers| && ValidProvider(providers[index]) && providers[index].endpoint.Some?
    requires forall i :: 0 <= i < |providers| && i != index ==> Apart(providers[i], providers[index])
    requires ValidBucket(archiveBucket) && item.bucket != "" && SlashFree(item.bucket) && IsKey(ArchiveDestKey(item))
    ensures var line := ObjectUrl(providers[index], archiveBucket, ArchiveDestKey(item));
            && ReadLine(providers, line) == Row(Item(archiveBucket, ArchiveDestKey(item)), line)
            && RestoreDest(ReadLine(providers, line).item) == item
  {
    var p, key := providers[index], ArchiveDestKey(item);
    ApartEndpointsUnclaimed(providers, index, archiveBucket);
    EndpointUrlRoundTrip(providers, index, archiveBucket, key);
    NoLeadingSlash(item);
    PrintedParts(p, archiveBucket, key);
    ParsePlain(SchemeOf(p), HostOf(p, archiveBucket), PathOf(p, archiveBucket, key));
    RowRestores(providers, ObjectUrl(p, archiveBucket, key), archiveBucket, item);
  }

  /** The same for an archive on Amazon. */
  lemma AwsArchiveUrlRestores(providers: seq<Provider>, p: Provider, archiveBucket: string, item: Item)
    requires ValidProvider(p) && p.endpoint.None? && ValidBucket(archiveBucket) && AwsReadable(p.region, archiveBucket)
    requires Unclaimed(providers, -1, Lower(HostOf(p, archiveBucket)))
    requires item.bucket != "" && SlashFree(item.bucket) && IsKey(ArchiveDestKey(item))
    ensures var line := ObjectUrl(p, archiveBucket, ArchiveDestKey(item));
            && ReadLine(providers, line) == Row(Item(archiveBucket, ArchiveDestKey(item)), line)
            && RestoreDest(ReadLine(providers, line).item) == item
  {
    var key := ArchiveDestKey(item);
    NoLeadingSlash(item);
    AwsUrlRoundTrip(providers, p, archiveBucket, key);
    PrintedParts(p, archiveBucket, key);
    ParsePlain(SchemeOf(p), HostOf(p, archiveBucket), PathOf(p, archiveBucket, key));
    RowRestores(providers, ObjectUrl(p, archiveBucket, key), archiveBucket, item);
  }

  lemma PathShape(head: string, tail: string)
    requires head != "" && SlashFree(head)
    ensures var path := head + "/" + tail; path[0] != '/' && Partition(path, '/') == (head, true, tail)
  {
    assert head[0] in head;
    assert head + "/" + tail == head + ['/'] + tail;
    PartitionJoined(head, '/', tail);
  }

  /** The reference that a line of a bare path is read as. */
  lemma BareLine(providers: seq<Provider>, pre: string, slashes: string, path: string, post: string)
    requires AllBlank(pre) && AllBlank(post) && AllSlashes(slashes) && (path == "" || path[0] != '/')
    requires Bounded(slashes + path) && !StartsWithScheme(slashes + path)
    ensures var line := slashes + path;
            Trim(pre + line + post) == line && SplitObjectReference(providers, line) == Reference(None, path, None)
  {
    TrimBlanks(pre, slashes + path, post);
    BarePath(providers, "", slashes, path, "");
    assert "" + (slashes + path) + "" == slashes + path;
  }

  lemma UnnamedLine(providers: seq<Provider>, raw: string, head: string, tail: string)
    requires var line := Trim(raw); line != "" && SplitObjectReference(providers, line) == Reference(None, head + "/" + tail, None)
    requires head != "" && SlashFree(head)
    ensures ReadLine(providers, raw) == if '/' in tail then Row(Item(head, tail), Trim(raw)) else NothingLeft(Trim(raw))
  {
    PathShape(head, tail);
  }

  lemma WordLine(providers: seq<Provider>, raw: string, word: string)
    requires var line := Trim(raw); line != "" && SplitObjectReference(providers, line) == Reference(None, word, None)
    requires SlashFree(word)
    ensures ReadLine(providers, raw) == NoBucket(Trim(raw))
  {
  }

  /** A pasted path: its first segment is the bucket and the rest the key, whatever blanks surround it and
      however many slashes lead it; a rest without a slash holds no original bucket and is refused. */
  lemma PastedPath(providers: seq<Provider>, pre: string, slashes: string, head: string, tail: string, post: string)
    requires AllBlank(pre) && AllBlank(post) && AllSlashes(slashes) && head != "" && SlashFree(head)
    requires Bounded(slashes + (head + "/" + tail)) && !StartsWithScheme(slashes + (head + "/" + tail))
    ensures var line := slashes + (head + "/" + tail);
            ReadLine(providers, pre + line + post)
            == if '/' in tail then Row(Item(head, tail), line) else NothingLeft(line)
  {
    PathShape(head, tail);
    BareLine(providers, pre, slashes, head + "/" + tail, post);
    UnnamedLine(providers, pre + (slashes + (head + "/" + tail)) + post, head, tail);
  }

  lemma NoSlashFirst(word: string)
    requires SlashFree(word)
    ensures word == "" || word[0] != '/'
  {
    if word != "" {
      assert word[0] in word;
    }
  }

  /** A pasted word without a slash names no bucket. */
  lemma PastedWord(providers: seq<Provider>, pre: string, slashes: string, word: string, post: string)
    requires AllBlank(pre) && AllBlank(post) && AllSlashes(slashes) && SlashFree(word) && slashes + word != ""
    requires Bounded(slashes + word) && !StartsWithScheme(slashes + word)
    ensures ReadLine(providers, pre + (slashes + word) + post) == NoBucket(slashes + word)
  {
    NoSlashFirst(word);
    BareLine(providers, pre, slashes, word, post);
    WordLine(providers, pre + (slashes + word) + post, word);
  }

  /** A line whose reference names a bucket: that bucket and the whole key, refused without a slash in it. */
  lemma PastedReference(providers: seq<Provider>, raw: string, bucket: string)
    requires Trim(raw) != "" && bucket != "" && SplitObjectReference(providers, Trim(raw)).bucket == Some(bucket)
    ensures var key := SplitObjectReference(providers, Trim(raw)).key;
            && ('/' in key ==> ReadLine(providers, raw) == Row(Item(bucket, key), Trim(raw)))
            && ('/' !in key ==> ReadLine(providers, raw) == NothingLeft(Trim(raw)))
  {
  }

  /** Pasting "<archive bucket>/<bucket>/<key>", with or without leading slashes, restores the same object. */
  lemma BarePathRestores(providers: seq<Provider>, pre: string, slashes: string, archiveBucket: string, item: Item,
                         post: string)
    requires AllBlank(pre) && AllBlank(post) && AllSlashes(slashes)
    requires archiveBucket != "" && SlashFree(archiveBucket) && SlashFree(item.bucket)
    requires var line := slashes + (archiveBucket + "/" + ArchiveDestKey(item)); Bounded(line) && !StartsWithScheme(line)
    ensures var line := slashes + (archiveBucket + "/" + ArchiveDestKey(item));
            && ReadLine(providers, pre + line + post) == Row(Item(archiveBucket, ArchiveDestKey(item)), line)
            && RestoreDest(ReadLine(providers, pre + line + post).item) == item
  {
    assert ArchiveDestKey(item)[|item.bucket|] == '/';
    PastedPath(providers, pre, slashes, archiveBucket, ArchiveDestKey(item), post);
    RestoreUndoesArchiveKey(item, archiveBucket);
  }
}
