/** A request with an empty list of buckets, which scans nothing, and the request without a list,
    which scans everything, share their checkpoints. */
module EmptyBucketList {
  import opened Basics
  import opened CheckpointNames
  import opened Checkpoints
  import opened ContentProtection
  import opened Paging
  import opened Reconciliation
  import opened Records
  import opened Scanner
  import opened Scans
  import opened Urls
  import opened UrlRoundTrip

  /** The item of column `i` in the rich-text part of a request with these buckets. */
  function ColumnWork(world: World, digest: Canon -> string, r: Request, buckets: Option<seq<string>>, i: nat): Work
    requires i < |r.mappings|
  {
    ContentWorkOf(world, digest(Canonical(r.(buckets := buckets))), r.(buckets := buckets), i)
  }

  /** Some URL in the rows contributes the key when these buckets are in scope.  A URL that names no
      bucket contributes whatever they are. */
  ghost predicate UrlGives(providers: seq<Provider>, rows: seq<Row>, buckets: set<string>, key: string) {
    exists row, url ::
      row in rows && row.value.Some? && url in FindUrls(row.value.value, 0) && Contributes(providers, buckets, url, key)
  }

  /** The keys collected from rows are those their URLs contribute. */
  lemma {:induction false} KeysAreGiven(world: World, providers: seq<Provider>, rows: seq<Row>, buckets: set<string>, key: string)
    requires Configured(world, providers)
    ensures key in KeysInRows(world, buckets, rows) <==> UrlGives(providers, rows, buckets, key)
  {
    if rows != [] {
      var front, last := rows[..|rows| - 1], rows[|rows| - 1];
      KeysAreGiven(world, providers, front, buckets, key);
      GivenExtend(providers, front, last, buckets, key);
      assert rows == front + [last];
    }
  }

  lemma GivenExtend(providers: seq<Provider>, front: seq<Row>, last: Row, buckets: set<string>, key: string)
    ensures UrlGives(providers, front + [last], buckets, key)
            <==> UrlGives(providers, front, buckets, key)
                 || (last.value.Some? && key in EmbeddedKeys(providers, last.value.value, buckets))
  {
    var rows := front + [last];
    if UrlGives(providers, front, buckets, key) {
      var row, url :|
        row in front && row.value.Some? && url in FindUrls(row.value.value, 0) && Contributes(providers, buckets, url, key);
      assert row in rows;
    }
    if last.value.Some? && key in EmbeddedKeys(providers, last.value.value, buckets) {
      assert last in rows;
      assert Embedded(providers, buckets, last.value.value, key);
    }
  }

  lemma MoreBucketsGiveMore(providers: seq<Provider>, rows: seq<Row>, buckets: set<string>, key: string)
    requires UrlGives(providers, rows, {}, key)
    ensures UrlGives(providers, rows, buckets, key)
  {
    var row, url :| row in rows && row.value.Some? && url in FindUrls(row.value.value, 0) && Contributes(providers, {}, url, key);
    assert Contributes(providers, buckets, url, key);
  }

  /** A rich-text column of a request with an empty list of buckets has the checkpoint file of the
      request without a list.  What it leaves there is right for that request, too, if and only if every
      key that some URL in the column contributes is also contributed by a URL that names no bucket. */
  lemma EmptyListPoisonsExactly(world: World, digest: Canon -> string, providers: seq<Provider>, r: Request, i: nat)
    requires ValidWorld(world) && Configured(world, providers) && i < |r.mappings|
    ensures Checkpoints.PathOf(ColumnWork(world, digest, r, Some([]), i)) == Checkpoints.PathOf(ColumnWork(world, digest, r, None, i))
    ensures var empty, full := ColumnWork(world, digest, r, Some([]), i), ColumnWork(world, digest, r, None, i);
            var rows := ReadRows(world, full);
            Truth(world, empty) == Truth(world, full)
            <==> forall key :: UrlGives(providers, rows, full.buckets, key) ==> UrlGives(providers, rows, {}, key)
  {
    var full := ColumnWork(world, digest, r, None, i);
    var rows := ReadRows(world, full);
    EmptyListSharesId(r, digest);
    EmptyListFinds(world, digest, r, i);
    forall key
      ensures key in KeysInRows(world, {}, rows) <==> UrlGives(providers, rows, {}, key)
      ensures key in KeysInRows(world, full.buckets, rows) <==> UrlGives(providers, rows, full.buckets, key)
      ensures UrlGives(providers, rows, {}, key) ==> UrlGives(providers, rows, full.buckets, key)
    {
      KeysAreGiven(world, providers, rows, {}, key);
      KeysAreGiven(world, providers, rows, full.buckets, key);
      if UrlGives(providers, rows, {}, key) {
        MoreBucketsGiveMore(providers, rows, full.buckets, key);
      }
    }
  }

  /** What it costs.  A quoted URL names a key that no other URL of the column contributes without its
      bucket.  Saving the column under the empty list leaves files that are wrong for the request
      without a list: the loaded keys lack that key, the column has it. */
  lemma EmptyListUnprotects(world: World, digest: Canon -> string, providers: seq<Provider>, r: Request, i: nat,
                            row: Row, before: string, after: string, p: Provider, bucket: string, key: string,
                            files: map<Path, File>, uuid: string)
    requires ValidWorld(world) && Configured(world, providers) && i < |r.mappings| && PlainRequest(r.(buckets := None))
    requires var m := r.mappings[i];
      var rows := world.tables(r.database, m.table, m.column, OrElse(m.idColumn, DEFAULT_ID));
      UniqueIds(rows) && row in rows
    requires ValidProvider(p) && ValidBucket(bucket) && IsKey(key) && key != "" && bucket in world.bucketNames(r.provider)
    requires row.value == Some(before + "\"" + ObjectUrl(p, bucket, key) + "\"" + after)
    requires var split := SplitObjectReference(providers, ObjectUrl(p, bucket, key)); split.bucket == Some(bucket) && split.key == key
    requires !UrlGives(providers, ReadRows(world, ColumnWork(world, digest, r, None, i)), {}, key)
    ensures var empty, full := ColumnWork(world, digest, r, Some([]), i), ColumnWork(world, digest, r, None, i);
            var saved := files[Checkpoints.PathOf(empty) := Whole(Truth(world, empty))] - {TempPath(Checkpoints.PathOf(empty), uuid)};
            && Checkpoints.PathOf(full) in saved && saved[Checkpoints.PathOf(full)].Whole? && saved[Checkpoints.PathOf(full)].data.KeysData?
            && key !in saved[Checkpoints.PathOf(full)].data.content.keys
            && Truth(world, full).KeysData? && key in Truth(world, full).content.keys
            && !Sound(world, digest, saved)
  {
    var empty, full := ColumnWork(world, digest, r, Some([]), i), ColumnWork(world, digest, r, None, i);
    EmptyListSharesId(r, digest);
    EmptyListFinds(world, digest, r, i);
    KeysAreGiven(world, providers, ReadRows(world, full), {}, key);
    FullListFinds(world, digest, providers, r, i, row, before, after, p, bucket, key);
    FullListFrom(world, digest, r, i);
    SavedForAnother(world, digest, r.(buckets := None), empty, full, files, uuid, key);
  }

  /** A save for one work in the file of another one, which yields a key more. */
  lemma SavedForAnother(world: World, digest: Canon -> string, r: Request, lacking: Work, full: Work,
                        files: map<Path, File>, uuid: string, key: string)
    requires ValidWorld(world) && From(world, digest, r, full) && Checkpoints.PathOf(lacking) == Checkpoints.PathOf(full)
    requires Truth(world, lacking).KeysData? && key !in Truth(world, lacking).content.keys
    requires Truth(world, full).KeysData? && key in Truth(world, full).content.keys
    ensures var saved := files[Checkpoints.PathOf(lacking) := Whole(Truth(world, lacking))]
                         - {TempPath(Checkpoints.PathOf(lacking), uuid)};
            && Checkpoints.PathOf(full) in saved && saved[Checkpoints.PathOf(full)] == Whole(Truth(world, lacking))
            && !Sound(world, digest, saved)
  {
    TempIsNoItem(Checkpoints.PathOf(lacking), uuid, full);
  }

  lemma EmptyListFinds(world: World, digest: Canon -> string, r: Request, i: nat)
    requires ValidWorld(world) && i < |r.mappings|
    ensures var empty, full := ColumnWork(world, digest, r, Some([]), i), ColumnWork(world, digest, r, None, i);
            var rows := ReadRows(world, full);
            Truth(world, empty) == KeysData(Content(KeysInRows(world, {}, rows), |rows|))
  {
    assert ColumnWork(world, digest, r, Some([]), i).buckets == {};
  }

  lemma FullListFrom(world: World, digest: Canon -> string, r: Request, i: nat)
    requires i < |r.mappings| && PlainRequest(r.(buckets := None))
    ensures From(world, digest, r.(buckets := None), ColumnWork(world, digest, r, None, i))
  {
  }

  lemma FullListFinds(world: World, digest: Canon -> string, providers: seq<Provider>, r: Request, i: nat,
                      row: Row, before: string, after: string, p: Provider, bucket: string, key: string)
    requires ValidWorld(world) && Configured(world, providers) && i < |r.mappings|
    requires var m := r.mappings[i];
      var rows := world.tables(r.database, m.table, m.column, OrElse(m.idColumn, DEFAULT_ID));
      UniqueIds(rows) && row in rows
    requires ValidProvider(p) && ValidBucket(bucket) && IsKey(key) && key != "" && bucket in world.bucketNames(r.provider)
    requires row.value == Some(before + "\"" + ObjectUrl(p, bucket, key) + "\"" + after)
    requires var split := SplitObjectReference(providers, ObjectUrl(p, bucket, key)); split.bucket == Some(bucket) && split.key == key
    ensures var full := ColumnWork(world, digest, r, None, i);
            Truth(world, full).KeysData? && key in Truth(world, full).content.keys
  {
    var full := ColumnWork(world, digest, r, None, i);
    QuotedUrlExtracted(providers, full.buckets, before, after, p, bucket, key);
    ColumnIsSearched(world, full, row, key);
  }

  /** A report made without a key lists its object as an orphan if no other column refers to it. */
  lemma UnprotectedIsOrphan(scope: Scope, refs: seq<DbRef>, objects: seq<StorageObject>, content: Option<Content>, r: Report,
                            key: string)
    requires IsReport(r, scope, refs, objects, content)
    requires key in StoredKeys(objects) && key !in ReferencedKeys(scope, refs)
    requires content.Some? ==> key !in content.value.keys
    ensures key in ToSet(OrphanPaths(r.orphan))
  {
    ClassesAreSetAlgebra(r, scope, refs, objects, content);
  }

  // ---------------------------------------------------------------- it happens

  /** One endpoint, one bucket, one rich-text column of one row that quotes the URL of one file. */
  function SampleProvider(): Provider {
    Provider("do", Some(Endpoint("https", "example.org")), "", true)
  }

  function SampleUrl(): string {
    ObjectUrl(SampleProvider(), "school", "photo")
  }

  function SampleRow(): Row {
    Row(1, Some("" + "\"" + SampleUrl() + "\"" + ""))
  }

  function SampleRequest(): Request {
    Request([Mapping("t", "body", None)], None, None, None, None)
  }

  function SampleWorld(): World {
    World((_, _, _, _) => [SampleRow()], (_, _, _) => [], (_, _) => false, _ => ["school"], None,
          (scanned, buckets, value) => Classify([SampleProvider()], scanned, buckets, value),
          (text, buckets) => EmbeddedKeys([SampleProvider()], text, buckets))
  }

  lemma SampleSplits()
    ensures ValidProvider(SampleProvider()) && ValidBucket("school") && IsKey("photo")
    ensures var split := SplitObjectReference([SampleProvider()], SampleUrl()); split.bucket == Some("school") && split.key == "photo"
  {
    ApartEndpointsUnclaimed([SampleProvider()], 0, "school");
    EndpointUrlRoundTrip([SampleProvider()], 0, "school", "photo");
  }

  lemma SampleIsValid()
    ensures ValidWorld(SampleWorld()) && Configured(SampleWorld(), [SampleProvider()])
    ensures UniqueIds([SampleRow()]) && PlainRequest(SampleRequest())
  {
  }

  lemma SampleHasOneUrl()
    ensures FindUrls(SampleRow().value.value, 0) == [SampleUrl()]
  {
    SampleSplits();
    PrintedIsUrl(SampleProvider(), "school", "photo");
    assert SampleRow().value.value == "" + ['"'] + SampleUrl() + ['"'] + "";
    OnlyUrl(SampleRow().value.value, SampleUrl());
  }

  lemma SampleFindsNothing()
    ensures !Embedded([SampleProvider()], {}, SampleRow().value.value, "photo")
  {
    SampleSplits();
    SampleHasOneUrl();
  }

  /** The premises of `EmptyListUnprotects` can be met: in this world, whatever the hash is, the file
      "photo" loses its protection. */
  lemma SampleUnprotects(digest: Canon -> string, files: map<Path, File>, uuid: string)
    ensures ValidWorld(SampleWorld())
    ensures var r := SampleRequest();
            var empty, full := ColumnWork(SampleWorld(), digest, r, Some([]), 0), ColumnWork(SampleWorld(), digest, r, None, 0);
            var saved := files[Checkpoints.PathOf(empty) := Whole(Truth(SampleWorld(), empty))]
                         - {TempPath(Checkpoints.PathOf(empty), uuid)};
            && Checkpoints.PathOf(full) in saved && saved[Checkpoints.PathOf(full)].Whole?
            && saved[Checkpoints.PathOf(full)].data.KeysData?
            && "photo" !in saved[Checkpoints.PathOf(full)].data.content.keys
            && Truth(SampleWorld(), full).KeysData? && "photo" in Truth(SampleWorld(), full).content.keys
  {
    SampleIsValid();
    SampleSplits();
    SampleKeysFound(digest);
    EmptyListUnprotects(SampleWorld(), digest, [SampleProvider()], SampleRequest(), 0, SampleRow(), "", "",
                        SampleProvider(), "school", "photo", files, uuid);
  }

  lemma SampleKeysFound(digest: Canon -> string)
    ensures ValidWorld(SampleWorld())
    ensures !UrlGives([SampleProvider()], ReadRows(SampleWorld(), ColumnWork(SampleWorld(), digest, SampleRequest(), None, 0)), {}, "photo")
  {
    SampleIsValid();
    SampleFindsNothing();
    var rows := [SampleRow()];
    UniqueIdsReadWhole(rows, CONTENT_BATCH_SIZE);
    assert rows[1..] == [];
    assert Scan(rows) == rows;
    assert ReadRows(SampleWorld(), ColumnWork(SampleWorld(), digest, SampleRequest(), None, 0)) == rows;
  }
}
