/** End to end: what rich text refers to is never reported as an orphan. */
module ContentProtection {
  import opened Basics
  import opened Checkpoints
  import opened CheckpointNames
  import opened Paging
  import opened PercentCoding
  import opened PyStrings
  import opened Reconciliation
  import opened Records
  import opened Scanner
  import opened Scans
  import opened Urls
  import opened UrlRoundTrip
  import opened UrlForms

  /** How a run classifies a column value. */
  function Classify(providers: seq<Provider>, scanned: Option<string>, buckets: seq<string>, value: string): Fate {
    var r := SplitObjectReference(providers, value);
    if r.hint.Some? && scanned.Some? && r.hint != scanned then DifferentProvider
    else if r.bucket.Some? && r.bucket.value !in buckets then OtherBucket
    else InScope(r.key)
  }

  /** The class of a value that names provider, bucket and key. */
  ghost predicate FateOfUrl(fate: Fate, scanned: Option<string>, buckets: seq<string>, provider: string, bucket: string, key: string) {
    var other := scanned.Some? && scanned.value != provider;
    && (fate == DifferentProvider <==> other)
    && (fate == OtherBucket <==> !other && bucket !in buckets)
    && (fate == InScope(key) <==> !other && bucket in buckets)
  }

  /** The URL of an object: counted out if another provider is scanned, else if its bucket is not scanned,
      and otherwise compared by its key. */
  lemma EndpointUrlFate(providers: seq<Provider>, scanned: Option<string>, buckets: seq<string>, index: nat, bucket: string, key: string)
    requires index < |providers| && ValidProvider(providers[index]) && providers[index].endpoint.Some?
    requires ValidBucket(bucket) && IsKey(key)
    requires Unclaimed(providers, index, Lower(HostOf(providers[index], bucket)))
    ensures FateOfUrl(Classify(providers, scanned, buckets, ObjectUrl(providers[index], bucket, key)),
                      scanned, buckets, providers[index].key, bucket, StripLeft(key, '/'))
  {
    EndpointUrlRoundTrip(providers, index, bucket, key);
  }

  /** The same for Amazon, whose objects are never those of a configured provider. */
  lemma AwsUrlFate(providers: seq<Provider>, scanned: Option<string>, buckets: seq<string>, p: Provider, bucket: string, key: string)
    requires ValidProvider(p) && p.endpoint.None? && ValidBucket(bucket) && IsKey(key) && !("/" <= key)
    requires AwsReadable(p.region, bucket) && Unclaimed(providers, -1, Lower(HostOf(p, bucket)))
    ensures FateOfUrl(Classify(providers, scanned, buckets, ObjectUrl(p, bucket, key)), scanned, buckets, "aws", bucket, key)
  {
    AwsUrlRoundTrip(providers, p, bucket, key);
  }

  /** A bare path is compared by what follows its slashes, whatever is scanned. */
  lemma PathFate(providers: seq<Provider>, scanned: Option<string>, buckets: seq<string>,
                 pre: string, slashes: string, key: string, post: string)
    requires AllBlank(pre) && AllBlank(post) && AllSlashes(slashes) && (key == "" || key[0] != '/')
    requires Bounded(slashes + key) && !StartsWithScheme(slashes + key)
    ensures Classify(providers, scanned, buckets, pre + (slashes + key) + post) == InScope(key)
  {
    BarePath(providers, pre, slashes, key, post);
  }

  /** So is the URL of a host in front of the storage, by its decoded path. */
  lemma ForeignFate(providers: seq<Provider>, scanned: Option<string>, buckets: seq<string>, scheme: string, host: string,
                    slashes: string, key: string, params: string, tail: string)
    requires scheme == "http" || scheme == "https"
    requires (forall c | c in host :: NetChar(c)) && Foreign(providers, host)
    requires AllSlashes(slashes) && slashes != "" && IsKey(key) && (key == "" || key[0] != '/')
    requires IsParams(params) && IsTail(tail)
    ensures var url := scheme + "://" + (host + ((slashes + Quote(key) + params) + tail));
            Classify(providers, scanned, buckets, url) == InScope(key)
  {
    var url := scheme + "://" + (host + ((slashes + Quote(key) + params) + tail));
    ForeignUrl(providers, "", scheme, host, slashes, key, params, tail, "");
    assert "" + url + "" == url;
  }

  /** The URL functions of the world are those of the configured providers. */
  ghost predicate Configured(world: World, providers: seq<Provider>) {
    && (forall scanned, buckets, value :: world.classify(scanned, buckets, value) == Classify(providers, scanned, buckets, value))
    && (forall text, buckets :: world.extract(text, buckets) == EmbeddedKeys(providers, text, buckets))
  }

  /** In a scan: the provider scanned is that of the request or, if it names none, the default one; the buckets
      are those of the request or, if it lists none, all of the provider. */
  lemma RequestFate(world: World, providers: seq<Provider>, request: Request, index: nat, bucket: string, key: string)
    requires Configured(world, providers)
    requires index < |providers| && ValidProvider(providers[index]) && providers[index].endpoint.Some?
    requires ValidBucket(bucket) && IsKey(key)
    requires Unclaimed(providers, index, Lower(HostOf(providers[index], bucket)))
    ensures var fate := ScopeOf(world, request).classify(ObjectUrl(providers[index], bucket, key));
            var buckets := if request.buckets.None? then world.bucketNames(request.provider) else request.buckets.value;
            var named := request.provider.Some? && |request.provider.value| > 0;
            && (named ==> FateOfUrl(fate, request.provider, buckets, providers[index].key, bucket, StripLeft(key, '/')))
            && (!named ==> FateOfUrl(fate, world.defaultProvider, buckets, providers[index].key, bucket, StripLeft(key, '/')))
  {
    EndpointUrlFate(providers, Effective(world, request), Resolve(world, request), index, bucket, key);
  }

  lemma {:induction false} ScanHas(rows: seq<Row>, row: Row)
    requires row in rows && NonEmpty(row)
    ensures row in Scan(rows)
  {
    if row != rows[0] {
      ScanHas(rows[1..], row);
    }
  }

  /** Every key found in a row that was read is among the collected ones. */
  lemma {:induction false} KeysOfRow(world: World, buckets: set<string>, rows: seq<Row>, row: Row, key: string)
    requires row in rows && row.value.Some? && key in world.extract(row.value.value, buckets)
    ensures key in KeysInRows(world, buckets, rows)
  {
    var n := |rows| - 1;
    if row != rows[n] {
      assert row in rows[..n];
      KeysOfRow(world, buckets, rows[..n], row, key);
    }
  }

  lemma {:induction false} KeysOfColumn(data: seq<Data>, i: nat, key: string)
    requires i < |data| && data[i].KeysData? && key in data[i].content.keys
    ensures key in ContentOf(data).keys
  {
    if i < |data| - 1 {
      KeysOfColumn(data[..|data| - 1], i, key);
    }
  }

  /** Without an error, the keys in every row of every rich-text column have been collected. */
  lemma RowsAreSearched(world: World, request: Request, contentMappings: seq<Mapping>, i: nat, row: Row, key: string)
    requires ValidWorld(world) && i < |contentMappings|
    requires var m := contentMappings[i];
      var rows := world.tables(request.database, m.table, m.column, OrElse(m.idColumn, DEFAULT_ID));
      UniqueIds(rows) && row in rows && NonEmpty(row)
    requires key in world.extract(row.value.value, ToSet(Resolve(world, request)))
    ensures TrueContent(world, request, contentMappings).Some?
    ensures key in TrueContent(world, request, contentMappings).value.keys
  {
    var content := request.(mappings := contentMappings);
    var work := ContentWorkOf(world, "", content, i);
    assert Resolve(world, content) == Resolve(world, request);
    ColumnIsSearched(world, work, row, key);
    WorkInTruths(world, content, i);
    KeysOfColumn(Truths(world, ContentWorks(world, "", content)), i, key);
  }

  /** With unique ids every row that is not empty is read. */
  lemma RowIsRead(world: World, work: Work, row: Row)
    requires ValidWorld(world) && !work.BucketWork?
    requires var rows := world.tables(work.database, work.table, work.column, work.idColumn);
      UniqueIds(rows) && row in rows && NonEmpty(row)
    ensures row in ReadRows(world, work)
  {
    var rows := world.tables(work.database, work.table, work.column, work.idColumn);
    UniqueIdsReadWhole(rows, BatchSize(work));
    ScanHas(rows, row);
  }

  lemma ColumnIsSearched(world: World, work: Work, row: Row, key: string)
    requires ValidWorld(world) && work.ContentWork?
    requires var rows := world.tables(work.database, work.table, work.column, work.idColumn);
      UniqueIds(rows) && row in rows && NonEmpty(row)
    requires key in world.extract(row.value.value, work.buckets)
    ensures Truth(world, work).KeysData? && key in Truth(world, work).content.keys
  {
    RowIsRead(world, work, row);
    KeysOfRow(world, work.buckets, ReadRows(world, work), row, key);
  }

  lemma WorkInTruths(world: World, request: Request, i: nat)
    requires ValidWorld(world) && i < |request.mappings|
    ensures var works := ContentWorks(world, "", request);
            |works| == |request.mappings| && Truths(world, works)[i] == Truth(world, ContentWorkOf(world, "", request, i))
  {
  }

  /** If some row of a rich-text column holds, between quotes and in whatever text, an object URL of
      a scanned bucket that splits into that bucket and key, and the rich text was read without
      error, then a run never reports the object as an orphan: if it is stored, it is matched or
      protected.  Errors in the other columns do not matter. */
  lemma QuotedObjectNeverOrphan(world: World, providers: seq<Provider>, request: Request, contentMappings: seq<Mapping>,
                                refs: seq<DbRef>, objects: seq<StorageObject>, r: Report,
                                i: nat, row: Row, before: string, after: string, p: Provider, bucket: string, key: string)
    requires ValidWorld(world) && Configured(world, providers) && i < |contentMappings|
    requires IsReport(r, ScopeOf(world, request), refs, objects, TrueContent(world, request, contentMappings))
    requires var m := contentMappings[i];
      var rows := world.tables(request.database, m.table, m.column, OrElse(m.idColumn, DEFAULT_ID));
      UniqueIds(rows) && row in rows
    requires ValidProvider(p) && ValidBucket(bucket) && IsKey(key) && key != "" && bucket in Resolve(world, request)
    requires row.value == Some(before + "\"" + ObjectUrl(p, bucket, key) + "\"" + after)
    requires var split := SplitObjectReference(providers, ObjectUrl(p, bucket, key)); split.bucket == Some(bucket) && split.key == key
    ensures key !in ToSet(OrphanPaths(r.orphan))
    ensures key in StoredKeys(objects) ==> key in ToSet(MatchedPaths(r.matched)) || key in ToSet(OrphanPaths(r.protected))
  {
    var buckets := ToSet(Resolve(world, request));
    QuotedUrlExtracted(providers, buckets, before, after, p, bucket, key);
    assert |row.value.value| > 0;
    RowsAreSearched(world, request, contentMappings, i, row, key);
    ClassesAreSetAlgebra(r, ScopeOf(world, request), refs, objects, TrueContent(world, request, contentMappings));
  }

  /** In particular for configured endpoints that are apart, whenever the key has no leading slash. */
  lemma EndpointObjectNeverOrphan(world: World, providers: seq<Provider>, request: Request, contentMappings: seq<Mapping>,
                                  refs: seq<DbRef>, objects: seq<StorageObject>, r: Report,
                                  i: nat, row: Row, before: string, after: string, index: nat, bucket: string, key: string)
    requires ValidWorld(world) && Configured(world, providers) && i < |contentMappings|
    requires IsReport(r, ScopeOf(world, request), refs, objects, TrueContent(world, request, contentMappings))
    requires var m := contentMappings[i];
      var rows := world.tables(request.database, m.table, m.column, OrElse(m.idColumn, DEFAULT_ID));
      UniqueIds(rows) && row in rows
    requires index < |providers| && ValidProvider(providers[index]) && providers[index].endpoint.Some?
    requires forall k :: 0 <= k < |providers| && k != index ==> Apart(providers[k], providers[index])
    requires ValidBucket(bucket) && IsKey(key) && key != "" && !("/" <= key) && bucket in Resolve(world, request)
    requires row.value == Some(before + "\"" + ObjectUrl(providers[index], bucket, key) + "\"" + after)
    ensures key !in ToSet(OrphanPaths(r.orphan))
  {
    ApartEndpointsUnclaimed(providers, index, bucket);
    EndpointUrlRoundTrip(providers, index, bucket, key);
    QuotedObjectNeverOrphan(world, providers, request, contentMappings, refs, objects, r, i, row, before, after,
                            providers[index], bucket, key);
  }

  /** The whole way: a scan from any sound disk whose rich-text part has no error never lists the
      quoted object as an orphan, whatever happened to the other columns and to the buckets. */
  method ScanSparesQuotedObject(disk: Disk, world: World, digest: Canon -> string, request: Request,
                                contentMappings: seq<Mapping>, mappings: Fanout, buckets: Fanout, contents: Fanout,
                                ghost providers: seq<Provider>, ghost i: nat, ghost row: Row, ghost before: string,
                                ghost after: string, ghost p: Provider, ghost bucket: string, ghost key: string)
    returns (r: Report, bucketSlots: seq<Slot>, contentSlots: seq<Slot>)
    requires ValidWorld(world) && Injective(digest) && Sound(world, digest, disk.files) && Configured(world, providers)
    requires PlainRequest(request) && PlainRequest(request.(mappings := contentMappings))
    requires ValidFanout(mappings, |request.mappings|) && ValidFanout(buckets, |Resolve(world, request)|)
    requires ValidFanout(contents, |contentMappings|) && i < |contentMappings|
    requires var m := contentMappings[i];
      var rows := world.tables(request.database, m.table, m.column, OrElse(m.idColumn, DEFAULT_ID));
      UniqueIds(rows) && row in rows
    requires ValidProvider(p) && ValidBucket(bucket) && IsKey(key) && key != "" && bucket in Resolve(world, request)
    requires row.value == Some(before + "\"" + ObjectUrl(p, bucket, key) + "\"" + after)
    requires var split := SplitObjectReference(providers, ObjectUrl(p, bucket, key)); split.bucket == Some(bucket) && split.key == key
    modifies disk
    ensures !AnyError(contentSlots) ==>
      && key !in ToSet(OrphanPaths(r.orphan))
      && (key in StoredKeys(Flatten(ObjectLists(SlotData(bucketSlots)))) ==>
            key in ToSet(MatchedPaths(r.matched)) || key in ToSet(OrphanPaths(r.protected)))
  {
    var mappingSlots;
    r, mappingSlots, bucketSlots, contentSlots :=
      RunScan(disk, world, digest, request, contentMappings, mappings, buckets, contents);
    if !AnyError(contentSlots) {
      QuotedObjectNeverOrphan(world, providers, request, contentMappings, Flatten(RefLists(SlotData(mappingSlots))),
                              Flatten(ObjectLists(SlotData(bucketSlots))), r, i, row, before, after, p, bucket, key);
    }
  }
}
