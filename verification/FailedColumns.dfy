/** What a scan reports about a stored object when some of its columns could not be read. */
module FailedColumns {
  import opened Basics
  import opened CheckpointNames
  import opened Checkpoints
  import opened ContentProtection
  import opened EmptyBucketList
  import opened Paging
  import opened Reconciliation
  import opened Records
  import opened Scanner
  import opened Scans
  import opened Urls
  import opened UrlRoundTrip

  // ---------------------------------------------------------------- which columns name a key

  function Column(request: Request, i: nat): Work
    requires i < |request.mappings|
  {
    MappingWorkOf("", request, i)
  }

  function RichText(world: World, request: Request, contentMappings: seq<Mapping>, j: nat): Work
    requires j < |contentMappings|
  {
    ContentWorkOf(world, "", request.(mappings := contentMappings), j)
  }

  /** A reference in the column names the key, in the scope of the request. */
  ghost predicate ColumnRefers(world: World, request: Request, i: nat, key: string)
    requires ValidWorld(world) && i < |request.mappings|
  {
    exists ref :: ref in Truth(world, Column(request, i)).refs && RefersTo(ScopeOf(world, request), ref, key)
  }

  /** A URL in the rich-text column names the key. */
  ghost predicate TextNames(world: World, request: Request, contentMappings: seq<Mapping>, j: nat, key: string)
    requires ValidWorld(world) && j < |contentMappings|
  {
    key in Truth(world, RichText(world, request, contentMappings, j)).content.keys
  }

  /** Only columns that could not be read refer to the key. */
  ghost predicate OnlyFailedRefer(world: World, request: Request, slots: seq<Slot>, key: string)
    requires ValidWorld(world) && |slots| == |request.mappings|
  {
    forall i: nat :: i < |slots| && ColumnRefers(world, request, i, key) ==> slots[i].error
  }

  ghost predicate OnlyFailedName(world: World, request: Request, contentMappings: seq<Mapping>, slots: seq<Slot>, key: string)
    requires ValidWorld(world) && |slots| == |contentMappings|
  {
    forall j: nat :: j < |slots| && TextNames(world, request, contentMappings, j, key) ==> slots[j].error
  }

  // ---------------------------------------------------------------- what was read

  lemma {:induction false} InFlatten<T>(lists: seq<seq<T>>, x: T)
    ensures x in Flatten(lists) <==> exists i :: 0 <= i < |lists| && x in lists[i]
  {
    if lists != [] {
      var n := |lists| - 1;
      InFlatten(lists[..n], x);
      assert forall i :: 0 <= i < n ==> lists[..n][i] == lists[i];
    }
  }

  /** What the slot of a column holds: nothing after an error, else its references. */
  lemma ColumnSlot(world: World, digest: Canon -> string, request: Request, slots: seq<Slot>, i: nat)
    requires ValidWorld(world) && SlotsTrue(world, Columns(digest, request), slots) && i < |slots|
    ensures |slots| == |request.mappings|
    ensures RefLists(SlotData(slots))[i] == if slots[i].error then [] else Truth(world, Column(request, i)).refs
  {
  }

  /** The references that were read name a key if and only if a column without an error does. */
  lemma ReferencesRead(world: World, digest: Canon -> string, request: Request, slots: seq<Slot>, key: string)
    requires ValidWorld(world) && SlotsTrue(world, Columns(digest, request), slots)
    ensures |slots| == |request.mappings|
    ensures key in ReferencedKeys(ScopeOf(world, request), Flatten(RefLists(SlotData(slots))))
            <==> !OnlyFailedRefer(world, request, slots, key)
  {
    var scope, lists := ScopeOf(world, request), RefLists(SlotData(slots));
    var refs := Flatten(lists);
    ReferencedWhen(scope, refs, key);
    if key in ReferencedKeys(scope, refs) {
      var k :| 0 <= k < |refs| && RefersTo(scope, refs[k], key);
      InFlatten(lists, refs[k]);
      var i: nat :| i < |lists| && refs[k] in lists[i];
      ColumnSlot(world, digest, request, slots, i);
      assert ColumnRefers(world, request, i, key);
    }
    if !OnlyFailedRefer(world, request, slots, key) {
      var i: nat :| i < |slots| && ColumnRefers(world, request, i, key) && !slots[i].error;
      ColumnSlot(world, digest, request, slots, i);
      var ref :| ref in Truth(world, Column(request, i)).refs && RefersTo(scope, ref, key);
      InFlatten(lists, ref);
      var k :| 0 <= k < |refs| && refs[k] == ref;
    }
  }

  lemma {:induction false} InContent(data: seq<Data>, key: string)
    ensures key in ContentOf(data).keys <==> exists j :: 0 <= j < |data| && data[j].KeysData? && key in data[j].content.keys
  {
    if data != [] {
      var n := |data| - 1;
      InContent(data[..n], key);
      assert forall j :: 0 <= j < n ==> data[..n][j] == data[j];
    }
  }

  lemma TextSlot(world: World, digest: Canon -> string, request: Request, contentMappings: seq<Mapping>, slots: seq<Slot>, j: nat)
    requires ValidWorld(world) && SlotsTrue(world, RichTexts(world, digest, request, contentMappings), slots) && j < |slots|
    ensures |slots| == |contentMappings| && SlotData(slots)[j].KeysData?
    ensures SlotData(slots)[j].content.keys
            == if slots[j].error then {} else Truth(world, RichText(world, request, contentMappings, j)).content.keys
  {
  }

  /** The rich text that was read names a key if and only if a column without an error does. */
  lemma TextsRead(world: World, digest: Canon -> string, request: Request, contentMappings: seq<Mapping>, slots: seq<Slot>, key: string)
    requires ValidWorld(world) && SlotsTrue(world, RichTexts(world, digest, request, contentMappings), slots)
    ensures |slots| == |contentMappings|
    ensures key in ContentOf(SlotData(slots)).keys <==> !OnlyFailedName(world, request, contentMappings, slots, key)
  {
    InContent(SlotData(slots), key);
    forall j: nat | j < |slots|
      ensures SlotData(slots)[j].KeysData?
      ensures key in SlotData(slots)[j].content.keys
              <==> !slots[j].error && TextNames(world, request, contentMappings, j, key)
    {
      TextSlot(world, digest, request, contentMappings, slots, j);
    }
  }

  // ---------------------------------------------------------------- the classes of a stored key

  /** The class of a stored key.  It is matched exactly when a column that was read refers to it; else
      protected exactly when rich text that was read names it; else an orphan. */
  ghost predicate ClassRight(world: World, request: Request, contentMappings: seq<Mapping>,
                             mappingSlots: seq<Slot>, contentSlots: seq<Slot>, r: Report, key: string)
    requires ValidWorld(world) && |mappingSlots| == |request.mappings| && |contentSlots| == |contentMappings|
  {
    var unread := OnlyFailedRefer(world, request, mappingSlots, key);
    var unnamed := OnlyFailedName(world, request, contentMappings, contentSlots, key);
    && (key in ToSet(MatchedPaths(r.matched)) <==> !unread)
    && (key in ToSet(OrphanPaths(r.protected)) <==> unread && !unnamed)
    && (key in ToSet(OrphanPaths(r.orphan)) <==> unread && unnamed)
  }

  lemma KeyClasses(world: World, digest: Canon -> string, request: Request, contentMappings: seq<Mapping>, r: Report,
                   mappingSlots: seq<Slot>, objects: seq<StorageObject>, contentSlots: seq<Slot>, key: string)
    requires ValidWorld(world) && SlotsTrue(world, Columns(digest, request), mappingSlots)
    requires SlotsTrue(world, RichTexts(world, digest, request, contentMappings), contentSlots)
    requires IsReport(r, ScopeOf(world, request), Flatten(RefLists(SlotData(mappingSlots))), objects,
                      if contentMappings == [] then None else Some(ContentOf(SlotData(contentSlots))))
    requires key in StoredKeys(objects)
    ensures |mappingSlots| == |request.mappings| && |contentSlots| == |contentMappings|
    ensures ClassRight(world, request, contentMappings, mappingSlots, contentSlots, r, key)
  {
    ClassesAreSetAlgebra(r, ScopeOf(world, request), Flatten(RefLists(SlotData(mappingSlots))), objects,
                         if contentMappings == [] then None else Some(ContentOf(SlotData(contentSlots))));
    ReferencesRead(world, digest, request, mappingSlots, key);
    TextsRead(world, digest, request, contentMappings, contentSlots, key);
  }

  /** A scan from any sound disk, with any failures.  An orphan is said to be absent from every column;
      of the stored keys that a column refers to, or a rich text names, those are listed as orphans,
      and no others, for which all these columns and all these rich texts failed. */
  method ScanListsOrphansExactly(disk: Disk, world: World, digest: Canon -> string, request: Request,
                                 contentMappings: seq<Mapping>, weather: Weather)
    returns (r: Report, mappingSlots: seq<Slot>, bucketSlots: seq<Slot>, contentSlots: seq<Slot>)
    requires ValidWorld(world) && Injective(digest) && Sound(world, digest, disk.files)
    requires PlainRequest(request) && PlainRequest(request.(mappings := contentMappings))
    requires ValidWeather(world, request, contentMappings, weather)
    modifies disk
    ensures |mappingSlots| == |request.mappings| && |contentSlots| == |contentMappings|
    ensures FetchedRight(world, digest, request, contentMappings, weather.mappings, weather.buckets, weather.contents,
                         old(disk.files), mappingSlots, bucketSlots, contentSlots)
    ensures forall key :: key in StoredKeys(Flatten(ObjectLists(SlotData(bucketSlots)))) ==>
              ClassRight(world, request, contentMappings, mappingSlots, contentSlots, r, key)
  {
    r, mappingSlots, bucketSlots, contentSlots :=
      RunScan(disk, world, digest, request, contentMappings, weather.mappings, weather.buckets, weather.contents);
    ghost var objects := Flatten(ObjectLists(SlotData(bucketSlots)));
    forall key | key in StoredKeys(objects)
      ensures ClassRight(world, request, contentMappings, mappingSlots, contentSlots, r, key)
    {
      KeyClasses(world, digest, request, contentMappings, r, mappingSlots, objects, contentSlots, key);
    }
  }

  // ---------------------------------------------------------------- it happens

  /** One bucket with one file, whose URL stands in the column `path` and, quoted, in the column `body`. */
  function OneFile(): World {
    SampleWorld().(tables := (_, _, column, _) => if column == "path" then [Row(1, Some(SampleUrl()))]
                                                  else if column == "body" then [SampleRow()] else [],
                   listing := (_, _, _) => [StorageObject("school", "photo", 1, None, None)])
  }

  const BREAKS: Plan := Plan([Some(0), Some(0), Some(0)], true, "a")
  const WORKS: Plan := Plan([None, None, None], true, "b")

  function Fares(fails: bool): Fanout {
    Fanout([if fails then BREAKS else WORKS], [0])
  }

  function For(column: string): Request {
    Request([Mapping("t", column, None)], None, None, None, None)
  }

  lemma OneFileIsValid()
    ensures ValidWorld(OneFile()) && Configured(OneFile(), [SampleProvider()])
  {
    SampleIsValid();
    assert OneFile().classify == SampleWorld().classify && OneFile().extract == SampleWorld().extract;
    forall d, t, c, i
      ensures Ordered(OneFile().tables(d, t, c, i))
    {
      assert |OneFile().tables(d, t, c, i)| <= 1;
    }
  }

  lemma RequestsArePlain()
    ensures PlainRequest(For("path")) && PlainRequest(For("title"))
    ensures PlainRequest(For("path").(mappings := [])) && PlainRequest(For("title").(mappings := For("body").mappings))
  {
  }

  lemma FaresValid(fails: bool)
    ensures ValidFanout(Fares(fails), 1) && ValidFanout(Fanout([], []), 0)
  {
    assert [0][0] == 0;
  }

  lemma BreaksOrWorks(n: nat)
    ensures AllFail(BREAKS.attempts, n) && !AllFail(WORKS.attempts, n)
  {
    assert !Fails(WORKS.attempts[0], n);
  }

  /** A single item, fetched from an empty disk, fails when its attempts do. */
  lemma SingleFares(world: World, works: seq<Work>, fails: bool, slots: seq<Slot>)
    requires ValidWorld(world) && |works| == 1 && !IsAbroad(world, works[0])
    requires var work := works[0];
      if work.BucketWork? then !world.abroad(work.provider, work.bucket)
      else ValidNames(work.database, work.table, work.column, work.idColumn)
    requires ErrorsRight(world, works, Fares(fails).plans, slots, map[])
    ensures |slots| == 1 && slots[0].error == fails
  {
    var work := works[0];
    BreaksOrWorks(if work.BucketWork? then |world.listing(work.provider, work.prefix, work.bucket)| else |ReadRows(world, work)|);
    assert ErrorRight(world, works, Fares(fails).plans, 0, slots[0], map[]);
    assert Alone(works, 0);
  }

  lemma UrlNotEmpty()
    ensures SampleUrl() != ""
  {
    SampleSplits();
    PrintedIsUrl(SampleProvider(), "school", "photo");
  }

  lemma PathRead()
    ensures ValidWorld(OneFile())
    ensures ReadRows(OneFile(), Column(For("path"), 0)) == [Row(1, Some(SampleUrl()))]
  {
    OneFileIsValid();
    UrlNotEmpty();
    var rows := [Row(1, Some(SampleUrl()))];
    UniqueIdsReadWhole(rows, BATCH_SIZE);
    assert rows[1..] == [];
    assert Scan(rows) == rows;
  }

  /** A reference that names a scanned bucket, and no provider other than the scanned one, is in scope. */
  lemma InScopeWhen(world: World, providers: seq<Provider>, request: Request, value: string)
    requires Configured(world, providers) && Effective(world, request).None?
    requires var split := SplitObjectReference(providers, value);
      split.bucket.Some? && split.bucket.value in Resolve(world, request)
    ensures ScopeOf(world, request).classify(value) == InScope(SplitObjectReference(providers, value).key)
  {
  }

  lemma SchoolInScope(url: string)
    requires var split := SplitObjectReference([SampleProvider()], url); split.bucket == Some("school") && split.key == "photo"
    ensures ScopeOf(OneFile(), For("path")).classify(url) == InScope("photo")
  {
    OneFileIsValid();
    InScopeWhen(OneFile(), [SampleProvider()], For("path"), url);
  }

  lemma UrlInScope()
    ensures ScopeOf(OneFile(), For("path")).classify(SampleUrl()) == InScope("photo")
  {
    SampleSplits();
    SchoolInScope(SampleUrl());
  }

  lemma PathRefers()
    ensures ValidWorld(OneFile()) && ColumnRefers(OneFile(), For("path"), 0, "photo")
  {
    OneFileIsValid();
    PathRead();
    UrlInScope();
    var ref := Truth(OneFile(), Column(For("path"), 0)).refs[0];
    assert RefersTo(ScopeOf(OneFile(), For("path")), ref, "photo");
  }

  lemma BodyNames()
    ensures ValidWorld(OneFile()) && TextNames(OneFile(), For("title"), For("body").mappings, 0, "photo")
  {
    OneFileIsValid();
    SampleSplits();
    var work := RichText(OneFile(), For("title"), For("body").mappings, 0);
    assert "school" in work.buckets;
    QuotedUrlExtracted([SampleProvider()], work.buckets, "", "", SampleProvider(), "school", "photo");
    ColumnIsSearched(OneFile(), work, SampleRow(), "photo");
  }

  lemma TitleRefersToNothing()
    ensures ValidWorld(OneFile()) && !ColumnRefers(OneFile(), For("title"), 0, "photo")
  {
    OneFileIsValid();
    assert Scan([]) == [];
    assert ReadRows(OneFile(), Column(For("title"), 0)) == [];
  }

  lemma PhotoStored(digest: Canon -> string, column: string, slots: seq<Slot>)
    requires ValidWorld(OneFile()) && SlotsTrue(OneFile(), Places(OneFile(), digest, For(column)), slots)
    requires |slots| == 1 && !slots[0].error
    ensures "photo" in StoredKeys(Flatten(ObjectLists(SlotData(slots))))
  {
    var lists := ObjectLists(SlotData(slots));
    var o := StorageObject("school", "photo", 1, None, None);
    assert lists[0] == [o];
    assert lists[..0] == [];
    assert Flatten(lists) == [o];
    assert Flatten(lists)[0].key == "photo";
  }

  /** The plain facts about a scan of this world for one column, with these rich-text columns. */
  lemma OneFileFares(digest: Canon -> string, column: string, contentMappings: seq<Mapping>, columnFails: bool, texts: Fanout,
                     columnSlots: seq<Slot>, placeSlots: seq<Slot>, textSlots: seq<Slot>)
    requires ValidWorld(OneFile()) && PlainIdentifier(column)
    requires FetchedRight(OneFile(), digest, For(column), contentMappings, Fares(columnFails), Fares(false), texts, map[],
                          columnSlots, placeSlots, textSlots)
    ensures |columnSlots| == 1 && columnSlots[0].error == columnFails
    ensures "photo" in StoredKeys(Flatten(ObjectLists(SlotData(placeSlots))))
  {
    SingleFares(OneFile(), Columns(digest, For(column)), columnFails, columnSlots);
    SingleFares(OneFile(), Places(OneFile(), digest, For(column)), false, placeSlots);
    PhotoStored(digest, column, placeSlots);
  }

  lemma BodyFares(digest: Canon -> string, fails: bool, textSlots: seq<Slot>)
    requires ValidWorld(OneFile())
    requires ErrorsRight(OneFile(), RichTexts(OneFile(), digest, For("title"), For("body").mappings), Fares(fails).plans, textSlots, map[])
    ensures |textSlots| == 1 && textSlots[0].error == fails
  {
    SingleFares(OneFile(), RichTexts(OneFile(), digest, For("title"), For("body").mappings), fails, textSlots);
  }

  /** A file whose URL stands in a column is an orphan in the report of a scan that could not read the
      column, and matched in one that could. */
  method ColumnFailureMakesOrphan(digest: Canon -> string, fails: bool) returns (r: Report)
    requires Injective(digest)
    ensures ValidWorld(OneFile()) && ColumnRefers(OneFile(), For("path"), 0, "photo")
    ensures if fails then "photo" in ToSet(OrphanPaths(r.orphan)) else "photo" in ToSet(MatchedPaths(r.matched))
  {
    OneFileIsValid();
    PathRefers();
    var disk := StartScan(digest);
    var columns, places, texts;
    FaresValid(fails);
    FaresValid(false);
    RequestsArePlain();
    r, columns, places, texts :=
      ScanListsOrphansExactly(disk, OneFile(), digest, For("path"), [], Weather(Fares(fails), Fares(false), Fanout([], [])));
    OneFileFares(digest, "path", [], fails, Fanout([], []), columns, places, texts);
    PathClass(columns, texts, r, fails);
  }

  lemma PathClass(columns: seq<Slot>, texts: seq<Slot>, r: Report, fails: bool)
    requires ValidWorld(OneFile()) && ColumnRefers(OneFile(), For("path"), 0, "photo")
    requires |columns| == 1 && columns[0].error == fails && texts == []
    requires ClassRight(OneFile(), For("path"), [], columns, texts, r, "photo")
    ensures if fails then "photo" in ToSet(OrphanPaths(r.orphan)) else "photo" in ToSet(MatchedPaths(r.matched))
  {
  }

  /** An empty disk, which is sound. */
  method StartScan(digest: Canon -> string) returns (disk: Disk)
    ensures fresh(disk) && disk.files == map[] && ValidWorld(OneFile()) && Sound(OneFile(), digest, disk.files)
  {
    OneFileIsValid();
    EmptyDiskIsSound(OneFile(), digest);
    disk := new Disk();
  }

  /** A file that only rich text names is an orphan in the report of a scan that could not read the rich
      text, and protected in one that could. */
  method RichTextFailureMakesOrphan(digest: Canon -> string, fails: bool) returns (r: Report)
    requires Injective(digest)
    ensures ValidWorld(OneFile()) && TextNames(OneFile(), For("title"), For("body").mappings, 0, "photo")
    ensures if fails then "photo" in ToSet(OrphanPaths(r.orphan)) else "photo" in ToSet(OrphanPaths(r.protected))
  {
    OneFileIsValid();
    BodyNames();
    TitleRefersToNothing();
    var disk := StartScan(digest);
    var columns, places, texts;
    FaresValid(fails);
    FaresValid(false);
    RequestsArePlain();
    var bodies := For("body").mappings;
    r, columns, places, texts :=
      ScanListsOrphansExactly(disk, OneFile(), digest, For("title"), bodies, Weather(Fares(false), Fares(false), Fares(fails)));
    OneFileFares(digest, "title", bodies, false, Fares(fails), columns, places, texts);
    BodyFares(digest, fails, texts);
    BodyClass(columns, texts, r, fails);
  }

  lemma BodyClass(columns: seq<Slot>, texts: seq<Slot>, r: Report, fails: bool)
    requires ValidWorld(OneFile()) && TextNames(OneFile(), For("title"), For("body").mappings, 0, "photo")
    requires !ColumnRefers(OneFile(), For("title"), 0, "photo")
    requires |columns| == |texts| == 1 && texts[0].error == fails
    requires ClassRight(OneFile(), For("title"), For("body").mappings, columns, texts, r, "photo")
    ensures if fails then "photo" in ToSet(OrphanPaths(r.orphan)) else "photo" in ToSet(OrphanPaths(r.protected))
  {
  }
}
