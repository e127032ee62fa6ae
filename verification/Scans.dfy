/** The scan itself: fetching every item once, resuming from checkpoints, reporting. */
module Scans {
  import opened Basics
  import opened CheckpointNames
  import opened Checkpoints
  import opened Paging
  import opened Reconciliation
  import opened Records

  class Disk {
    var files: map<Path, File>

    constructor ()
      ensures files == map[]
    {
      files := map[];
    }
  }

  /** How an item goes, should it have to be fetched: its attempts, whether the save succeeds, and
      the unique part of the temporary file's name. */
  datatype Plan = Plan(attempts: seq<Attempt>, saved: bool, uuid: string)

  /** Fetched, empty because the bucket lives in another region, or given up. */
  datatype Outcome = Done(data: Data) | Abroad | GivenUp

  function EmptyData(work: Work): Data {
    match work
    case MappingWork(_, _, _, _, _) => RefsData([])
    case BucketWork(_, _, _, _) => ObjectsData([])
    case ContentWork(_, _, _, _, _, _) => KeysData(Content({}, 0))
  }

  // ---------------------------------------------------------------- files

  method Load(disk: Disk, work: Work) returns (cached: Option<Data>)
    requires PathOf(work) in disk.files ==> disk.files[PathOf(work)].Whole?
    ensures cached == if PathOf(work) in disk.files then Some(disk.files[PathOf(work)].data) else None
  {
    cached := if PathOf(work) in disk.files then Some(disk.files[PathOf(work)].data) else None;
  }

  /** Temporary file, then rename. */
  method SaveAtomic(disk: Disk, work: Work, data: Data, uuid: string)
    modifies disk
    ensures disk.files == old(disk.files)[PathOf(work) := Whole(data)] - {TempPath(PathOf(work), uuid)}
  {
    var path, temp := PathOf(work), TempPath(PathOf(work), uuid);
    TempIsNoItem(path, uuid, work);
    disk.files := disk.files[temp := Torn];
    disk.files := disk.files[temp := Whole(data)];
    disk.files := disk.files[path := disk.files[temp]] - {temp};
  }

  /** Saving what a work should yield keeps the disk sound. */
  lemma SaveIsSound(world: World, digest: Canon -> string, before: map<Path, File>, after: map<Path, File>, r: Request, work: Work, uuid: string)
    requires ValidWorld(world) && Injective(digest) && Sound(world, digest, before) && From(world, digest, r, work)
    requires after == before[PathOf(work) := Whole(Truth(world, work))] - {TempPath(PathOf(work), uuid)}
    ensures Sound(world, digest, after)
  {
    SoundAfterWrite(world, digest, before, r, work);
    TempIsNoItemAtAll(PathOf(work), uuid);
    SoundWithoutTemp(world, digest, before[PathOf(work) := Whole(Truth(world, work))], after, TempPath(PathOf(work), uuid));
  }

  /** The three assignments of a save are three steps of the machine whose processes may be killed
      between any two of them. */
  lemma SaveIsThreeSteps(world: World, digest: Canon -> string, m: Machine, w: nat, r: Request, work: Work, uuid: string)
    requires ValidWorld(world) && Possible(world, digest, m, Open(w, r, work, uuid))
    ensures var begun := After(world, digest, m, Open(w, r, work, uuid));
            Possible(world, digest, begun, Fill(w))
    ensures var begun := After(world, digest, m, Open(w, r, work, uuid));
            Possible(world, digest, After(world, digest, begun, Fill(w)), Rename(w))
    ensures var begun := After(world, digest, m, Open(w, r, work, uuid));
            var renamed := After(world, digest, After(world, digest, begun, Fill(w)), Rename(w));
            renamed == Machine(m.files[PathOf(work) := Whole(Truth(world, work))] - {TempPath(PathOf(work), uuid)}, m.writers)
  {
    var begun := After(world, digest, m, Open(w, r, work, uuid));
    var filled := After(world, digest, begun, Fill(w));
    var temp := TempPath(PathOf(work), uuid);
    TempIsNoItem(PathOf(work), uuid, work);
    assert begun.writers[w].work == work;
    assert filled.files == m.files[temp := Whole(Truth(world, work))];
    assert filled.writers - {w} == m.writers;
  }

  method Clear(disk: Disk, id: string)
    modifies disk
    ensures disk.files == map p | p in old(disk.files) && p.0 != id :: old(disk.files)[p]
  {
    disk.files := map p | p in disk.files && p.0 != id :: disk.files[p];
  }

  lemma ClearIsSound(world: World, digest: Canon -> string, files: map<Path, File>, id: string)
    requires ValidWorld(world) && Sound(world, digest, files)
    ensures Sound(world, digest, map p | p in files && p.0 != id :: files[p])
  {
  }

  // ---------------------------------------------------------------- fetching one item

  predicate ValidNames(database: Option<string>, table: string, column: string, idColumn: string) {
    && ValidIdentifier(table) && ValidIdentifier(column) && ValidIdentifier(idColumn)
    && (database.Some? && database.value != "" ==> ValidIdentifier(database.value))
  }

  method FetchRows(world: World, work: Work, attempts: seq<Attempt>) returns (rows: Option<seq<Row>>)
    requires ValidWorld(world) && !work.BucketWork? && |attempts| == RETRY_ATTEMPTS
    ensures rows.Some? ==> rows.value == ReadRows(world, work)
    ensures rows.None? <==>
      !ValidNames(work.database, work.table, work.column, work.idColumn) || AllFail(attempts, |ReadRows(world, work)|)
    ensures !ValidIdentifier(work.table) || !ValidIdentifier(work.column) || !ValidIdentifier(work.idColumn) ==> rows.None?
    ensures work.database.Some? && work.database.value != "" && !ValidIdentifier(work.database.value) ==> rows.None?
  {
    if !ValidNames(work.database, work.table, work.column, work.idColumn) {
      return None;
    }
    var stored := world.tables(work.database, work.table, work.column, work.idColumn);
    rows := CollectWithRetries(stored, BatchSize(work), attempts);
  }

  method ListBucket(listing: seq<StorageObject>, attempts: seq<Attempt>) returns (objects: Option<seq<StorageObject>>)
    requires |attempts| == RETRY_ATTEMPTS
    ensures objects.Some? ==> objects.value == listing
    ensures objects.None? <==> forall k :: 0 <= k < RETRY_ATTEMPTS ==> Fails(attempts[k], |listing|)
  {
    for k := 0 to RETRY_ATTEMPTS
      invariant forall j :: 0 <= j < k ==> Fails(attempts[j], |listing|)
    {
      var collected, failed := Drain(listing, attempts[k]);
      if !failed {
        return Some(collected);
      }
    }
    objects := None;
  }

  method CollectKeys(world: World, buckets: set<string>, rows: seq<Row>) returns (keys: set<string>)
    ensures keys == KeysInRows(world, buckets, rows)
  {
    keys := {};
    for i := 0 to |rows|
      invariant keys == KeysInRows(world, buckets, rows[..i])
    {
      assert rows[..i + 1][..i] == rows[..i];
      if rows[i].value.Some? {
        keys := keys + world.extract(rows[i].value.value, buckets);
      }
    }
    assert rows[..|rows|] == rows;
  }

  predicate IsAbroad(world: World, work: Work) {
    work.BucketWork? && world.abroad(work.provider, work.bucket)
  }

  /** When fetching an item is given up. */
  ghost predicate GivesUp(world: World, work: Work, attempts: seq<Attempt>)
    requires ValidWorld(world) && |attempts| == RETRY_ATTEMPTS
  {
    match work
    case BucketWork(_, provider, prefix, bucket) =>
      !world.abroad(provider, bucket) && AllFail(attempts, |world.listing(provider, prefix, bucket)|)
    case _ =>
      !ValidNames(work.database, work.table, work.column, work.idColumn) || AllFail(attempts, |ReadRows(world, work)|)
  }

  /** Whatever an item yields is what it should yield. */
  method Perform(world: World, work: Work, attempts: seq<Attempt>) returns (outcome: Outcome)
    requires ValidWorld(world) && |attempts| == RETRY_ATTEMPTS
    ensures outcome.Done? ==> outcome.data == Truth(world, work)
    ensures outcome.Abroad? ==> EmptyData(work) == Truth(world, work)
    ensures outcome.Abroad? <==> IsAbroad(world, work)
    ensures outcome.GivenUp? <==> GivesUp(world, work, attempts)
  {
    match work
    case MappingWork(_, _, table, column, _) =>
      var rows := FetchRows(world, work, attempts);
      outcome := if rows.Some? then Done(RefsData(AsRefs(table, column, rows.value))) else GivenUp;
    case BucketWork(_, provider, prefix, bucket) =>
      if world.abroad(provider, bucket) {
        return Abroad;
      }
      var objects := ListBucket(world.listing(provider, prefix, bucket), attempts);
      outcome := if objects.Some? then Done(ObjectsData(objects.value)) else GivenUp;
    case ContentWork(_, _, buckets, _, _, _) =>
      var rows := FetchRows(world, work, attempts);
      if rows.None? {
        return GivenUp;
      }
      var keys := CollectKeys(world, buckets, rows.value);
      outcome := Done(KeysData(Content(keys, |rows.value|)));
  }

  /** When a worker that has no checkpoint ends with an error. */
  ghost predicate MustFail(world: World, work: Work, plan: Plan)
    requires ValidWorld(world) && |plan.attempts| == RETRY_ATTEMPTS
  {
    !IsAbroad(world, work) && (GivesUp(world, work, plan.attempts) || !plan.saved)
  }

  /** One worker: the checkpoint if there is one; else fetch and save. */
  method Worker(disk: Disk, world: World, ghost digest: Canon -> string, ghost request: Request, work: Work, plan: Plan)
    returns (data: Data, error: bool, fetched: bool)
    requires ValidWorld(world) && Injective(digest) && Sound(world, digest, disk.files)
    requires From(world, digest, request, work) && |plan.attempts| == RETRY_ATTEMPTS
    modifies disk
    ensures Sound(world, digest, disk.files)
    ensures data == if error then EmptyData(work) else Truth(world, work)
    ensures fetched <==> PathOf(work) !in old(disk.files)
    ensures error <==> fetched && MustFail(world, work, plan)
    ensures !fetched ==> disk.files == old(disk.files)
    ensures forall p :: p in old(disk.files) && p != TempPath(PathOf(work), plan.uuid) ==> p in disk.files
    ensures !error ==> PathOf(work) in disk.files || IsAbroad(world, work)
    ensures forall p | p in disk.files :: p in old(disk.files) || p == PathOf(work)
  {
    var cached := Load(disk, work);
    if cached.Some? {
      return cached.value, false, false;
    }
    var outcome := Perform(world, work, plan.attempts);
    match outcome
    case Done(d) =>
      if plan.saved {
        ghost var before := disk.files;
        SaveAtomic(disk, work, d, plan.uuid);
        SaveIsSound(world, digest, before, disk.files, request, work, plan.uuid);
        TempIsNoItem(PathOf(work), plan.uuid, work);
        return d, false, true;
      }
      return EmptyData(work), true, true;
    case Abroad => return EmptyData(work), false, true;
    case GivenUp => return EmptyData(work), true, true;
  }

  // ---------------------------------------------------------------- fetching all items

  ghost function Truths(world: World, works: seq<Work>): seq<Data>
    requires ValidWorld(world)
  {
    seq(|works|, i requires 0 <= i < |works| => Truth(world, works[i]))
  }

  ghost predicate AllFrom(world: World, digest: Canon -> string, request: Request, works: seq<Work>) {
    forall i :: 0 <= i < |works| ==> From(world, digest, request, works[i])
  }

  datatype Slot = Slot(data: Data, error: bool, fetched: bool)

  /** What a worker leaves in its slot, given the files before the fan-out and those now. */
  ghost predicate SlotRight(world: World, work: Work, slot: Slot, before: map<Path, File>, now: map<Path, File>)
    requires ValidWorld(world)
  {
    && slot.data == (if slot.error then EmptyData(work) else Truth(world, work))
    && (PathOf(work) in before ==> !slot.fetched && !slot.error)
    && (!slot.error ==> PathOf(work) in now || IsAbroad(world, work))
  }

  /** No item file has gone. */
  ghost predicate Grown(before: map<Path, File>, now: map<Path, File>) {
    forall work :: PathOf(work) in before ==> PathOf(work) in now
  }

  lemma SlotStaysRight(world: World, work: Work, slot: Slot, before: map<Path, File>, now: map<Path, File>, later: map<Path, File>)
    requires ValidWorld(world) && SlotRight(world, work, slot, before, now) && Grown(now, later)
    ensures SlotRight(world, work, slot, before, later)
  {
  }

  ghost predicate SlotsRight(world: World, works: seq<Work>, slots: seq<Slot>, before: map<Path, File>, now: map<Path, File>)
    requires ValidWorld(world)
  {
    |slots| == |works| && forall i :: 0 <= i < |works| ==> SlotRight(world, works[i], slots[i], before, now)
  }

  /** No other item has the file of this one. */
  ghost predicate Alone(works: seq<Work>, i: nat)
    requires i < |works|
  {
    forall j :: 0 <= j < |works| && j != i ==> PathOf(works[j]) != PathOf(works[i])
  }

  ghost predicate PlansFit(works: seq<Work>, plans: seq<Plan>) {
    |plans| == |works| && forall i :: 0 <= i < |plans| ==> |plans[i].attempts| == RETRY_ATTEMPTS
  }

  /** The slot has an error only if its worker must fail.  An item without a checkpoint, whose file no
      other item shares, is fetched, and then has the error if its worker must fail. */
  ghost predicate ErrorRight(world: World, works: seq<Work>, plans: seq<Plan>, i: nat, slot: Slot, before: map<Path, File>)
    requires ValidWorld(world) && PlansFit(works, plans) && i < |works|
  {
    && (slot.error ==> MustFail(world, works[i], plans[i]))
    && (PathOf(works[i]) !in before && Alone(works, i) ==>
          slot.fetched && (MustFail(world, works[i], plans[i]) ==> slot.error))
  }

  ghost predicate ErrorsRight(world: World, works: seq<Work>, plans: seq<Plan>, slots: seq<Slot>, before: map<Path, File>)
    requires ValidWorld(world)
  {
    PlansFit(works, plans) && |slots| == |works| &&
    forall i: nat :: i < |works| ==> ErrorRight(world, works, plans, i, slots[i], before)
  }

  /** Some item of the prefix of a schedule has this file. */
  ghost predicate Written(works: seq<Work>, order: seq<nat>, p: Path) {
    exists j: nat :: j in order && j < |works| && PathOf(works[j]) == p
  }

  lemma WrittenExtend(works: seq<Work>, order: seq<nat>, i: nat, p: Path)
    requires Written(works, order, p) || (i < |works| && p == PathOf(works[i]))
    ensures Written(works, order + [i], p)
  {
    if Written(works, order, p) {
      var j: nat :| j in order && j < |works| && PathOf(works[j]) == p;
      assert j in order + [i];
    } else {
      assert i in order + [i];
    }
  }

  /** Whoever is alone with its file finds it as it was before the fan-out. */
  lemma AloneUnwritten(works: seq<Work>, order: seq<nat>, i: nat)
    requires i < |works| && Alone(works, i) && i !in order
    ensures !Written(works, order, PathOf(works[i]))
  {
  }

  /** The workers of a schedule's prefix have done what they should. */
  ghost predicate Advanced(world: World, works: seq<Work>, plans: seq<Plan>, done: seq<nat>, slots: seq<Slot>,
                           before: map<Path, File>, now: map<Path, File>)
    requires ValidWorld(world) && PlansFit(works, plans)
  {
    && |slots| == |works| && Grown(before, now)
    && (forall p | p in now :: p in before || Written(works, done, p))
    && (forall i: nat :: i < |works| && i in done ==>
          SlotRight(world, works[i], slots[i], before, now) && ErrorRight(world, works, plans, i, slots[i], before))
  }

  /** What a worker leaves in its own slot. */
  ghost predicate TurnRight(world: World, work: Work, plan: Plan, slot: Slot, now: map<Path, File>, later: map<Path, File>)
    requires ValidWorld(world) && |plan.attempts| == RETRY_ATTEMPTS
  {
    && slot.data == (if slot.error then EmptyData(work) else Truth(world, work))
    && (slot.fetched <==> PathOf(work) !in now)
    && (slot.error <==> slot.fetched && MustFail(world, work, plan))
    && (!slot.error ==> PathOf(work) in later || IsAbroad(world, work))
  }

  lemma OwnSlot(world: World, works: seq<Work>, plans: seq<Plan>, done: seq<nat>,
                before: map<Path, File>, now: map<Path, File>, i: nat, slot: Slot, later: map<Path, File>)
    requires ValidWorld(world) && PlansFit(works, plans) && i < |works| && i !in done && Grown(before, now)
    requires forall p | p in now :: p in before || Written(works, done, p)
    requires TurnRight(world, works[i], plans[i], slot, now, later)
    ensures SlotRight(world, works[i], slot, before, later) && ErrorRight(world, works, plans, i, slot, before)
  {
    if Alone(works, i) {
      AloneUnwritten(works, done, i);
    }
  }

  lemma WrittenLater(works: seq<Work>, done: seq<nat>, before: map<Path, File>, now: map<Path, File>, later: map<Path, File>, i: nat)
    requires i < |works| && forall p | p in now :: p in before || Written(works, done, p)
    requires forall p | p in later :: p in now || p == PathOf(works[i])
    ensures forall p | p in later :: p in before || Written(works, done + [i], p)
  {
    forall p | p in later && p !in before
      ensures Written(works, done + [i], p)
    {
      WrittenExtend(works, done, i, p);
    }
  }

  lemma TurnAdvances(world: World, works: seq<Work>, plans: seq<Plan>, done: seq<nat>, slots: seq<Slot>,
                     before: map<Path, File>, now: map<Path, File>, i: nat, slot: Slot, later: map<Path, File>)
    requires ValidWorld(world) && PlansFit(works, plans) && Advanced(world, works, plans, done, slots, before, now)
    requires i < |works| && i !in done && Grown(now, later)
    requires forall p | p in later :: p in now || p == PathOf(works[i])
    requires TurnRight(world, works[i], plans[i], slot, now, later)
    ensures Advanced(world, works, plans, done + [i], slots[i := slot], before, later)
  {
    var slots' := slots[i := slot];
    OwnSlot(world, works, plans, done, before, now, i, slot, later);
    WrittenLater(works, done, before, now, later, i);
    forall j: nat | j < |works| && j in done + [i]
      ensures SlotRight(world, works[j], slots'[j], before, later) && ErrorRight(world, works, plans, j, slots'[j], before)
    {
      if j != i {
        assert j in done;
        SlotStaysRight(world, works[j], slots[j], before, now, later);
      }
    }
  }

  /** The fan-out, in any order of the workers: every slot holds what its item should yield or an
      error; an item with a checkpoint is not fetched again; every item without an error has one
      afterwards; errors are those the plans tell. */
  method FetchAll(disk: Disk, world: World, ghost digest: Canon -> string, ghost request: Request, works: seq<Work>,
                  plans: seq<Plan>, order: seq<nat>)
    returns (slots: seq<Slot>)
    requires ValidWorld(world) && Injective(digest) && Sound(world, digest, disk.files) && AllFrom(world, digest, request, works)
    requires IsSchedule(order, |works|) && PlansFit(works, plans)
    modifies disk
    ensures Sound(world, digest, disk.files) && Grown(old(disk.files), disk.files)
    ensures forall p | p in disk.files :: p in old(disk.files) || Written(works, order, p)
    ensures SlotsRight(world, works, slots, old(disk.files), disk.files)
    ensures ErrorsRight(world, works, plans, slots, old(disk.files))
  {
    slots := seq(|works|, i => Slot(RefsData([]), false, false));
    ghost var before := disk.files;
    for k := 0 to |order|
      invariant Sound(world, digest, disk.files)
      invariant Advanced(world, works, plans, order[..k], slots, before, disk.files)
    {
      var i := order[k];
      ghost var now := disk.files;
      TempIsNoItemAtAll(PathOf(works[i]), plans[i].uuid);
      var data, error, fetched := Worker(disk, world, digest, request, works[i], plans[i]);
      assert order[..k + 1] == order[..k] + [i] && i !in order[..k];
      TurnAdvances(world, works, plans, order[..k], slots, before, now, i, Slot(data, error, fetched), disk.files);
      slots := slots[i := Slot(data, error, fetched)];
    }
    assert order[..|order|] == order;
    assert forall i: nat :: i < |works| ==> i in order;
  }

  // ---------------------------------------------------------------- one run

  function MappingWorks(id: string, r: Request): seq<Work> {
    seq(|r.mappings|, i requires 0 <= i < |r.mappings| => MappingWorkOf(id, r, i))
  }

  function BucketWorks(id: string, r: Request, buckets: seq<string>): seq<Work> {
    seq(|buckets|, i requires 0 <= i < |buckets| => BucketWork(id, r.provider, r.prefix, buckets[i]))
  }

  function ContentWorks(world: World, id: string, r: Request): seq<Work> {
    seq(|r.mappings|, i requires 0 <= i < |r.mappings| => ContentWorkOf(world, id, r, i))
  }

  function Effective(world: World, r: Request): Option<string> {
    if r.provider.Some? && r.provider.value != "" then r.provider else world.defaultProvider
  }

  function ScopeOf(world: World, r: Request): Scope {
    Scope(value => world.classify(Effective(world, r), Resolve(world, r), value), Resolve(world, r))
  }

  function RefLists(data: seq<Data>): seq<seq<DbRef>> {
    seq(|data|, i requires 0 <= i < |data| => if data[i].RefsData? then data[i].refs else [])
  }

  function ObjectLists(data: seq<Data>): seq<seq<StorageObject>> {
    seq(|data|, i requires 0 <= i < |data| => if data[i].ObjectsData? then data[i].objects else [])
  }

  /** The keys of all columns together and the number of their rows. */
  function ContentOf(data: seq<Data>): Content {
    if data == [] then Content({}, 0)
    else
      var before, last := ContentOf(data[..|data| - 1]), data[|data| - 1];
      if last.KeysData? then Content(before.keys + last.content.keys, before.rows + last.content.rows) else before
  }

  function SlotData(slots: seq<Slot>): seq<Data> {
    seq(|slots|, i requires 0 <= i < |slots| => slots[i].data)
  }

  predicate AnyError(slots: seq<Slot>) {
    exists i :: 0 <= i < |slots| && slots[i].error
  }

  lemma NoErrorAllTrue(world: World, works: seq<Work>, slots: seq<Slot>, before: map<Path, File>, now: map<Path, File>)
    requires ValidWorld(world) && SlotsRight(world, works, slots, before, now) && !AnyError(slots)
    ensures SlotData(slots) == Truths(world, works)
  {
  }

  method MergeContent(slots: seq<Slot>) returns (content: Content)
    ensures content == ContentOf(SlotData(slots))
  {
    content := Content({}, 0);
    ghost var data := SlotData(slots);
    for i := 0 to |slots|
      invariant content == ContentOf(data[..i])
    {
      assert data[..i + 1][..i] == data[..i];
      if slots[i].data.KeysData? {
        content := Content(content.keys + slots[i].data.content.keys, content.rows + slots[i].data.content.rows);
      }
    }
    assert data[..|slots|] == data;
  }

  /** What one fan-out is told: how its items go and in which order its workers finish. */
  datatype Fanout = Fanout(plans: seq<Plan>, order: seq<nat>)

  ghost predicate ValidFanout(f: Fanout, n: nat) {
    IsSchedule(f.order, n) && |f.plans| == n && forall i :: 0 <= i < n ==> |f.plans[i].attempts| == RETRY_ATTEMPTS
  }

  /** The report for everything that is there. */
  ghost predicate IsTrueReport(world: World, request: Request, contentMappings: seq<Mapping>, r: Report)
    requires ValidWorld(world)
  {
    IsReport(r, ScopeOf(world, request),
             Flatten(RefLists(Truths(world, MappingWorks("", request)))),
             Flatten(ObjectLists(Truths(world, BucketWorks("", request, Resolve(world, request))))),
             TrueContent(world, request, contentMappings))
  }

  ghost function TrueContent(world: World, request: Request, contentMappings: seq<Mapping>): Option<Content>
    requires ValidWorld(world)
  {
    if contentMappings == [] then None
    else Some(ContentOf(Truths(world, ContentWorks(world, "", request.(mappings := contentMappings)))))
  }

  /** What the items yield does not depend on the id. */
  lemma TruthsWithoutId(world: World, id: string, r: Request)
    requires ValidWorld(world)
    ensures Truths(world, MappingWorks(id, r)) == Truths(world, MappingWorks("", r))
    ensures Truths(world, BucketWorks(id, r, Resolve(world, r))) == Truths(world, BucketWorks("", r, Resolve(world, r)))
    ensures Truths(world, ContentWorks(world, id, r)) == Truths(world, ContentWorks(world, "", r))
  {
  }

  lemma WorksFrom(world: World, digest: Canon -> string, r: Request)
    requires ValidWorld(world) && PlainRequest(r)
    ensures var id := digest(Canonical(r));
      && AllFrom(world, digest, r, MappingWorks(id, r))
      && AllFrom(world, digest, r, BucketWorks(id, r, Resolve(world, r)))
      && AllFrom(world, digest, r, ContentWorks(world, id, r))
  {
  }

  /** Every item that came through has a checkpoint. */
  ghost predicate Kept(world: World, works: seq<Work>, slots: seq<Slot>, files: map<Path, File>) {
    |slots| == |works| &&
    forall i :: 0 <= i < |works| && !slots[i].error ==> PathOf(works[i]) in files || IsAbroad(world, works[i])
  }

  /** A slot with an error is empty, every other one holds what its item should yield. */
  ghost predicate SlotsTrue(world: World, works: seq<Work>, slots: seq<Slot>)
    requires ValidWorld(world)
  {
    |slots| == |works| &&
    forall i :: 0 <= i < |works| ==> slots[i].data == if slots[i].error then EmptyData(works[i]) else Truth(world, works[i])
  }

  /** No item that had a checkpoint is fetched again. */
  ghost predicate NotRefetched(works: seq<Work>, slots: seq<Slot>, before: map<Path, File>) {
    |slots| == |works| && forall i :: 0 <= i < |works| && PathOf(works[i]) in before ==> !slots[i].fetched
  }

  /** Nothing is kept under an id. */
  ghost predicate Cleared(files: map<Path, File>, id: string) {
    forall p | p in files :: p.0 != id
  }

  /** None of the items has a checkpoint. */
  ghost predicate NoneKept(works: seq<Work>, files: map<Path, File>) {
    forall i :: 0 <= i < |works| ==> PathOf(works[i]) !in files
  }

  ghost predicate SharesId(digest: Canon -> string, request: Request, contentMappings: seq<Mapping>) {
    digest(Canonical(request)) == digest(Canonical(request.(mappings := contentMappings)))
  }

  /** The two parts of a run share one directory, so that finishing either removes what the other
      has kept, if and only if they read the same columns. */
  lemma SharesIdWhen(digest: Canon -> string, request: Request, contentMappings: seq<Mapping>)
    requires Injective(digest)
    ensures SharesId(digest, request, contentMappings)
       <==> multiset(MappingTexts(request.mappings)) == multiset(MappingTexts(contentMappings))
  {
  }

  // ---------------------------------------------------------------- files of one kind

  /** Items of other kinds keep their files: the fan-out has only written files of its items. */
  lemma OtherKindsUntouched(works: seq<Work>, order: seq<nat>, before: map<Path, File>, after: map<Path, File>, work: Work)
    requires Grown(before, after) && forall p | p in after :: p in before || Written(works, order, p)
    requires forall i :: 0 <= i < |works| ==>
      !(works[i].MappingWork? == work.MappingWork? && works[i].BucketWork? == work.BucketWork?)
    ensures PathOf(work) in after <==> PathOf(work) in before
  {
    if Written(works, order, PathOf(work)) {
      var j: nat :| j in order && j < |works| && PathOf(works[j]) == PathOf(work);
      KindsMatch(works[j], work);
    }
  }

  /** What is told of a fan-out holds of any other files with the same checkpoints of its items. */
  lemma SameCheckpoints(world: World, works: seq<Work>, plans: seq<Plan>, slots: seq<Slot>, a: map<Path, File>, b: map<Path, File>)
    requires ValidWorld(world) && ErrorsRight(world, works, plans, slots, a)
    requires forall i :: 0 <= i < |works| && PathOf(works[i]) in a ==> PathOf(works[i]) in b
    ensures ErrorsRight(world, works, plans, slots, b)
  {
    forall i: nat | i < |works|
      ensures ErrorRight(world, works, plans, i, slots[i], b)
    {
      assert ErrorRight(world, works, plans, i, slots[i], a);
    }
  }

  lemma FromSlots(world: World, works: seq<Work>, slots: seq<Slot>, before: map<Path, File>, now: map<Path, File>)
    requires ValidWorld(world) && SlotsRight(world, works, slots, before, now)
    ensures SlotsTrue(world, works, slots) && NotRefetched(works, slots, before) && Kept(world, works, slots, now)
    ensures !AnyError(slots) ==> SlotData(slots) == Truths(world, works)
  {
    if !AnyError(slots) {
      NoErrorAllTrue(world, works, slots, before, now);
    }
  }

  /** Different columns of a plain request have different files. */
  lemma ColumnsAlone(world: World, digest: Canon -> string, r: Request, i: nat)
    requires ValidWorld(world) && Injective(digest) && PlainRequest(r) && i < |r.mappings|
    ensures Alone(MappingWorks(digest(Canonical(r)), r), i) && Alone(ContentWorks(world, digest(Canonical(r)), r), i)
  {
    var id := digest(Canonical(r));
    WorksFrom(world, digest, r);
    forall j | 0 <= j < |r.mappings| && j != i
      ensures PathOf(MappingWorkOf(id, r, j)) != PathOf(MappingWorkOf(id, r, i))
      ensures PathOf(ContentWorkOf(world, id, r, j)) != PathOf(ContentWorkOf(world, id, r, i))
    {
      if PathOf(MappingWorkOf(id, r, j)) == PathOf(MappingWorkOf(id, r, i)) {
        SameColumn(MappingKind, r, i, r, j);
      }
      if PathOf(ContentWorkOf(world, id, r, j)) == PathOf(ContentWorkOf(world, id, r, i)) {
        SameColumn(ContentKind, r, i, r, j);
      }
    }
  }

  // ---------------------------------------------------------------- the parts of a run

  /** The items of the three fan-outs of a run. */
  function Columns(digest: Canon -> string, request: Request): seq<Work> {
    MappingWorks(digest(Canonical(request)), request)
  }

  function Places(world: World, digest: Canon -> string, request: Request): seq<Work> {
    BucketWorks(digest(Canonical(request)), request, Resolve(world, request))
  }

  function RichTexts(world: World, digest: Canon -> string, request: Request, contentMappings: seq<Mapping>): seq<Work> {
    var content := request.(mappings := contentMappings);
    ContentWorks(world, digest(Canonical(content)), content)
  }

  predicate FirstClean(mappingSlots: seq<Slot>, bucketSlots: seq<Slot>) {
    !AnyError(mappingSlots) && !AnyError(bucketSlots)
  }

  /** What the first part of a run, over the columns and the buckets, has in its slots and on the disk. */
  ghost predicate FirstRight(world: World, digest: Canon -> string, request: Request, mappings: Fanout, buckets: Fanout,
                             before: map<Path, File>, after: map<Path, File>, mappingSlots: seq<Slot>, bucketSlots: seq<Slot>)
    requires ValidWorld(world)
  {
    var columns, places := Columns(digest, request), Places(world, digest, request);
    var clean := FirstClean(mappingSlots, bucketSlots);
    && SlotsTrue(world, columns, mappingSlots) && SlotsTrue(world, places, bucketSlots)
    && NotRefetched(columns, mappingSlots, before) && NotRefetched(places, bucketSlots, before)
    && ErrorsRight(world, columns, mappings.plans, mappingSlots, before)
    && ErrorsRight(world, places, buckets.plans, bucketSlots, before)
    && (if clean then Cleared(after, digest(Canonical(request)))
        else Kept(world, columns, mappingSlots, after) && Kept(world, places, bucketSlots, after))
    && (forall work: Work :: work.ContentWork? && PathOf(work) in after ==> PathOf(work) in before)
    && (forall work: Work :: work.ContentWork? && PathOf(work) in before ==>
          PathOf(work) in after || (clean && work.id == digest(Canonical(request))))
  }

  /** The same for the second part, over the rich-text columns of a request. */
  ghost predicate SecondRight(world: World, digest: Canon -> string, request: Request, contents: Fanout,
                              before: map<Path, File>, after: map<Path, File>, slots: seq<Slot>)
    requires ValidWorld(world)
  {
    var texts := ContentWorks(world, digest(Canonical(request)), request);
    var clean := request.mappings != [] && !AnyError(slots);
    && SlotsTrue(world, texts, slots) && NotRefetched(texts, slots, before)
    && ErrorsRight(world, texts, contents.plans, slots, before)
    && (clean ==> Cleared(after, digest(Canonical(request))))
    && (AnyError(slots) ==> Kept(world, texts, slots, after))
    && (forall p :: p in after ==> p in before || p.0 == digest(Canonical(request)))
    && (forall work: Work :: !work.ContentWork? && PathOf(work) in after ==> PathOf(work) in before)
    && (forall work :: PathOf(work) in before ==> PathOf(work) in after || (clean && work.id == digest(Canonical(request))))
    && (request.mappings == [] ==> after == before)
  }

  /** The first part of a run: the columns with references, then the buckets; the checkpoint goes
      when nothing failed. */
  method ScanFirst(disk: Disk, world: World, digest: Canon -> string, request: Request, mappings: Fanout, buckets: Fanout)
    returns (mappingSlots: seq<Slot>, bucketSlots: seq<Slot>)
    requires ValidWorld(world) && Injective(digest) && Sound(world, digest, disk.files) && PlainRequest(request)
    requires ValidFanout(mappings, |request.mappings|) && ValidFanout(buckets, |Resolve(world, request)|)
    modifies disk
    ensures Sound(world, digest, disk.files)
    ensures !AnyError(mappingSlots) ==> SlotData(mappingSlots) == Truths(world, MappingWorks("", request))
    ensures !AnyError(bucketSlots) ==> SlotData(bucketSlots) == Truths(world, BucketWorks("", request, Resolve(world, request)))
    ensures FirstRight(world, digest, request, mappings, buckets, old(disk.files), disk.files, mappingSlots, bucketSlots)
  {
    var id := digest(Canonical(request));
    var names := Resolve(world, request);
    WorksFrom(world, digest, request);
    TruthsWithoutId(world, id, request);
    ghost var before, columns, places := disk.files, MappingWorks(id, request), BucketWorks(id, request, names);
    mappingSlots := FetchAll(disk, world, digest, request, MappingWorks(id, request), mappings.plans, mappings.order);
    ghost var between := disk.files;
    FromSlots(world, columns, mappingSlots, before, between);
    bucketSlots := FetchAll(disk, world, digest, request, BucketWorks(id, request, names), buckets.plans, buckets.order);
    ghost var after := disk.files;
    FromSlots(world, places, bucketSlots, between, after);
    BucketsUnaffected(world, columns, mappings.order, before, between, places, buckets.plans, bucketSlots);
    if !AnyError(mappingSlots) && !AnyError(bucketSlots) {
      ClearIsSound(world, digest, disk.files, id);
      Clear(disk, id);
    }
    FirstAfterFetch(world, digest, request, mappings, buckets, before, between, after, disk.files, mappingSlots, bucketSlots);
  }

  lemma FirstAfterFetch(world: World, digest: Canon -> string, request: Request, mappings: Fanout, buckets: Fanout,
                        before: map<Path, File>, between: map<Path, File>, fetched: map<Path, File>, after: map<Path, File>,
                        mappingSlots: seq<Slot>, bucketSlots: seq<Slot>)
    requires ValidWorld(world)
    requires var columns := Columns(digest, request);
      && SlotsTrue(world, columns, mappingSlots) && NotRefetched(columns, mappingSlots, before)
      && Kept(world, columns, mappingSlots, between) && ErrorsRight(world, columns, mappings.plans, mappingSlots, before)
      && Grown(before, between) && forall p | p in between :: p in before || Written(columns, mappings.order, p)
    requires var places := Places(world, digest, request);
      && SlotsTrue(world, places, bucketSlots) && NotRefetched(places, bucketSlots, between)
      && Kept(world, places, bucketSlots, fetched) && ErrorsRight(world, places, buckets.plans, bucketSlots, before)
      && Grown(between, fetched) && forall p | p in fetched :: p in between || Written(places, buckets.order, p)
    requires ClearedIf(FirstClean(mappingSlots, bucketSlots), digest(Canonical(request)), fetched, after)
    ensures FirstRight(world, digest, request, mappings, buckets, before, after, mappingSlots, bucketSlots)
  {
    ContentUnaffected(Columns(digest, request), mappings.order, before, between);
    ContentUnaffected(Places(world, digest, request), buckets.order, between, fetched);
  }

  lemma BucketsUnaffected(world: World, columns: seq<Work>, order: seq<nat>, before: map<Path, File>, between: map<Path, File>,
                          places: seq<Work>, plans: seq<Plan>, slots: seq<Slot>)
    requires ValidWorld(world) && Grown(before, between) && forall p | p in between :: p in before || Written(columns, order, p)
    requires forall i :: 0 <= i < |columns| ==> columns[i].MappingWork?
    requires forall i :: 0 <= i < |places| ==> places[i].BucketWork?
    requires ErrorsRight(world, places, plans, slots, between)
    ensures ErrorsRight(world, places, plans, slots, before)
  {
    forall i | 0 <= i < |places|
      ensures PathOf(places[i]) in between <==> PathOf(places[i]) in before
    {
      OtherKindsUntouched(columns, order, before, between, places[i]);
    }
    SameCheckpoints(world, places, plans, slots, between, before);
  }

  lemma ContentUnaffected(works: seq<Work>, order: seq<nat>, before: map<Path, File>, after: map<Path, File>)
    requires Grown(before, after) && forall p | p in after :: p in before || Written(works, order, p)
    requires forall i :: 0 <= i < |works| ==> !works[i].ContentWork?
    ensures forall work: Work :: work.ContentWork? ==> (PathOf(work) in after <==> PathOf(work) in before)
  {
    forall work: Work | work.ContentWork?
      ensures PathOf(work) in after <==> PathOf(work) in before
    {
      OtherKindsUntouched(works, order, before, after, work);
    }
  }

  lemma OthersUnaffected(works: seq<Work>, order: seq<nat>, before: map<Path, File>, after: map<Path, File>)
    requires Grown(before, after) && forall p | p in after :: p in before || Written(works, order, p)
    requires forall i :: 0 <= i < |works| ==> works[i].ContentWork?
    ensures forall work: Work :: !work.ContentWork? ==> (PathOf(work) in after <==> PathOf(work) in before)
  {
    forall work: Work | !work.ContentWork?
      ensures PathOf(work) in after <==> PathOf(work) in before
    {
      OtherKindsUntouched(works, order, before, after, work);
    }
  }

  /** The second part of a run: the rich-text columns, under an id of their own. */
  method ScanContent(disk: Disk, world: World, digest: Canon -> string, request: Request, contents: Fanout)
    returns (content: Option<Content>, slots: seq<Slot>)
    requires ValidWorld(world) && Injective(digest) && Sound(world, digest, disk.files)
    requires PlainRequest(request) && ValidFanout(contents, |request.mappings|)
    modifies disk
    ensures Sound(world, digest, disk.files)
    ensures content == if request.mappings == [] then None else Some(ContentOf(SlotData(slots)))
    ensures request.mappings != [] && !AnyError(slots) ==> SlotData(slots) == Truths(world, ContentWorks(world, "", request))
    ensures SecondRight(world, digest, request, contents, old(disk.files), disk.files, slots)
  {
    content, slots := None, [];
    if request.mappings != [] {
      var id := digest(Canonical(request));
      WorksFrom(world, digest, request);
      TruthsWithoutId(world, id, request);
      ghost var before, works := disk.files, ContentWorks(world, id, request);
      slots := FetchAll(disk, world, digest, request, ContentWorks(world, id, request), contents.plans, contents.order);
      ghost var between := disk.files;
      FromSlots(world, works, slots, before, between);
      var merged := MergeContent(slots);
      content := Some(merged);
      if !AnyError(slots) {
        ClearIsSound(world, digest, disk.files, id);
        Clear(disk, id);
      }
      SecondAfterFetch(world, digest, request, contents, before, between, disk.files, slots);
    }
  }

  /** The directory goes when the fan-out had no error. */
  ghost predicate ClearedIf(clean: bool, id: string, before: map<Path, File>, after: map<Path, File>) {
    forall p :: p in after <==> p in before && (clean ==> p.0 != id)
  }

  lemma SecondAfterFetch(world: World, digest: Canon -> string, request: Request, contents: Fanout,
                         before: map<Path, File>, between: map<Path, File>, after: map<Path, File>, slots: seq<Slot>)
    requires ValidWorld(world) && request.mappings != []
    requires var texts := ContentWorks(world, digest(Canonical(request)), request);
      && SlotsTrue(world, texts, slots) && NotRefetched(texts, slots, before) && Kept(world, texts, slots, between)
      && ErrorsRight(world, texts, contents.plans, slots, before)
      && Grown(before, between) && forall p | p in between :: p in before || Written(texts, contents.order, p)
    requires ClearedIf(!AnyError(slots), digest(Canonical(request)), between, after)
    ensures SecondRight(world, digest, request, contents, before, after, slots)
  {
    var id := digest(Canonical(request));
    OthersUnaffected(ContentWorks(world, id, request), contents.order, before, between);
    forall p | p in between
      ensures p in before || p.0 == id
    {
      if p !in before {
        TextsUnderId(world, id, request, contents.order, p);
      }
    }
    KeptUnlessCleared(world, ContentWorks(world, id, request), slots, id, between, after);
  }

  lemma TextsUnderId(world: World, id: string, request: Request, order: seq<nat>, p: Path)
    requires Written(ContentWorks(world, id, request), order, p)
    ensures p.0 == id
  {
  }

  lemma KeptUnlessCleared(world: World, works: seq<Work>, slots: seq<Slot>, id: string,
                          before: map<Path, File>, after: map<Path, File>)
    requires Kept(world, works, slots, before) && ClearedIf(!AnyError(slots), id, before, after)
    ensures AnyError(slots) ==> Kept(world, works, slots, after)
    ensures !AnyError(slots) ==> Cleared(after, id)
  {
  }

  // ---------------------------------------------------------------- one run

  /** What the slots of a run hold, which errors it had, and which items it fetched: none that had a
      checkpoint; except that the rich-text columns are all fetched again when the first part had no
      error and shares their directory, which it has then removed. */
  ghost predicate FetchedRight(world: World, digest: Canon -> string, request: Request, contentMappings: seq<Mapping>,
                               mappings: Fanout, buckets: Fanout, contents: Fanout, before: map<Path, File>,
                               mappingSlots: seq<Slot>, bucketSlots: seq<Slot>, contentSlots: seq<Slot>)
    requires ValidWorld(world)
  {
    var columns, places := Columns(digest, request), Places(world, digest, request);
    var texts := RichTexts(world, digest, request, contentMappings);
    && SlotsTrue(world, columns, mappingSlots)
    && SlotsTrue(world, places, bucketSlots)
    && SlotsTrue(world, texts, contentSlots)
    && ErrorsRight(world, columns, mappings.plans, mappingSlots, before)
    && ErrorsRight(world, places, buckets.plans, bucketSlots, before)
    && ErrorsRight(world, texts, contents.plans, contentSlots, before)
    && NotRefetched(columns, mappingSlots, before)
    && NotRefetched(places, bucketSlots, before)
    && if FirstClean(mappingSlots, bucketSlots) && SharesId(digest, request, contentMappings) then
         forall i :: 0 <= i < |contentSlots| ==> contentSlots[i].fetched
       else
         NotRefetched(texts, contentSlots, before)
  }

  /** What a run leaves on the disk.  Each part removes its directory when it had no error itself,
      whatever happened to the other part; otherwise what came through stays, unless the other part
      had no error and shares the directory. */
  ghost predicate LeftRight(world: World, digest: Canon -> string, request: Request, contentMappings: seq<Mapping>,
                            mappingSlots: seq<Slot>, bucketSlots: seq<Slot>, contentSlots: seq<Slot>, after: map<Path, File>)
    requires ValidWorld(world)
  {
    var columns, places := Columns(digest, request), Places(world, digest, request);
    var texts := RichTexts(world, digest, request, contentMappings);
    var first, shared := FirstClean(mappingSlots, bucketSlots), SharesId(digest, request, contentMappings);
    var second := contentMappings != [] && !AnyError(contentSlots);
    && (first ==> NoneKept(columns, after) && NoneKept(places, after))
    && (first && (contentMappings == [] || second || !shared) ==> Cleared(after, digest(Canonical(request))))
    && (second ==> Cleared(after, digest(Canonical(request.(mappings := contentMappings)))))
    && (!first && !(second && shared) ==> Kept(world, columns, mappingSlots, after) && Kept(world, places, bucketSlots, after))
    && (AnyError(contentSlots) ==> Kept(world, texts, contentSlots, after))
  }

  /** A scan from any disk that earlier runs, finished or killed, have left.  It reports for what it
      could read; if nothing failed, that is everything, so a resumed run and an uninterrupted one
      give the same report; if something failed, what came through is kept for the next run. */
  method RunScan(disk: Disk, world: World, digest: Canon -> string, request: Request, contentMappings: seq<Mapping>,
                 mappings: Fanout, buckets: Fanout, contents: Fanout)
    returns (r: Report, mappingSlots: seq<Slot>, bucketSlots: seq<Slot>, contentSlots: seq<Slot>)
    requires ValidWorld(world) && Injective(digest) && Sound(world, digest, disk.files)
    requires PlainRequest(request) && PlainRequest(request.(mappings := contentMappings))
    requires ValidFanout(mappings, |request.mappings|) && ValidFanout(buckets, |Resolve(world, request)|)
    requires ValidFanout(contents, |contentMappings|)
    modifies disk
    ensures Sound(world, digest, disk.files)
    ensures IsReport(r, ScopeOf(world, request), Flatten(RefLists(SlotData(mappingSlots))),
                     Flatten(ObjectLists(SlotData(bucketSlots))),
                     if contentMappings == [] then None else Some(ContentOf(SlotData(contentSlots))))
    ensures contentMappings != [] && !AnyError(contentSlots) ==>
      Some(ContentOf(SlotData(contentSlots))) == TrueContent(world, request, contentMappings)
    ensures FirstClean(mappingSlots, bucketSlots) && !AnyError(contentSlots) ==> IsTrueReport(world, request, contentMappings, r)
    ensures FetchedRight(world, digest, request, contentMappings, mappings, buckets, contents, old(disk.files),
                         mappingSlots, bucketSlots, contentSlots)
    ensures LeftRight(world, digest, request, contentMappings, mappingSlots, bucketSlots, contentSlots, disk.files)
  {
    mappingSlots, bucketSlots := ScanFirst(disk, world, digest, request, mappings, buckets);
    ghost var between := disk.files;
    var content: Option<Content>;
    content, contentSlots := ScanContent(disk, world, digest, request.(mappings := contentMappings), contents);
    r := RunReconciliation(ScopeOf(world, request), RefLists(SlotData(mappingSlots)), ObjectLists(SlotData(bucketSlots)), content);
    FetchedInBoth(world, digest, request, contentMappings, mappings, buckets, contents, old(disk.files), between, disk.files,
                  mappingSlots, bucketSlots, contentSlots);
    LeftByBoth(world, digest, request, contentMappings, mappings, buckets, contents, old(disk.files), between, disk.files,
               mappingSlots, bucketSlots, contentSlots);
  }

  lemma FetchedInBoth(world: World, digest: Canon -> string, request: Request, contentMappings: seq<Mapping>,
                      mappings: Fanout, buckets: Fanout, contents: Fanout,
                      before: map<Path, File>, between: map<Path, File>, after: map<Path, File>,
                      mappingSlots: seq<Slot>, bucketSlots: seq<Slot>, contentSlots: seq<Slot>)
    requires ValidWorld(world) && Injective(digest) && PlainRequest(request.(mappings := contentMappings))
    requires FirstRight(world, digest, request, mappings, buckets, before, between, mappingSlots, bucketSlots)
    requires SecondRight(world, digest, request.(mappings := contentMappings), contents, between, after, contentSlots)
    ensures FetchedRight(world, digest, request, contentMappings, mappings, buckets, contents, before,
                         mappingSlots, bucketSlots, contentSlots)
  {
    SameCheckpoints(world, RichTexts(world, digest, request, contentMappings), contents.plans, contentSlots, between, before);
    if FirstClean(mappingSlots, bucketSlots) && SharesId(digest, request, contentMappings) {
      forall i: nat | i < |contentMappings|
        ensures contentSlots[i].fetched
      {
        SharedIdStartsOver(world, digest, request, contentMappings, contents, between, contentSlots, i);
      }
    }
  }

  lemma LeftByBoth(world: World, digest: Canon -> string, request: Request, contentMappings: seq<Mapping>,
                   mappings: Fanout, buckets: Fanout, contents: Fanout,
                   before: map<Path, File>, between: map<Path, File>, after: map<Path, File>,
                   mappingSlots: seq<Slot>, bucketSlots: seq<Slot>, contentSlots: seq<Slot>)
    requires ValidWorld(world)
    requires FirstRight(world, digest, request, mappings, buckets, before, between, mappingSlots, bucketSlots)
    requires SecondRight(world, digest, request.(mappings := contentMappings), contents, between, after, contentSlots)
    ensures LeftRight(world, digest, request, contentMappings, mappingSlots, bucketSlots, contentSlots, after)
  {
  }

  /** From a removed directory every rich-text column is fetched. */
  lemma SharedIdStartsOver(world: World, digest: Canon -> string, request: Request, contentMappings: seq<Mapping>,
                           contents: Fanout, between: map<Path, File>, contentSlots: seq<Slot>, i: nat)
    requires ValidWorld(world) && Injective(digest) && PlainRequest(request.(mappings := contentMappings))
    requires SharesId(digest, request, contentMappings) && Cleared(between, digest(Canonical(request)))
    requires ErrorsRight(world, RichTexts(world, digest, request, contentMappings), contents.plans, contentSlots, between)
    requires i < |contentMappings|
    ensures contentSlots[i].fetched
  {
    var texts := RichTexts(world, digest, request, contentMappings);
    ColumnsAlone(world, digest, request.(mappings := contentMappings), i);
    assert ErrorRight(world, texts, contents.plans, i, contentSlots[i], between);
  }

  /** Two reports for everything that is there are equal. */
  lemma CleanRunsAgree(world: World, request: Request, contentMappings: seq<Mapping>, a: Report, b: Report)
    requires ValidWorld(world) && IsTrueReport(world, request, contentMappings, a) && IsTrueReport(world, request, contentMappings, b)
    ensures a == b
  {
    ReportUnique(a, b, ScopeOf(world, request),
                 Flatten(RefLists(Truths(world, MappingWorks("", request)))),
                 Flatten(ObjectLists(Truths(world, BucketWorks("", request, Resolve(world, request))))),
                 TrueContent(world, request, contentMappings));
  }

  /** What a run is told about its workers: how their attempts go, and in which order they finish. */
  datatype Weather = Weather(mappings: Fanout, buckets: Fanout, contents: Fanout)

  ghost predicate ValidWeather(world: World, request: Request, contentMappings: seq<Mapping>, weather: Weather) {
    && ValidFanout(weather.mappings, |request.mappings|)
    && ValidFanout(weather.buckets, |Resolve(world, request)|)
    && ValidFanout(weather.contents, |contentMappings|)
  }

  /** Crash and resumption.  Start from an empty disk; let any processes, of any requests, run,
      interleave and be killed at any step.  A scan over the files they leave, if it meets no error,
      gives the same report as one that was never interrupted: a scan of an empty disk, whatever the
      attempts of either go like and in whatever order their workers finish. */
  method ResumedEqualsUninterrupted(disk: Disk, empty: Disk, world: World, digest: Canon -> string, request: Request,
                                    contentMappings: seq<Mapping>, weather: Weather, calm: Weather,
                                    ghost steps: seq<Step>, ghost end: Machine)
    returns (resumed: Report, uninterrupted: Report, resumedClean: bool, uninterruptedClean: bool)
    requires ValidWorld(world) && Injective(digest)
    requires PlainRequest(request) && PlainRequest(request.(mappings := contentMappings))
    requires ValidWeather(world, request, contentMappings, weather) && ValidWeather(world, request, contentMappings, calm)
    requires Run(world, digest, Machine(map[], map[]), steps, end)
    requires disk != empty && disk.files == end.files && empty.files == map[]
    modifies disk, empty
    ensures resumedClean ==> IsTrueReport(world, request, contentMappings, resumed)
    ensures uninterruptedClean ==> IsTrueReport(world, request, contentMappings, uninterrupted)
    ensures resumedClean && uninterruptedClean ==> resumed == uninterrupted
  {
    EmptyDiskIsSound(world, digest);
    CheckpointsStaySound(world, digest, Machine(map[], map[]), steps, end);
    var a1, a2, a3, b1, b2, b3;
    resumed, a1, a2, a3 := RunScan(disk, world, digest, request, contentMappings,
                                   weather.mappings, weather.buckets, weather.contents);
    uninterrupted, b1, b2, b3 := RunScan(empty, world, digest, request, contentMappings,
                                         calm.mappings, calm.buckets, calm.contents);
    resumedClean := !AnyError(a1) && !AnyError(a2) && !AnyError(a3);
    uninterruptedClean := !AnyError(b1) && !AnyError(b2) && !AnyError(b3);
    if resumedClean && uninterruptedClean {
      CleanRunsAgree(world, request, contentMappings, resumed, uninterrupted);
    }
  }
}
