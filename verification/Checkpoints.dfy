/** Items of a scan, the files that keep them, and crashes. */
module Checkpoints {
  import opened Basics
  import opened CheckpointNames
  import opened Paging
  import opened Reconciliation
  import opened Records

  /** The database and the storage, which stay as they are while a scan is interrupted and
      repeated, and the URL functions configured over them. */
  datatype World = World(
    tables: (Option<string>, string, string, string) -> seq<Row>,
    listing: (Option<string>, Option<string>, string) -> seq<StorageObject>,
    abroad: (Option<string>, string) -> bool,
    bucketNames: Option<string> -> seq<string>,
    defaultProvider: Option<string>,
    classify: (Option<string>, seq<string>, string) -> Fate,
    extract: (string, set<string>) -> set<string>
  )

  ghost predicate ValidWorld(world: World) {
    && (forall d, t, c, i :: Ordered(world.tables(d, t, c, i)))
    && (forall p, b :: b in world.bucketNames(p) ==> PlainName(b))
  }

  /** One unit of a scan. */
  datatype Work =
    | MappingWork(id: string, database: Option<string>, table: string, column: string, idColumn: string)
    | BucketWork(id: string, provider: Option<string>, prefix: Option<string>, bucket: string)
    | ContentWork(id: string, database: Option<string>, buckets: set<string>, table: string, column: string, idColumn: string)

  datatype Data = RefsData(refs: seq<DbRef>) | ObjectsData(objects: seq<StorageObject>) | KeysData(content: Content)

  type Path = (string, string)

  datatype File = Torn | Whole(data: Data)

  function PathOf(work: Work): Path {
    match work
    case MappingWork(id, _, table, column, _) => (id, ItemName(MappingKind, MappingKey(table, column)))
    case BucketWork(id, _, _, bucket) => (id, ItemName(BucketKind, bucket))
    case ContentWork(id, _, _, table, column, _) => (id, ItemName(ContentKind, MappingKey(table, column)))
  }

  function TempPath(path: Path, uuid: string): Path {
    (path.0, path.1 + "." + uuid + ".tmp")
  }

  function Resolve(world: World, r: Request): seq<string> {
    if r.buckets.Some? then r.buckets.value else world.bucketNames(r.provider)
  }

  function MappingWorkOf(id: string, r: Request, i: nat): Work
    requires i < |r.mappings|
  {
    MappingWork(id, r.database, r.mappings[i].table, r.mappings[i].column, OrElse(r.mappings[i].idColumn, DEFAULT_ID))
  }

  function ContentWorkOf(world: World, id: string, r: Request, i: nat): Work
    requires i < |r.mappings|
  {
    ContentWork(id, r.database, ToSet(Resolve(world, r)), r.mappings[i].table, r.mappings[i].column,
                OrElse(r.mappings[i].idColumn, DEFAULT_ID))
  }

  /** The work belongs to a scan of this request. */
  ghost predicate From(world: World, digest: Canon -> string, r: Request, work: Work) {
    && PlainRequest(r) && work.id == digest(Canonical(r))
    && match work
       case MappingWork(_, _, _, _, _) => exists i: nat :: i < |r.mappings| && work == MappingWorkOf(work.id, r, i)
       case BucketWork(_, _, _, bucket) => bucket in Resolve(world, r) && work == BucketWork(work.id, r.provider, r.prefix, bucket)
       case ContentWork(_, _, _, _, _, _) => exists i: nat :: i < |r.mappings| && work == ContentWorkOf(world, work.id, r, i)
  }

  // ---------------------------------------------------------------- what the work should yield

  function AsRefs(table: string, column: string, rows: seq<Row>): seq<DbRef> {
    seq(|rows|, i requires 0 <= i < |rows| =>
      DbRef(table, column, rows[i].id, if rows[i].value.Some? then rows[i].value.value else ""))
  }

  function KeysInRows(world: World, buckets: set<string>, rows: seq<Row>): set<string> {
    if rows == [] then {}
    else
      var last := rows[|rows| - 1];
      KeysInRows(world, buckets, rows[..|rows| - 1])
        + if last.value.Some? then world.extract(last.value.value, buckets) else {}
  }

  /** A column is read in batches, of another size when it is searched for URLs. */
  function BatchSize(work: Work): (n: nat)
    ensures n >= 1
  {
    if work.MappingWork? then BATCH_SIZE else CONTENT_BATCH_SIZE
  }

  /** The rows that reading a column delivers. */
  ghost function ReadRows(world: World, work: Work): seq<Row>
    requires ValidWorld(world) && !work.BucketWork?
  {
    var rows := world.tables(work.database, work.table, work.column, work.idColumn);
    ScanOrdered(rows);
    Paged(Scan(rows), 0, BatchSize(work))
  }

  ghost function Truth(world: World, work: Work): Data
    requires ValidWorld(world)
  {
    match work
    case MappingWork(_, _, table, column, _) => RefsData(AsRefs(table, column, ReadRows(world, work)))
    case BucketWork(_, provider, prefix, bucket) =>
      ObjectsData(if world.abroad(provider, bucket) then [] else world.listing(provider, prefix, bucket))
    case ContentWork(_, _, buckets, _, _, _) =>
      KeysData(Content(KeysInRows(world, buckets, ReadRows(world, work)), |ReadRows(world, work)|))
  }

  /** A path determines the work: items of different requests, or different items of one request,
      never share a file. */
  lemma PathDeterminesWork(world: World, digest: Canon -> string, r1: Request, w1: Work, r2: Request, w2: Work)
    requires ValidWorld(world) && Injective(digest)
    requires From(world, digest, r1, w1) && From(world, digest, r2, w2) && PathOf(w1) == PathOf(w2)
    ensures w1 == w2
  {
    SameIdSameRequest(digest, r1, r2);
    KindsMatch(w1, w2);
    match w1
    case BucketWork(_, _, _, bucket) =>
      SameFileSameItem(BucketKind, bucket, BucketKind, w2.bucket);
    case MappingWork(_, _, table, column, _) =>
      var i: nat :| i < |r1.mappings| && w1 == MappingWorkOf(w1.id, r1, i);
      var j: nat :| j < |r2.mappings| && w2 == MappingWorkOf(w2.id, r2, j);
      SameColumn(MappingKind, r1, i, r2, j);
      SameColumnSameId(digest, r1, i, r2, j);
    case ContentWork(_, _, _, table, column, _) =>
      var i: nat :| i < |r1.mappings| && w1 == ContentWorkOf(world, w1.id, r1, i);
      var j: nat :| j < |r2.mappings| && w2 == ContentWorkOf(world, w2.id, r2, j);
      SameColumn(ContentKind, r1, i, r2, j);
      SameColumnSameId(digest, r1, i, r2, j);
      SameResolved(world, r1, r2);
  }

  lemma KindsMatch(w1: Work, w2: Work)
    requires PathOf(w1) == PathOf(w2)
    ensures w1.MappingWork? == w2.MappingWork? && w1.BucketWork? == w2.BucketWork?
  {
    ItemNameStart(w1);
    ItemNameStart(w2);
  }

  lemma ItemNameStart(w: Work)
    ensures PathOf(w).1 != ""
    ensures PathOf(w).1[0] == match w case MappingWork(_, _, _, _, _) => 'm' case BucketWork(_, _, _, _) => 'b' case _ => 'c'
  {
  }

  lemma SameColumn(kind: Kind, r1: Request, i: nat, r2: Request, j: nat)
    requires PlainRequest(r1) && PlainRequest(r2) && i < |r1.mappings| && j < |r2.mappings|
    requires ItemName(kind, MappingKey(r1.mappings[i].table, r1.mappings[i].column))
          == ItemName(kind, MappingKey(r2.mappings[j].table, r2.mappings[j].column))
    ensures r1.mappings[i].table == r2.mappings[j].table && r1.mappings[i].column == r2.mappings[j].column
  {
    var a, b := r1.mappings[i], r2.mappings[j];
    IdentifiersPlain(a.table, a.column);
    IdentifiersPlain(b.table, b.column);
    SameFileSameItem(kind, MappingKey(a.table, a.column), kind, MappingKey(b.table, b.column));
    MappingKeyInjective(a.table, a.column, b.table, b.column);
  }

  lemma SameResolved(world: World, a: Request, b: Request)
    requires a.provider == b.provider && (a.buckets.None? <==> b.buckets.None?)
    requires a.buckets.Some? ==> multiset(a.buckets.value) == multiset(b.buckets.value)
    ensures ToSet(Resolve(world, a)) == ToSet(Resolve(world, b))
  {
    if a.buckets.Some? {
      forall x
        ensures x in a.buckets.value <==> x in b.buckets.value
      {
        assert x in a.buckets.value <==> x in multiset(a.buckets.value);
        assert x in b.buckets.value <==> x in multiset(b.buckets.value);
      }
    }
  }

  lemma TempIsNoItem(path: Path, uuid: string, work: Work)
    ensures TempPath(path, uuid) != PathOf(work)
  {
    var temp, item := TempPath(path, uuid).1, PathOf(work).1;
    assert temp[|temp| - 1] == 'p';
    ItemNameEnd(work);
  }

  lemma ItemNameEnd(w: Work)
    ensures PathOf(w).1 != "" && PathOf(w).1[|PathOf(w).1| - 1] == 'n'
  {
  }

  // ---------------------------------------------------------------- processes, crashes, files

  /** Whatever item file exists is complete and holds what its work should yield. */
  ghost predicate Sound(world: World, digest: Canon -> string, files: map<Path, File>)
    requires ValidWorld(world)
  {
    forall r, work :: From(world, digest, r, work) && PathOf(work) in files ==> files[PathOf(work)] == Whole(Truth(world, work))
  }

  /** A worker of some process between opening its temporary file and renaming it. */
  datatype Writer = Writer(request: Request, work: Work, uuid: string, full: bool)

  datatype Machine = Machine(files: map<Path, File>, writers: map<nat, Writer>)

  /** Steps of any number of processes: a worker that has fetched its data opens a temporary file,
      fills it and renames it; any set of workers is killed; a file is removed. */
  datatype Step =
    | Open(w: nat, request: Request, work: Work, uuid: string)
    | Fill(w: nat)
    | Rename(w: nat)
    | Kill(ws: set<nat>)
    | Remove(path: Path)

  ghost predicate Possible(world: World, digest: Canon -> string, m: Machine, step: Step)
    requires ValidWorld(world)
  {
    match step
    case Open(w, request, work, uuid) =>
      && w !in m.writers && From(world, digest, request, work) && NoDot(uuid)
      && forall v | v in m.writers :: m.writers[v].uuid != uuid
    case Fill(w) => w in m.writers && !m.writers[w].full
    case Rename(w) => w in m.writers && m.writers[w].full
    case Kill(_) => true
    case Remove(_) => true
  }

  ghost function After(world: World, digest: Canon -> string, m: Machine, step: Step): Machine
    requires ValidWorld(world) && Possible(world, digest, m, step)
  {
    match step
    case Open(w, request, work, uuid) =>
      Machine(m.files[TempPath(PathOf(work), uuid) := Torn], m.writers[w := Writer(request, work, uuid, false)])
    case Fill(w) =>
      var writer := m.writers[w];
      var temp := TempPath(PathOf(writer.work), writer.uuid);
      // The text goes to the open file, which a removal may have unlinked.
      Machine(if temp in m.files then m.files[temp := Whole(Truth(world, writer.work))] else m.files,
              m.writers[w := writer.(full := true)])
    case Rename(w) =>
      var writer := m.writers[w];
      var temp := TempPath(PathOf(writer.work), writer.uuid);
      // Without the temporary file the rename fails and the worker reports an error.
      Machine(if temp in m.files then m.files[PathOf(writer.work) := m.files[temp]] - {temp} else m.files, m.writers - {w})
    case Kill(ws) => Machine(m.files, m.writers - ws)
    case Remove(path) => Machine(m.files - {path}, m.writers)
  }

  ghost predicate MachineInv(world: World, digest: Canon -> string, m: Machine)
    requires ValidWorld(world)
  {
    && Sound(world, digest, m.files)
    && (forall w | w in m.writers :: WriterRight(world, digest, m.files, m.writers[w]))
    && DistinctUuids(m.writers)
  }

  lemma TempNamesUuid(p: Path, u: string, q: Path, v: string)
    requires NoDot(u) && NoDot(v) && TempPath(p, u) == TempPath(q, v)
    ensures u == v
  {
    var temp := TempPath(p, u).1;
    var end := |temp| - 4;
    assert temp[end - |u|..end] == u && temp[end - |u| - 1] == '.';
    assert temp[end - |v|..end] == v && temp[end - |v| - 1] == '.';
    assert forall i :: end - |u| <= i < end ==> temp[i] == u[i - (end - |u|)];
    assert forall i :: end - |v| <= i < end ==> temp[i] == v[i - (end - |v|)];
  }

  /** Files that are no items do not matter, and an item file may get what its work yields. */
  lemma SoundAfterWrite(world: World, digest: Canon -> string, files: map<Path, File>, r: Request, work: Work)
    requires ValidWorld(world) && Injective(digest) && Sound(world, digest, files) && From(world, digest, r, work)
    ensures Sound(world, digest, files[PathOf(work) := Whole(Truth(world, work))])
  {
    var after := files[PathOf(work) := Whole(Truth(world, work))];
    forall r2, other | From(world, digest, r2, other) && PathOf(other) in after
      ensures after[PathOf(other)] == Whole(Truth(world, other))
    {
      if PathOf(other) == PathOf(work) {
        PathDeterminesWork(world, digest, r2, other, r, work);
      }
    }
  }

  lemma SoundWithoutTemp(world: World, digest: Canon -> string, files: map<Path, File>, after: map<Path, File>, temp: Path)
    requires ValidWorld(world) && Sound(world, digest, files)
    requires forall work :: PathOf(work) != temp
    requires forall p :: p in after && p != temp ==> p in files && after[p] == files[p]
    ensures Sound(world, digest, after)
  {
  }

  lemma {:induction false} StepKeepsSound(world: World, digest: Canon -> string, m: Machine, step: Step)
    requires ValidWorld(world) && Injective(digest) && MachineInv(world, digest, m) && Possible(world, digest, m, step)
    ensures Sound(world, digest, After(world, digest, m, step).files)
  {
    match step
    case Open(w, request, work, uuid) =>
      TempIsNoItemAtAll(PathOf(work), uuid);
      SoundWithoutTemp(world, digest, m.files, After(world, digest, m, step).files, TempPath(PathOf(work), uuid));
    case Fill(w) =>
      var writer := m.writers[w];
      TempIsNoItemAtAll(PathOf(writer.work), writer.uuid);
      SoundWithoutTemp(world, digest, m.files, After(world, digest, m, step).files, TempPath(PathOf(writer.work), writer.uuid));
    case Rename(w) =>
      var writer := m.writers[w];
      var temp := TempPath(PathOf(writer.work), writer.uuid);
      SoundAfterWrite(world, digest, m.files, writer.request, writer.work);
      TempIsNoItemAtAll(PathOf(writer.work), writer.uuid);
      if temp in m.files {
        SoundWithoutTemp(world, digest, m.files[PathOf(writer.work) := Whole(Truth(world, writer.work))],
                         After(world, digest, m, step).files, temp);
      }
    case Kill(_) =>
    case Remove(_) =>
  }

  lemma TempIsNoItemAtAll(path: Path, uuid: string)
    ensures forall work :: PathOf(work) != TempPath(path, uuid)
  {
    forall work: Work
      ensures PathOf(work) != TempPath(path, uuid)
    {
      TempIsNoItem(path, uuid, work);
    }
  }

  ghost predicate WriterRight(world: World, digest: Canon -> string, files: map<Path, File>, writer: Writer)
    requires ValidWorld(world)
  {
    && From(world, digest, writer.request, writer.work) && NoDot(writer.uuid)
    && var temp := TempPath(PathOf(writer.work), writer.uuid);
       writer.full && temp in files ==> files[temp] == Whole(Truth(world, writer.work))
  }

  /** A step leaves the temporary files of the workers that do not take it alone. */
  lemma OthersKeepTheirFiles(world: World, digest: Canon -> string, m: Machine, step: Step, v: nat)
    requires ValidWorld(world) && MachineInv(world, digest, m) && Possible(world, digest, m, step)
    requires v in m.writers && (step.Fill? || step.Rename? ==> step.w != v)
    ensures WriterRight(world, digest, After(world, digest, m, step).files, m.writers[v])
  {
    var writer := m.writers[v];
    var path := PathOf(writer.work);
    assert WriterRight(world, digest, m.files, writer);
    match step
    case Open(_, _, work, uuid) => OtherTemps(path, writer.uuid, PathOf(work), uuid);
    case Fill(w) => OtherTemps(path, writer.uuid, PathOf(m.writers[w].work), m.writers[w].uuid);
    case Rename(w) => TempIsNoItem(path, writer.uuid, m.writers[w].work);
    case Kill(_) =>
    case Remove(_) =>
  }

  lemma TakerKeepsItsFile(world: World, digest: Canon -> string, m: Machine, step: Step)
    requires ValidWorld(world) && MachineInv(world, digest, m) && Possible(world, digest, m, step)
    requires step.Open? || step.Fill?
    ensures var after := After(world, digest, m, step);
            step.w in after.writers && WriterRight(world, digest, after.files, after.writers[step.w])
  {
  }

  ghost predicate DistinctUuids(writers: map<nat, Writer>) {
    forall v, w :: v in writers && w in writers && v != w ==> writers[v].uuid != writers[w].uuid
  }

  lemma UuidsStayDistinct(world: World, digest: Canon -> string, m: Machine, step: Step)
    requires ValidWorld(world) && Possible(world, digest, m, step) && DistinctUuids(m.writers)
    ensures DistinctUuids(After(world, digest, m, step).writers)
  {
  }

  lemma StepKeepsInv(world: World, digest: Canon -> string, m: Machine, step: Step)
    requires ValidWorld(world) && Injective(digest) && MachineInv(world, digest, m) && Possible(world, digest, m, step)
    ensures MachineInv(world, digest, After(world, digest, m, step))
  {
    StepKeepsSound(world, digest, m, step);
    UuidsStayDistinct(world, digest, m, step);
    var after := After(world, digest, m, step);
    forall v | v in after.writers
      ensures WriterRight(world, digest, after.files, after.writers[v])
    {
      if (step.Open? || step.Fill?) && step.w == v {
        TakerKeepsItsFile(world, digest, m, step);
      } else {
        WriterUntouched(world, digest, m, step, v);
        OthersKeepTheirFiles(world, digest, m, step, v);
      }
    }
  }

  lemma WriterUntouched(world: World, digest: Canon -> string, m: Machine, step: Step, v: nat)
    requires ValidWorld(world) && Possible(world, digest, m, step) && v in After(world, digest, m, step).writers
    requires step.Open? || step.Fill? ==> step.w != v
    ensures v in m.writers && After(world, digest, m, step).writers[v] == m.writers[v]
    ensures step.Rename? ==> step.w != v
  {
  }

  lemma OtherTemps(p: Path, u: string, q: Path, v: string)
    requires NoDot(u) && NoDot(v)
    ensures u != v ==> TempPath(p, u) != TempPath(q, v)
  {
    if TempPath(p, u) == TempPath(q, v) {
      TempNamesUuid(p, u, q, v);
    }
  }

  ghost predicate Run(world: World, digest: Canon -> string, m: Machine, steps: seq<Step>, end: Machine)
    requires ValidWorld(world)
    decreases |steps|
  {
    if steps == [] then m == end
    else Possible(world, digest, m, steps[0]) && Run(world, digest, After(world, digest, m, steps[0]), steps[1..], end)
  }

  /** Crash safety: however the processes of any requests interleave and whenever any of them are
      killed, every checkpoint a later scan can load is complete and right. */
  lemma {:induction false} CheckpointsStaySound(world: World, digest: Canon -> string, m: Machine, steps: seq<Step>, end: Machine)
    requires ValidWorld(world) && Injective(digest) && MachineInv(world, digest, m) && Run(world, digest, m, steps, end)
    ensures MachineInv(world, digest, end)
    decreases |steps|
  {
    if steps != [] {
      StepKeepsInv(world, digest, m, steps[0]);
      CheckpointsStaySound(world, digest, After(world, digest, m, steps[0]), steps[1..], end);
    }
  }

  lemma EmptyDiskIsSound(world: World, digest: Canon -> string)
    requires ValidWorld(world)
    ensures MachineInv(world, digest, Machine(map[], map[]))
  {
  }
}
