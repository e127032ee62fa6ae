/** The archive-then-delete protocol as a transition system.

    Any number of runs are in progress at once, each with one worker per requested item, and
    every storage request of every worker is a step of its own, so the events below cover all
    interleavings of a thread pool of any size.  A step that fails, a process crash and writes
    by other users of the source buckets are events as well. */
module ArchiveProtocol {
  import opened ArchiveKeys
  import opened Basics

  newtype byte = b: int | 0 <= b < 256
  type Bytes = seq<byte>

  /** Where an object lives: an account at a storage provider, a bucket and a key. */
  datatype Location = Location(provider: string, bucket: string, key: string)

  datatype Object = Object(content: Bytes, etag: string, lastModified: int, versionId: string)

  /** What HeadObject reports, reduced to the four fields the protocol compares. */
  datatype Meta = Meta(etag: string, length: nat, lastModified: int, versionId: string)

  type Store = map<Location, Object>

  /** Facts about the outside world: the hash function, and which content an ETag names at a
      location.  `Trusted` and `Lawful` say what is assumed about them. */
  datatype World = World(sha256: Bytes -> string, named: (Location, string) -> Bytes)

  ghost predicate Trusted(w: World) {
    forall a, b :: w.sha256(a) == w.sha256(b) ==> a == b
  }

  function Head(o: Object): Meta {
    Meta(o.etag, |o.content|, o.lastModified, o.versionId)
  }

  /** A stream's length and hash, as the verification step compares them. */
  function Digest(w: World, content: Bytes): (nat, string) {
    (|content|, w.sha256(content))
  }

  datatype Outcome =
    | CopyFailed
    | Retained                     // a verification step raised: the source is kept
    | Attempted(confirmed: bool)   // a delete request was sent

  /** A worker's program counter, with the local variables that are live there. */
  datatype Pc =
    | CopyPending
    | CopyAbsent                                    // HeadObject at the destination said 404
    | CopyFetched(body: Bytes)                      // GetObject at the source answered
    | CopyEnded(success: bool, skipped: bool)
    | SourceHeaded(meta: Meta)
    | ArchiveHeaded(meta: Meta)                     // both lengths agree
    | SourceRead(meta: Meta, digest: (nat, string)) // GetObject with IfMatch answered
    | Matched(meta: Meta)                           // the archive download has the same digest
    | Cleared(meta: Meta)                           // the second HeadObject agrees with the first
    | Ended(outcome: Outcome)                       // settled, no completion number yet
    | Numbered(outcome: Outcome, number: nat)       // the counter was incremented
    | Finished(outcome: Outcome)                    // item_done was emitted

  datatype Phase = Entered | Copying | Verifying | Raised

  /** An item_done event: which item, and the completed count it carries. */
  datatype Report = Report(index: nat, completed: nat)

  /** One call of archive_and_delete_objects.  `done` lists the workers in the order in which
      they incremented the completion counter, `reports` the item_done events as emitted. */
  datatype Run = Run(source: string, archive: string, archiveBucket: string, items: seq<Item>,
                     phase: Phase, workers: seq<Pc>, done: seq<nat>, reports: seq<Report>)

  /** A source object this pipeline removed: what was removed, and what had been verified. */
  datatype Deletion = Deletion(source: Location, archive: Location, removed: Bytes, verified: Bytes)

  datatype State = State(store: Store, active: set<Item>, runs: map<nat, Run>, log: seq<Deletion>)

  datatype Event =
    | Start(id: nat, source: string, archive: string, archiveBucket: string, items: seq<Item>)
    | CheckArguments(id: nat)
    | Abort(id: nat)                           // the run raised before its copy pool, or right after it
    | CopyHead(id: nat, index: nat)
    | CopyFetch(id: nat, index: nat)
    | CopyPut(id: nat, index: nat, version: Object, reported: bool)  // applied; its reply may be lost
    | CopyFail(id: nat, index: nat)
    | Barrier(id: nat)                         // the copy pool has joined
    | ReportCopyFailure(id: nat, index: nat)
    | HeadSource(id: nat, index: nat)
    | HeadArchive(id: nat, index: nat)
    | ReadSource(id: nat, index: nat)
    | ReadArchive(id: nat, index: nat)
    | Recheck(id: nat, index: nat)
    | VerifyFail(id: nat, index: nat)
    | Delete(id: nat, index: nat, applied: bool, confirmed: bool)
    | TakeNumber(id: nat, index: nat)          // increments the counter under its lock ...
    | ReportItem(id: nat, index: nat)          // ... and emits item_done after releasing it
    | Finish(id: nat)                          // the guard releases the keys
    | Crash
    | Write(location: Location, version: Object)  // another user of the stores
    | Remove(location: Location)

  function Keys(items: seq<Item>): set<Item> {
    set item | item in items
  }

  predicate At(s: State, id: nat, i: nat) {
    id in s.runs && i < |s.runs[id].items| && |s.runs[id].workers| == |s.runs[id].items|
  }

  function PcAt(s: State, id: nat, i: nat): Pc
    requires At(s, id, i)
  {
    s.runs[id].workers[i]
  }

  function SourceOf(r: Run, i: nat): Location
    requires i < |r.items|
  {
    Location(r.source, r.items[i].bucket, r.items[i].key)
  }

  function ArchiveOf(r: Run, i: nat): Location
    requires i < |r.items|
  {
    Location(r.archive, r.archiveBucket, ArchiveDestKey(r.items[i]))
  }

  /** Worker `i` of run `id` moves to `pc`. */
  function Move(s: State, id: nat, i: nat, pc: Pc): State
    requires At(s, id, i)
  {
    var r := s.runs[id];
    s.(runs := s.runs[id := r.(workers := r.workers[i := pc])])
  }

  /** Worker `i` of run `id` has its outcome and will report it. */
  function End(s: State, id: nat, i: nat, outcome: Outcome): State
    requires At(s, id, i)
  {
    Move(s, id, i, Ended(outcome))
  }

  predicate ArgumentsOk(r: Run) {
    r.archiveBucket == ARCHIVE_BUCKET && forall item | item in r.items :: item.bucket != r.archiveBucket
  }

  predicate AllCopied(r: Run) {
    forall pc | pc in r.workers :: pc.CopyEnded?
  }

  predicate AllFinished(r: Run) {
    forall pc | pc in r.workers :: pc.Finished?
  }

  /** When the code can take a step. */
  predicate Enabled(s: State, e: Event) {
    match e
    case Start(id, _, _, _, items) => id !in s.runs && Keys(items) !! s.active
    case CheckArguments(id) => id in s.runs && s.runs[id].phase == Entered
    case Abort(id) =>
      id in s.runs && s.runs[id].phase == Copying &&
      (AllCopied(s.runs[id]) || forall pc | pc in s.runs[id].workers :: pc == CopyPending)
    case CopyHead(id, i) => At(s, id, i) && s.runs[id].phase == Copying && PcAt(s, id, i) == CopyPending
    case CopyFetch(id, i) =>
      At(s, id, i) && PcAt(s, id, i) == CopyAbsent && SourceOf(s.runs[id], i) in s.store
    case CopyPut(id, i, o, _) =>
      At(s, id, i) && PcAt(s, id, i).CopyFetched? && o.content == PcAt(s, id, i).body
    case CopyFail(id, i) =>
      At(s, id, i) && s.runs[id].phase == Copying &&
      (PcAt(s, id, i) == CopyPending || PcAt(s, id, i) == CopyAbsent || PcAt(s, id, i).CopyFetched?)
    case Barrier(id) => id in s.runs && s.runs[id].phase == Copying && AllCopied(s.runs[id])
    case ReportCopyFailure(id, i) =>
      At(s, id, i) && s.runs[id].phase == Verifying && PcAt(s, id, i).CopyEnded? && !PcAt(s, id, i).success
    case HeadSource(id, i) =>
      At(s, id, i) && s.runs[id].phase == Verifying && PcAt(s, id, i).CopyEnded? && PcAt(s, id, i).success &&
      SourceOf(s.runs[id], i) in s.store
    case HeadArchive(id, i) =>
      At(s, id, i) && PcAt(s, id, i).SourceHeaded? && ArchiveOf(s.runs[id], i) in s.store
    case ReadSource(id, i) =>
      At(s, id, i) && PcAt(s, id, i).ArchiveHeaded? && SourceOf(s.runs[id], i) in s.store &&
      s.store[SourceOf(s.runs[id], i)].etag == PcAt(s, id, i).meta.etag
    case ReadArchive(id, i) =>
      At(s, id, i) && PcAt(s, id, i).SourceRead? && ArchiveOf(s.runs[id], i) in s.store
    case Recheck(id, i) =>
      At(s, id, i) && PcAt(s, id, i).Matched? && SourceOf(s.runs[id], i) in s.store
    case VerifyFail(id, i) =>
      At(s, id, i) && s.runs[id].phase == Verifying &&
      var pc := PcAt(s, id, i);
      (pc.CopyEnded? && pc.success) || pc.SourceHeaded? || pc.ArchiveHeaded? || pc.SourceRead? || pc.Matched?
    case Delete(id, i, applied, confirmed) =>
      At(s, id, i) && PcAt(s, id, i).Cleared? && (confirmed ==> applied)
    case TakeNumber(id, i) => At(s, id, i) && PcAt(s, id, i).Ended?
    case ReportItem(id, i) => At(s, id, i) && PcAt(s, id, i).Numbered?
    case Finish(id) =>
      id in s.runs && (s.runs[id].phase == Raised || (s.runs[id].phase == Verifying && AllFinished(s.runs[id])))
    case Crash => true
    case Write(_, _) => true
    case Remove(_) => true
  }

  /** What an enabled step does. */
  function Do(w: World, s: State, e: Event): State
    requires Enabled(s, e)
  {
    match e
    case Start(id, source, archive, archiveBucket, items) =>
      var pending := seq(|items|, _ => CopyPending);
      s.(active := s.active + Keys(items),
         runs := s.runs[id := Run(source, archive, archiveBucket, items, Entered, pending, [], [])])
    case CheckArguments(id) =>
      var r := s.runs[id];
      s.(runs := s.runs[id := r.(phase := if ArgumentsOk(r) then Copying else Raised)])
    case Abort(id) =>
      s.(runs := s.runs[id := s.runs[id].(phase := Raised)])
    case CopyHead(id, i) =>
      if ArchiveOf(s.runs[id], i) in s.store
      then Move(s, id, i, CopyEnded(true, true))
      else Move(s, id, i, CopyAbsent)
    case CopyFetch(id, i) =>
      Move(s, id, i, CopyFetched(s.store[SourceOf(s.runs[id], i)].content))
    case CopyPut(id, i, o, reported) =>
      Move(s, id, i, CopyEnded(reported, false)).(store := s.store[ArchiveOf(s.runs[id], i) := o])
    case CopyFail(id, i) =>
      Move(s, id, i, CopyEnded(false, false))
    case Barrier(id) =>
      s.(runs := s.runs[id := s.runs[id].(phase := Verifying)])
    case ReportCopyFailure(id, i) =>
      End(s, id, i, CopyFailed)
    case HeadSource(id, i) =>
      Move(s, id, i, SourceHeaded(Head(s.store[SourceOf(s.runs[id], i)])))
    case HeadArchive(id, i) =>
      var m := PcAt(s, id, i).meta;
      if Head(s.store[ArchiveOf(s.runs[id], i)]).length == m.length
      then Move(s, id, i, ArchiveHeaded(m))
      else End(s, id, i, Retained)
    case ReadSource(id, i) =>
      var m := PcAt(s, id, i).meta;
      Move(s, id, i, SourceRead(m, Digest(w, s.store[SourceOf(s.runs[id], i)].content)))
    case ReadArchive(id, i) =>
      var pc := PcAt(s, id, i);
      if Digest(w, s.store[ArchiveOf(s.runs[id], i)].content) == pc.digest && pc.digest.0 == pc.meta.length
      then Move(s, id, i, Matched(pc.meta))
      else End(s, id, i, Retained)
    case Recheck(id, i) =>
      var m := PcAt(s, id, i).meta;
      if Head(s.store[SourceOf(s.runs[id], i)]) == m
      then Move(s, id, i, Cleared(m))
      else End(s, id, i, Retained)
    case VerifyFail(id, i) =>
      End(s, id, i, Retained)
    case Delete(id, i, applied, confirmed) =>
      var r := s.runs[id];
      var source := SourceOf(r, i);
      var ended := End(s, id, i, Attempted(confirmed));
      if applied && source in s.store then
        var verified := w.named(source, PcAt(s, id, i).meta.etag);
        ended.(store := s.store - {source},
               log := s.log + [Deletion(source, ArchiveOf(r, i), s.store[source].content, verified)])
      else
        ended
    case TakeNumber(id, i) =>
      var r := s.runs[id];
      var number := |r.done| + 1;
      var numbered := Numbered(PcAt(s, id, i).outcome, number);
      s.(runs := s.runs[id := r.(workers := r.workers[i := numbered], done := r.done + [i])])
    case ReportItem(id, i) =>
      var r := s.runs[id];
      var pc := PcAt(s, id, i);
      s.(runs := s.runs[id := r.(workers := r.workers[i := Finished(pc.outcome)],
                                 reports := r.reports + [Report(i, pc.number)])])
    case Finish(id) =>
      s.(active := s.active - Keys(s.runs[id].items), runs := s.runs - {id})
    case Crash =>
      s.(active := {}, runs := map[])
    case Write(l, o) =>
      s.(store := s.store[l := o])
    case Remove(l) =>
      s.(store := s.store - {l})
  }

  /** The assumptions about the environment: an ETag names one content at a location, bucket
      names have no slash, and nobody but these runs touches the archive bucket. */
  predicate Lawful(w: World, s: State, e: Event) {
    match e
    case Start(_, _, _, _, items) => forall item | item in items :: SlashFree(item.bucket)
    case CopyPut(id, i, o, _) => At(s, id, i) ==> o.content == w.named(ArchiveOf(s.runs[id], i), o.etag)
    case Write(l, o) => l.bucket != ARCHIVE_BUCKET && o.content == w.named(l, o.etag)
    case Remove(l) => l.bucket != ARCHIVE_BUCKET
    case _ => true
  }

  /** The one window the protocol cannot close: between an item's second HeadObject and its
      delete.  An event is quiet when no other user writes a location inside its window. */
  ghost predicate Quiet(s: State, e: Event) {
    e.Write? ==>
      forall id, i :: At(s, id, i) && PcAt(s, id, i).Cleared? ==> SourceOf(s.runs[id], i) != e.location
  }

  /** A start of the process: any store whose ETags are lawful, nothing running. */
  predicate Initial(w: World, s: State) {
    s.active == {} && s.runs == map[] && s.log == [] &&
    forall l | l in s.store :: s.store[l].content == w.named(l, s.store[l].etag)
  }

  /** The state after the events of a trace, or None when one of them was not possible. */
  function Execute(w: World, s: State, trace: seq<Event>): Option<State> {
    if trace == [] then Some(s)
    else
      var before := Execute(w, s, trace[..|trace| - 1]);
      var e := trace[|trace| - 1];
      if before.Some? && Enabled(before.value, e) && Lawful(w, before.value, e)
      then Some(Do(w, before.value, e))
      else None
  }

  /** Every event of the trace kept out of the windows open when it happened. */
  ghost predicate AllQuiet(w: World, s: State, trace: seq<Event>) {
    trace == [] ||
    (AllQuiet(w, s, trace[..|trace| - 1]) &&
     var before := Execute(w, s, trace[..|trace| - 1]);
     before.Some? ==> Quiet(before.value, trace[|trace| - 1]))
  }
}
