/** archive_and_delete_objects as one call: the guard, the argument checks, the copy phase, the
    verify-and-delete phase, and the restore that undoes it. */
module ArchiveRun {
  import opened ArchiveKeys
  import opened ArchiveProtocol
  import opened Basics
  import opened Clouds
  import opened BatchDelete
  import opened CopyObjects

  // ---------------------------------------------------------------- the chunked digest loop

  /** A hash that is fed piece by piece, over states of any type. */
  datatype Hash<!S> = Hash(init: S, update: (S, Bytes) -> S, finish: S -> string)

  /** Feeding two pieces is feeding their concatenation. */
  ghost predicate Streaming<S(!new)>(h: Hash<S>) {
    && (forall s, a, b :: h.update(h.update(s, a), b) == h.update(s, a + b))
    && (forall s :: h.update(s, []) == s)
  }

  /** The hash of a content taken in one piece. */
  function HashOf<S>(h: Hash<S>, content: Bytes): string {
    h.finish(h.update(h.init, content))
  }

  const READ_SIZE := 1048576

  /** An HTTP body: a read returns between one byte and the requested number, at the end none. */
  class Stream {
    var rest: Bytes

    constructor (content: Bytes)
      ensures rest == content
    {
      rest := content;
    }

    method Read(limit: nat) returns (chunk: Bytes)
      requires limit > 0
      modifies this
      ensures old(rest) == chunk + rest && |chunk| <= limit
      ensures old(rest) != [] ==> chunk != []
    {
      if rest == [] {
        return [];
      }
      var k :| 1 <= k <= |rest| && k <= limit;
      chunk := rest[..k];
      rest := rest[k..];
    }
  }

  lemma NextPiece<S(!new)>(h: Hash<S>, seen: Bytes, chunk: Bytes, rest: Bytes)
    requires Streaming(h)
    ensures h.update(h.update(h.init, seen), chunk) == h.update(h.init, seen + chunk)
    ensures seen + (chunk + rest) == (seen + chunk) + rest
  {
  }

  /** However the body arrives in pieces, the loop returns the length and hash of all of it. */
  method DigestStream<S(!new)>(h: Hash<S>, stream: Stream) returns (size: nat, digest: string)
    requires Streaming(h)
    modifies stream
    ensures size == |old(stream.rest)| && digest == HashOf(h, old(stream.rest))
    ensures stream.rest == []
  {
    var sha := h.init;
    size := 0;
    ghost var seen: Bytes := [];
    while true
      invariant old(stream.rest) == seen + stream.rest
      invariant size == |seen| && sha == h.update(h.init, seen)
      decreases |stream.rest|
    {
      var chunk := stream.Read(READ_SIZE);
      if chunk == [] {
        break;
      }
      NextPiece(h, seen, chunk, stream.rest);
      sha := h.update(sha, chunk);
      size := size + |chunk|;
      seen := seen + chunk;
    }
    assert stream.rest == [] && seen == old(stream.rest);
    digest := h.finish(sha);
  }

  // ---------------------------------------------------------------- one item

  /** Where the verification of one item fails, or how its delete request goes. */
  datatype Mishap =
    | Smooth
    | HeadSourceRefused | HeadArchiveRefused | ReadSourceRefused | ReadArchiveRefused | RecheckRefused
    | DeleteRefused       // the provider reports an error and keeps the object
    | DeleteReplyLost     // the provider deletes, the reply does not arrive
    | DeleteRaises        // delete_objects itself raises before it sends anything

  predicate FailsVerification(m: Mishap) {
    m.HeadSourceRefused? || m.HeadArchiveRefused? || m.ReadSourceRefused? || m.ReadArchiveRefused? || m.RecheckRefused?
  }

  datatype ItemResult = ItemResult(item: Item, copySuccess: bool, copySkipped: bool, archiveVerified: bool,
                                   deleteAttempted: bool, deleteSuccess: bool)

  /** How the provider answers the single-key delete request for `item`. */
  function SingleAnswer(item: Item, m: Mishap): Answer {
    match m
    case DeleteRefused => Answer({}, Replied([], [item.key]))
    case DeleteReplyLost => Answer({item.key}, Failed)
    case _ => Answer({item.key}, Replied([item.key], []))
  }

  lemma SingleChunk(item: Item)
    ensures Chunks([item], 1) == [Chunk(item.bucket, [item.key])]
  {
    assert [item][..0] == [];
    assert Buckets([item]) == [item.bucket];
    assert KeysFor([item], item.bucket) == [item.key];
    assert [item.bucket][..0] == [];
    assert BatchesOf([item], [item.bucket], 1) == BatchesOf([item], [], 1) + Batches(item.bucket, [item.key], 1);
  }

  /** The one batch of one key removes the object, unless the provider refused. */
  lemma SingleEffect(item: Item, provider: string, m: Mishap)
    requires !FailsVerification(m) && m != DeleteRaises
    ensures var chunk, answer := Chunk(item.bucket, [item.key]), SingleAnswer(item, m);
            && Honest(chunk, answer)
            && Emptied(provider, [chunk], [answer]) == (if m == DeleteRefused then {} else {Place(provider, item)})
            && (Succeeds([chunk], [answer], [0], item) <==> m == Smooth)
  {
    var chunk, answer := Chunk(item.bucket, [item.key]), SingleAnswer(item, m);
    assert Removed(provider, chunk, answer) == if m == DeleteRefused then {} else {Place(provider, item)};
    assert forall l :: l in Emptied(provider, [chunk], [answer]) <==> l in Removed(provider, [chunk][0], [answer][0]);
    assert LastWord([chunk], [answer], [0], 0, item);
  }

  /** The delete request of one item, through delete_objects with batches of one. */
  method DeleteOne(cloud: Cloud, item: Item, provider: string, m: Mishap) returns (success: bool)
    requires !FailsVerification(m) && m != DeleteRaises
    modifies cloud
    ensures success <==> m == Smooth
    ensures cloud.objects == if m == DeleteRefused then old(cloud.objects) else old(cloud.objects) - {Place(provider, item)}
  {
    SingleChunk(item);
    SingleEffect(item, provider, m);
    assert IsSchedule([0], 1) by {
      assert [0][0] == 0;
    }
    var results, _, _ := DeleteObjects(cloud, [item], provider, 1, [SingleAnswer(item, m)], [0], [0]);
    success := results[0].success;
  }

  /** The request an archive run makes: every item goes to its archive key. */
  function ArchivePlan(items: seq<Item>, source: string, archive: string, unavailable: bool, faults: seq<Fault>): Plan {
    Plan(items, source, archive, item => Item(ARCHIVE_BUCKET, ArchiveDestKey(item)), false,
         if unavailable then {ARCHIVE_BUCKET} else {}, faults)
  }

  /** The sources are no archive entries, and different items have different archive entries. */
  ghost predicate Archivable(items: seq<Item>) {
    && NoDup(items)
    && (forall item | item in items :: SlashFree(item.bucket) && item.bucket != ARCHIVE_BUCKET)
  }

  lemma ArchivePlanSeparate(items: seq<Item>, source: string, archive: string, unavailable: bool, faults: seq<Fault>)
    requires Archivable(items)
    ensures ArchivePlan(items, source, archive, unavailable, faults).Separate()
  {
    var p := ArchivePlan(items, source, archive, unavailable, faults);
    forall i, j | 0 <= i < j < |items|
      ensures p.To(i) != p.To(j)
    {
      assert items[i] in items && items[j] in items;
      if ArchiveDestKey(items[i]) == ArchiveDestKey(items[j]) {
        ArchiveKeyInjective(items[i], items[j]);
      }
    }
    forall i, j | 0 <= i < |items| && 0 <= j < |items|
      ensures p.To(i) != p.From(j)
    {
      assert items[j] in items;
    }
  }

  /** Item by item, what the verification compares: the source is still there, and the archive
      holds the same bytes. */
  predicate Verifies(store: map<Location, Bytes>, from: Location, to: Location, m: Mishap) {
    !FailsVerification(m) && from in store && to in store && store[to] == store[from]
  }

  /** What the second phase does with an item whose copy ended as `copied`. */
  function ItemFate(store: map<Location, Bytes>, item: Item, source: string, archive: string, copied: CopyResult, m: Mishap): ItemResult {
    var from, to := Place(source, item), Location(archive, ARCHIVE_BUCKET, ArchiveDestKey(item));
    var verified := copied.success && Verifies(store, from, to, m);
    ItemResult(item, copied.success, copied.skipped, verified, verified, verified && m == Smooth)
  }

  /** The provider really deletes, whatever it reports. */
  predicate Vanishes(r: ItemResult, m: Mishap) {
    r.archiveVerified && m != DeleteRefused && m != DeleteRaises
  }

  /** The stages of an item, as its progress events name them. */
  datatype Stage = Checking | VerifySource | VerifyArchive | Deleting | ItemDone

  const STAGES: seq<Stage> := [Checking, VerifySource, VerifyArchive, Deleting]

  /** An archive_progress event; only item_done carries the counter and the item's result. */
  datatype Update = Update(stage: Stage, index: nat, completed: nat, result: Option<ItemResult>)

  /** The events of one item: some stages in order, then one item_done with its number and final
      result. */
  ghost predicate ReportedOnce(updates: seq<Update>, index: nat, number: nat, r: ItemResult) {
    && 1 <= |updates| <= 5
    && updates[|updates| - 1] == Update(ItemDone, index, number, Some(r))
    && forall k :: 0 <= k < |updates| - 1 ==> updates[k] == Update(STAGES[k], index, index, None)
  }

  /** The completion counter of one call. */
  class Counter {
    var completed: nat

    constructor ()
      ensures completed == 0
    {
      completed := 0;
    }

    method Take() returns (number: nat)
      modifies this
      ensures number == completed == old(completed) + 1
    {
      completed := completed + 1;
      number := completed;
    }
  }

  /** The worker of one item in the second phase.  Nobody else writes meanwhile.  On every path it
      takes one number and emits one item_done, with that number and the result as it then stands;
      the deletion callback follows only a delete call that returned. */
  method VerifyAndDeleteOne<S(!new)>(h: Hash<S>, cloud: Cloud, counter: Counter, index: nat, item: Item, source: string,
                                     archive: string, copied: CopyResult, m: Mishap)
    returns (r: ItemResult, updates: seq<Update>, deletions: seq<(nat, bool)>)
    requires Streaming(h) && forall a, b :: HashOf(h, a) == HashOf(h, b) ==> a == b
    modifies cloud, counter
    ensures r == ItemFate(old(cloud.objects), item, source, archive, copied, m)
    ensures cloud.objects == if Vanishes(r, m) then old(cloud.objects) - {Place(source, item)} else old(cloud.objects)
    ensures counter.completed == old(counter.completed) + 1
    ensures ReportedOnce(updates, index, counter.completed, r)
    ensures |updates| == 1 <==> !copied.success
    ensures |updates| == 5 <==> r.deleteAttempted
    ensures deletions == if r.deleteAttempted && m != DeleteRaises then [(counter.completed, r.deleteSuccess)] else []
  {
    r, updates, deletions := ItemResult(item, copied.success, copied.skipped, false, false, false), [], [];
    if copied.success {
      var verified, stages := VerifyOne(h, cloud, index, item, source, archive, m);
      updates := stages;
      if verified {
        updates := updates + [Update(Deleting, index, index, None)];
        r := r.(archiveVerified := true, deleteAttempted := true);
        if m == DeleteRaises {
          var number := counter.Take();
          updates := updates + [Update(ItemDone, index, number, Some(r))];
          return;
        }
        var success := DeleteOne(cloud, item, source, m);
        r := r.(deleteSuccess := success);
        var number := counter.Take();
        updates := updates + [Update(ItemDone, index, number, Some(r))];
        deletions := [(number, success)];
        return;
      }
    }
    var number := counter.Take();
    updates := updates + [Update(ItemDone, index, number, Some(r))];
  }

  /** The steps between "checking" and the decision to delete.  They only read. */
  method VerifyOne<S(!new)>(h: Hash<S>, cloud: Cloud, index: nat, item: Item, source: string, archive: string, m: Mishap)
    returns (verified: bool, updates: seq<Update>)
    requires Streaming(h) && forall a, b :: HashOf(h, a) == HashOf(h, b) ==> a == b
    ensures verified <==>
              Verifies(cloud.objects, Place(source, item), Location(archive, ARCHIVE_BUCKET, ArchiveDestKey(item)), m)
    ensures 1 <= |updates| <= 3 && (verified ==> |updates| == 3)
    ensures forall k :: 0 <= k < |updates| ==> updates[k] == Update(STAGES[k], index, index, None)
  {
    var from, to := Place(source, item), Location(archive, ARCHIVE_BUCKET, ArchiveDestKey(item));
    verified, updates := false, [Update(Checking, index, index, None)];
    if m.HeadSourceRefused? || from !in cloud.objects {
      return;
    }
    var length := |cloud.objects[from]|;
    if m.HeadArchiveRefused? || to !in cloud.objects || |cloud.objects[to]| != length || m.ReadSourceRefused? {
      return;
    }
    var body := new Stream(cloud.objects[from]);
    updates := updates + [Update(VerifySource, index, index, None)];
    var size, digest := DigestStream(h, body);
    if m.ReadArchiveRefused? {
      return;
    }
    var download := new Stream(cloud.objects[to]);
    updates := updates + [Update(VerifyArchive, index, index, None)];
    var archivedSize, archivedDigest := DigestStream(h, download);
    verified := !(size != archivedSize || digest != archivedDigest || size != length || m.RecheckRefused?);
  }

  // ---------------------------------------------------------------- the whole call

  /** The process-wide set of keys that archive runs are working on. */
  class Guard {
    var active: set<Item>

    constructor ()
      ensures active == {}
    {
      active := {};
    }
  }

  datatype ArchiveError = RunStillActive | WrongArchiveBucket | ArchiveAsSource

  /** The two phases after the guard and the argument checks, seen from outside.  Every item's
      archive entry keeps what it had or gains the source's bytes; the source disappears exactly
      when the entry holds its bytes, no step failed and the provider deleted. */
  ghost predicate ArchiveEffect(p: Plan, mishaps: seq<Mishap>, before: map<Location, Bytes>, after: map<Location, Bytes>,
                                results: seq<ItemResult>)
    requires p.Valid() && |mishaps| == |p.items|
  {
    && |results| == |p.items|
    && (forall i :: 0 <= i < |results| ==> results[i].item == p.items[i])
    && (forall i :: 0 <= i < |results| ==>
          (results[i].copySuccess <==> Fate(p, before, i).success) && (results[i].copySkipped <==> Fate(p, before, i).skipped))
    && (forall i :: 0 <= i < |results| && results[i].copySuccess ==>
          p.To(i) in after && (p.To(i) in before || (p.From(i) in before && after[p.To(i)] == before[p.From(i)])))
    && (forall i :: 0 <= i < |results| && p.To(i) in after && p.To(i) !in before ==>
          p.From(i) in before && after[p.To(i)] == before[p.From(i)])
    && (forall i :: 0 <= i < |results| ==>
          (results[i].archiveVerified <==>
             results[i].copySuccess && !FailsVerification(mishaps[i]) && p.From(i) in before &&
             p.To(i) in after && after[p.To(i)] == before[p.From(i)]))
    && (forall i :: 0 <= i < |results| ==> (results[i].deleteAttempted <==> results[i].archiveVerified))
    && (forall i :: 0 <= i < |results| ==> (results[i].deleteSuccess <==> results[i].archiveVerified && mishaps[i] == Smooth))
    && (forall i :: 0 <= i < |results| ==> (p.From(i) in after <==> p.From(i) in before && !Vanishes(results[i], mishaps[i])))
    && (forall l :: l in before && l in after ==> after[l] == before[l])
    && (forall l :: l in before && l !in after ==> exists i :: 0 <= i < |results| && l == p.From(i))
    && (forall l :: l in after && l !in before ==> exists i :: 0 <= i < |results| && l == p.To(i))
  }

  /** The second phase of one call: the plan of the first, how it ended, and the mishaps to come. */
  datatype Second = Second(p: Plan, copies: seq<CopyResult>, mishaps: seq<Mishap>)
  {
    predicate Valid() {
      p.Valid() && |copies| == |mishaps| == |p.items|
    }

    /** What becomes of item `i` if it is alone with the stores the first phase left. */
    function Alone(mid: map<Location, Bytes>, i: nat): ItemResult
      requires Valid() && i < |p.items|
    {
      ItemFate(mid, p.items[i], p.source, p.dest, copies[i], mishaps[i])
    }

    /** The sources that the workers of a schedule's prefix remove. */
    ghost function Gone(mid: map<Location, Bytes>, order: seq<nat>): set<Location>
      requires Valid()
    {
      set i: nat | i in order && i < |p.items| && Vanishes(Alone(mid, i), mishaps[i]) :: p.From(i)
    }
  }

  /** The workers of a schedule's prefix have done what they would do alone. */
  ghost predicate Verified(c: Second, mid: map<Location, Bytes>, now: map<Location, Bytes>,
                           slots: seq<Option<ItemResult>>, order: seq<nat>)
    requires c.Valid() && |slots| == |c.p.items|
  {
    && now == mid - c.Gone(mid, order)
    && (forall i: nat :: i < |slots| && i in order ==> slots[i] == Some(c.Alone(mid, i)))
  }

  /** A worker's own locations are not touched by the workers before it. */
  lemma StillAlone(c: Second, mid: map<Location, Bytes>, order: seq<nat>, m: nat)
    requires c.Valid() && Archivable(c.p.items) && m < |c.p.items| && m !in order
    ensures c.p.From(m) !in c.Gone(mid, order)
    ensures Location(c.p.dest, ARCHIVE_BUCKET, ArchiveDestKey(c.p.items[m])) !in c.Gone(mid, order)
  {
  }

  lemma VerifiedExtend(c: Second, mid: map<Location, Bytes>, now: map<Location, Bytes>, slots: seq<Option<ItemResult>>,
                       order: seq<nat>, n: nat, r: ItemResult, after: map<Location, Bytes>)
    requires c.Valid() && |slots| == |c.p.items| && Archivable(c.p.items)
    requires IsSchedule(order, |c.p.items|) && n < |order|
    requires Verified(c, mid, now, slots, order[..n])
    requires r == c.Alone(now, order[n])
    requires after == if Vanishes(r, c.mishaps[order[n]]) then now - {c.p.From(order[n])} else now
    ensures Verified(c, mid, after, slots[order[n] := Some(r)], order[..n + 1])
  {
    var m := order[n];
    var longer := order[..n + 1];
    assert longer == order[..n] + [m] && m !in order[..n];
    StillAlone(c, mid, order[..n], m);
    assert r == c.Alone(mid, m);
    assert c.Gone(mid, longer) == c.Gone(mid, order[..n]) + if Vanishes(r, c.mishaps[m]) then {c.p.From(m)} else {};
  }

  lemma EffectOfPhases(c: Second, before: map<Location, Bytes>, mid: map<Location, Bytes>, after: map<Location, Bytes>,
                       slots: seq<Option<ItemResult>>, order: seq<nat>, results: seq<ItemResult>)
    requires c.Valid() && Archivable(c.p.items) && c.p.Separate() && !c.p.overwrite
    requires forall i :: 0 <= i < |c.p.items| ==> c.p.To(i) == Location(c.p.dest, ARCHIVE_BUCKET, ArchiveDestKey(c.p.items[i]))
    requires Faithful(c.p, before, mid, c.copies)
    requires |slots| == |c.p.items| && IsSchedule(order, |c.p.items|)
    requires Verified(c, mid, after, slots, order)
    requires |results| == |slots| && forall i: nat :: i < |slots| && slots[i].Some? ==> results[i] == slots[i].value
    ensures ArchiveEffect(c.p, c.mishaps, before, after, results)
  {
    var p := c.p;
    forall i: nat | i < |p.items|
      ensures results[i] == c.Alone(mid, i)
    {
      assert i in order;
    }
    forall i: nat | i < |p.items|
      ensures p.To(i) !in c.Gone(mid, order)
    {
      forall j: nat | j < |p.items|
        ensures p.From(j).bucket != ARCHIVE_BUCKET
      {
        assert p.items[j] in p.items;
      }
    }
    forall i: nat | i < |p.items|
      ensures p.From(i) in mid <==> p.From(i) in before
      ensures p.From(i) in c.Gone(mid, order) <==> Vanishes(results[i], c.mishaps[i])
    {
      assert i in order;
      forall j: nat | j < |p.items| && p.From(j) == p.From(i)
        ensures i == j
      {
        assert p.items[i] == p.items[j];
      }
    }
  }

  /** The item_done events among the events of a call. */
  function Dones(updates: seq<Update>): seq<Update> {
    if updates == [] then []
    else
      var last := updates[|updates| - 1];
      Dones(updates[..|updates| - 1]) + if last.stage == ItemDone then [last] else []
  }

  lemma {:induction false} NoDones(updates: seq<Update>)
    requires forall u | u in updates :: u.stage != ItemDone
    ensures Dones(updates) == []
  {
    if updates != [] {
      assert updates[|updates| - 1] in updates;
      NoDones(updates[..|updates| - 1]);
    }
  }

  lemma {:induction false} DonesConcat(a: seq<Update>, b: seq<Update>)
    ensures Dones(a + b) == Dones(a) + Dones(b)
  {
    if b == [] {
      assert a + b == a;
    } else {
      DonesConcat(a, b[..|b| - 1]);
      assert (a + b)[..|a + b| - 1] == a + b[..|b| - 1];
    }
  }

  /** The events of one item add its item_done. */
  lemma DonesExtend(updates: seq<Update>, more: seq<Update>, index: nat, number: nat, r: ItemResult)
    requires ReportedOnce(more, index, number, r)
    ensures Dones(updates + more) == Dones(updates) + [Update(ItemDone, index, number, Some(r))]
  {
    var stages := more[..|more| - 1];
    forall u | u in stages
      ensures u.stage != ItemDone
    {
      var k :| 0 <= k < |stages| && stages[k] == u;
      assert u == Update(STAGES[k], index, index, None);
    }
    NoDones(stages);
    DonesConcat(updates, more);
  }

  /** One item_done per worker of the schedule, numbered in its order, with the worker's result. */
  ghost predicate Reported(updates: seq<Update>, slots: seq<Option<ItemResult>>, order: seq<nat>) {
    && |Dones(updates)| == |order|
    && (forall k :: 0 <= k < |order| ==> order[k] < |slots| && slots[order[k]].Some?)
    && (forall k :: 0 <= k < |order| ==> Dones(updates)[k] == Update(ItemDone, order[k], k + 1, slots[order[k]]))
  }

  lemma ReportedExtend(updates: seq<Update>, more: seq<Update>, slots: seq<Option<ItemResult>>, order: seq<nat>, i: nat,
                       r: ItemResult)
    requires Reported(updates, slots, order) && i < |slots| && i !in order
    requires ReportedOnce(more, i, |order| + 1, r)
    ensures Reported(updates + more, slots[i := Some(r)], order + [i])
  {
    DonesExtend(updates, more, i, |order| + 1, r);
    forall k | 0 <= k < |order|
      ensures order[k] != i
    {
      assert order[k] in order;
    }
  }

  /** The second pool, in whatever order its workers get to the items. */
  method VerifyAndDeleteAll<S(!new)>(h: Hash<S>, cloud: Cloud, p: Plan, archive: string, copies: seq<CopyResult>,
                                     mishaps: seq<Mishap>, order: seq<nat>)
    returns (results: seq<ItemResult>, ghost slots: seq<Option<ItemResult>>, updates: seq<Update>)
    requires Streaming(h) && forall a, b :: HashOf(h, a) == HashOf(h, b) ==> a == b
    requires Second(p, copies, mishaps).Valid() && IsSchedule(order, |p.items|) && archive == p.dest
    modifies cloud
    ensures |slots| == |p.items| && Results(slots, results)
    ensures Archivable(p.items) ==> Verified(Second(p, copies, mishaps), old(cloud.objects), cloud.objects, slots, order)
    ensures Reported(updates, slots, order)
  {
    ghost var c, mid := Second(p, copies, mishaps), cloud.objects;
    var done: seq<Option<ItemResult>> := seq(|p.items|, _ => None);
    var counter := new Counter();
    updates := [];
    for n := 0 to |order|
      invariant |done| == |p.items| && counter.completed == n
      invariant forall i: nat :: i < |done| ==> (done[i].Some? <==> i in order[..n])
      invariant Archivable(p.items) ==> Verified(c, mid, cloud.objects, done, order[..n])
      invariant Reported(updates, done, order[..n])
    {
      var i := order[n];
      ghost var now := cloud.objects;
      assert order[..n + 1] == order[..n] + [i] && i !in order[..n];
      var r, more, _ := VerifyAndDeleteOne(h, cloud, counter, i, p.items[i], p.source, archive, copies[i], mishaps[i]);
      if Archivable(p.items) {
        VerifiedExtend(c, mid, now, done, order, n, r, cloud.objects);
      }
      ReportedExtend(updates, more, done, order[..n], i, r);
      done, updates := done[i := Some(r)], updates + more;
    }
    assert order[..|order|] == order;
    assert forall i: nat :: i < |p.items| ==> i in order;
    results := seq(|p.items|, i requires 0 <= i < |p.items| && done[i].Some? => done[i].value);
    slots := done;
  }

  ghost predicate Results(slots: seq<Option<ItemResult>>, results: seq<ItemResult>) {
    |results| == |slots| && forall i: nat :: i < |slots| && slots[i].Some? ==> results[i] == slots[i].value
  }

  /** The item_done events of a call: each item once, with the final result of its slot. */
  ghost predicate AllReported(updates: seq<Update>, results: seq<ItemResult>, order: seq<nat>) {
    && |Dones(updates)| == |results| == |order|
    && forall k :: 0 <= k < |order| ==>
         order[k] < |results| && Dones(updates)[k] == Update(ItemDone, order[k], k + 1, Some(results[order[k]]))
  }

  /** archive_and_delete_objects, when nobody else writes to the stores meanwhile. */
  method ArchiveAndDelete<S(!new)>(h: Hash<S>, cloud: Cloud, guard: Guard, items: seq<Item>, source: string, archive: string,
                                   archiveBucket: string, unavailable: bool, faults: seq<Fault>, copyOrder: seq<nat>,
                                   mishaps: seq<Mishap>, verifyOrder: seq<nat>)
    returns (outcome: Result<seq<ItemResult>, ArchiveError>, updates: seq<Update>)
    requires Streaming(h) && forall a, b :: HashOf(h, a) == HashOf(h, b) ==> a == b
    requires |faults| == |mishaps| == |items| && IsSchedule(copyOrder, |items|) && IsSchedule(verifyOrder, |items|)
    modifies cloud, guard
    ensures guard.active == old(guard.active)
    ensures outcome == Err(RunStillActive) <==> !(Keys(items) !! old(guard.active))
    ensures outcome.Err? ==> cloud.objects == old(cloud.objects)
    ensures outcome.Ok? ==> archiveBucket == ARCHIVE_BUCKET && forall item | item in items :: item.bucket != ARCHIVE_BUCKET
    ensures outcome.Err? && outcome.error != RunStillActive ==>
              archiveBucket != ARCHIVE_BUCKET || exists item | item in items :: item.bucket == archiveBucket
    ensures outcome.Ok? && Archivable(items) ==>
              ArchiveEffect(ArchivePlan(items, source, archive, unavailable, faults), mishaps,
                            old(cloud.objects), cloud.objects, outcome.value)
    ensures if outcome.Ok? then AllReported(updates, outcome.value, verifyOrder) else updates == []
  {
    var keys := set item | item in items;
    updates := [];
    if !(keys !! guard.active) {
      return Err(RunStillActive), [];
    }
    guard.active := guard.active + keys;
    if archiveBucket != ARCHIVE_BUCKET {
      outcome := Err(WrongArchiveBucket);
    } else if exists item | item in items :: item.bucket == archiveBucket {
      outcome := Err(ArchiveAsSource);
    } else {
      var p := ArchivePlan(items, source, archive, unavailable, faults);
      var copies := CopyObjects.CopyObjects(cloud, p, copyOrder);
      ghost var before, mid := old(cloud.objects), cloud.objects;
      if Archivable(items) {
        ArchivePlanSeparate(items, source, archive, unavailable, faults);
      }
      ghost var slots;
      var results;
      ScheduleLength(verifyOrder, |items|);
      results, slots, updates := VerifyAndDeleteAll(h, cloud, p, archive, copies, mishaps, verifyOrder);
      if Archivable(items) {
        EffectOfPhases(Second(p, copies, mishaps), before, mid, cloud.objects, slots, verifyOrder, results);
      }
      outcome := Ok(results);
    }
    guard.active := guard.active - keys;
  }
}
