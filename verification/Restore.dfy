/** restore_from_archive and what it gives back after an archive run. */
module Restore {
  import opened ArchiveKeys
  import opened ArchiveProtocol
  import opened Basics
  import opened Clouds
  import opened CopyObjects
  import opened ArchiveRun

  /** The archive objects of a list of original objects. */
  function Archived(items: seq<Item>): (r: seq<Item>)
    ensures |r| == |items| && forall i :: 0 <= i < |r| ==> r[i] == Item(ARCHIVE_BUCKET, ArchiveDestKey(items[i]))
  {
    seq(|items|, i requires 0 <= i < |items| => Item(ARCHIVE_BUCKET, ArchiveDestKey(items[i])))
  }

  /** A restore request for archive objects: each goes where its own key says. */
  function RestorePlan(archived: seq<Item>, archive: string, dest: string, overwrite: bool,
                       unavailable: set<string>, faults: seq<Fault>): Plan {
    Plan(archived, archive, dest, item => RestoreDest(item), overwrite, unavailable, faults)
  }

  datatype RestoreRefusal = NothingToRestore | Malformed(key: string) | SelfTargeting(item: Item)

  /** The checks of the restore route, in its order. */
  method ValidateRestore(archived: seq<Item>) returns (refusal: Option<RestoreRefusal>)
    ensures refusal == None <==> archived != [] && forall item | item in archived :: '/' in item.key && RestoreDest(item).bucket != item.bucket
    ensures forall key :: refusal == Some(Malformed(key)) ==> '/' !in key && exists i :: 0 <= i < |archived| && archived[i].key == key
    ensures forall item :: refusal == Some(SelfTargeting(item)) ==> item in archived && RestoreDest(item).bucket == item.bucket
  {
    if archived == [] {
      return Some(NothingToRestore);
    }
    for i := 0 to |archived|
      invariant forall j :: 0 <= j < i ==> '/' in archived[j].key
    {
      if '/' !in archived[i].key {
        return Some(Malformed(archived[i].key));
      }
    }
    for i := 0 to |archived|
      invariant forall j :: 0 <= j < i ==> RestoreDest(archived[j]).bucket != archived[j].bucket
    {
      assert archived[i] in archived;
      if RestoreDestBucket(archived[i].key) == archived[i].bucket {
        return Some(SelfTargeting(archived[i]));
      }
    }
    return None;
  }

  method RestoreFromArchive(cloud: Cloud, p: Plan, order: seq<nat>) returns (results: seq<CopyResult>)
    requires p.Valid() && IsSchedule(order, |p.items|)
    requires p == RestorePlan(p.items, p.source, p.dest, p.overwrite, p.unavailable, p.faults)
    modifies cloud
    ensures Harmless(p, old(cloud.objects), cloud.objects, results)
    ensures p.Separate() ==> Faithful(p, old(cloud.objects), cloud.objects, results)
  {
    results := CopyObjects.CopyObjects(cloud, p, order);
  }

  /** What an archive run filed passes the checks of the restore route. */
  lemma ArchivedIsRestorable(items: seq<Item>)
    requires Archivable(items)
    ensures forall item | item in Archived(items) :: '/' in item.key && RestoreDest(item).bucket != item.bucket
  {
    forall i | 0 <= i < |items|
      ensures '/' in Archived(items)[i].key && RestoreDest(Archived(items)[i]) == items[i]
      ensures items[i].bucket != ARCHIVE_BUCKET
    {
      var item := Archived(items)[i];
      assert items[i] in items;
      assert item.key[|items[i].bucket|] == '/';
      RestoreUndoesArchiveKey(items[i], ARCHIVE_BUCKET);
    }
  }

  /** Restoring the objects of an archive run sends each to its original location. */
  lemma RestoreTargets(items: seq<Item>, p: Plan, r: Plan)
    requires Archivable(items) && p.items == items
    requires r == RestorePlan(Archived(items), p.dest, p.source, r.overwrite, r.unavailable, r.faults)
    requires p == ArchivePlan(items, p.source, p.dest, ARCHIVE_BUCKET in p.unavailable, p.faults)
    ensures forall i :: 0 <= i < |items| ==> r.To(i) == p.From(i) && r.From(i) == p.To(i)
    ensures r.Separate()
  {
    forall i | 0 <= i < |items|
      ensures r.To(i) == p.From(i) && r.From(i) == p.To(i)
    {
      assert items[i] in items;
      RestoreUndoesArchiveKey(items[i], ARCHIVE_BUCKET);
    }
    forall i, j | 0 <= i < |items| && 0 <= j < |items|
      ensures r.To(i) != r.From(j) && (i < j ==> r.To(i) != r.To(j))
    {
      assert items[i] in items;
    }
  }

  /** One item of the round trip below. */
  lemma ItemComesBack(p: Plan, mishaps: seq<Mishap>, before: map<Location, Bytes>, mid: map<Location, Bytes>,
                      results: seq<ItemResult>, r: Plan, after: map<Location, Bytes>, restored: seq<CopyResult>, i: nat)
    requires p.Valid() && r.Valid() && |mishaps| == |p.items| == |r.items| && i < |p.items| && !r.overwrite
    requires ArchiveEffect(p, mishaps, before, mid, results)
    requires Faithful(r, mid, after, restored)
    requires r.To(i) == p.From(i) && r.From(i) == p.To(i)
    ensures p.From(i) in before && (restored[i].success || p.From(i) in mid) ==>
              p.From(i) in after && after[p.From(i)] == before[p.From(i)]
    ensures p.From(i) in before && p.From(i) in after ==> after[p.From(i)] == before[p.From(i)]
    ensures restored[i].success ==> (restored[i].skipped <==> p.From(i) in mid)
    ensures p.To(i) in mid ==> p.To(i) in after && after[p.To(i)] == mid[p.To(i)]
    ensures r.unavailable == {} && r.faults[i] == NoFault && results[i].copySuccess ==> restored[i].success
  {
    assert restored[i] == Fate(r, mid, i);
    TransferredLands(r, mid, i);
    if p.From(i) in mid {
      assert p.From(i) in before;
    } else if p.From(i) in before && Lands(r, mid, i) {
      assert Vanishes(results[i], mishaps[i]);
    }
  }

  /** The round trip.  Whatever failed while archiving, and whatever fails while restoring, even
      uploads that are applied and reported as failed: every original that the restore does not
      report as failed, or that was never removed, is back at its place with its original bytes, and
      whatever stands at an original's place has the original's bytes.  A removed original comes back by a transfer, a
      retained one is skipped, and no archive entry changes. */
  lemma RestoreGivesBack(p: Plan, mishaps: seq<Mishap>, before: map<Location, Bytes>, mid: map<Location, Bytes>,
                         results: seq<ItemResult>, r: Plan, after: map<Location, Bytes>, restored: seq<CopyResult>)
    requires Archivable(p.items) && p.Valid() && |mishaps| == |p.items|
    requires p == ArchivePlan(p.items, p.source, p.dest, ARCHIVE_BUCKET in p.unavailable, p.faults)
    requires ArchiveEffect(p, mishaps, before, mid, results)
    requires r == RestorePlan(Archived(p.items), p.dest, p.source, false, r.unavailable, r.faults) && r.Valid()
    requires Faithful(r, mid, after, restored)
    ensures forall i :: 0 <= i < |p.items| && p.From(i) in before && (restored[i].success || p.From(i) in mid) ==>
              p.From(i) in after && after[p.From(i)] == before[p.From(i)]
    ensures forall i :: 0 <= i < |p.items| && p.From(i) in before && p.From(i) in after ==>
              after[p.From(i)] == before[p.From(i)]
    ensures forall i :: 0 <= i < |p.items| && restored[i].success ==> (restored[i].skipped <==> p.From(i) in mid)
    ensures forall i :: 0 <= i < |p.items| && p.To(i) in mid ==> p.To(i) in after && after[p.To(i)] == mid[p.To(i)]
    ensures r.unavailable == {} && (forall f | f in r.faults :: f == NoFault) ==>
              forall i :: 0 <= i < |p.items| && results[i].copySuccess ==> restored[i].success
  {
    RestoreTargets(p.items, p, r);
    forall i | 0 <= i < |p.items|
      ensures p.From(i) in before && (restored[i].success || p.From(i) in mid) ==>
                p.From(i) in after && after[p.From(i)] == before[p.From(i)]
      ensures p.From(i) in before && p.From(i) in after ==> after[p.From(i)] == before[p.From(i)]
      ensures restored[i].success ==> (restored[i].skipped <==> p.From(i) in mid)
      ensures p.To(i) in mid ==> p.To(i) in after && after[p.To(i)] == mid[p.To(i)]
      ensures r.unavailable == {} && (forall f | f in r.faults :: f == NoFault) && results[i].copySuccess ==> restored[i].success
    {
      assert r.faults[i] in r.faults;
      ItemComesBack(p, mishaps, before, mid, results, r, after, restored, i);
    }
  }
}
