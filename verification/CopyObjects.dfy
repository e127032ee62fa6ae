/** copy_objects: transfers between providers, and restore_from_archive, which is one of them. */
module CopyObjects {
  import opened ArchiveKeys
  import opened ArchiveProtocol
  import opened Basics
  import opened Clouds

  /** The request that fails while one item is copied, if any. */
  datatype Fault =
    | NoFault | HeadRefused | FetchRefused
    | UploadRefused
    | UploadReplyLost  // the provider stores the object, the reply does not arrive

  /** A copy request.  `target` is the rule given by dest_bucket, dest_bucket_fn and dest_key_fn;
      `unavailable` lists the destination buckets that could not be prepared. */
  datatype Plan = Plan(items: seq<Item>, source: string, dest: string, target: Item -> Item, overwrite: bool,
                       unavailable: set<string>, faults: seq<Fault>)
  {
    predicate Valid() {
      |faults| == |items|
    }

    function From(i: nat): Location
      requires i < |items|
    {
      Place(source, items[i])
    }

    function To(i: nat): Location
      requires i < |items|
    {
      Place(dest, target(items[i]))
    }

    /** No two items share a destination, and no destination is the source of an item. */
    ghost predicate Separate() {
      && (forall i, j :: 0 <= i < j < |items| ==> To(i) != To(j))
      && (forall i, j :: 0 <= i < |items| && 0 <= j < |items| ==> To(i) != From(j))
    }
  }

  datatype CopyResult = CopyResult(item: Item, dest: Item, success: bool, skipped: bool)

  predicate Transferred(r: CopyResult) {
    r.success && !r.skipped
  }

  /** What becomes of item `i` when it is alone with the stores. */
  function Fate(p: Plan, store: map<Location, Bytes>, i: nat): CopyResult
    requires p.Valid() && i < |p.items|
  {
    var item, dest := p.items[i], p.target(p.items[i]);
    var failed := CopyResult(item, dest, false, false);
    if dest.bucket in p.unavailable then failed
    else if !p.overwrite && p.faults[i] == HeadRefused then failed
    else if !p.overwrite && p.To(i) in store then CopyResult(item, dest, true, true)
    else if p.faults[i] == FetchRefused || p.From(i) !in store then failed
    else if p.faults[i] == UploadRefused || p.faults[i] == UploadReplyLost then failed
    else CopyResult(item, dest, true, false)
  }

  /** Skipped: asked for, and the destination was there.  Transferred: the source was there, the destination
      was not or did not matter, and no request failed.  Failed: everything else. */
  lemma FateExactly(p: Plan, store: map<Location, Bytes>, i: nat)
    requires p.Valid() && i < |p.items|
    ensures var r := Fate(p, store, i);
            var reachable := p.target(p.items[i]).bucket !in p.unavailable;
            && r.item == p.items[i] && r.dest == p.target(p.items[i])
            && (r.skipped ==> r.success)
            && (r.skipped <==> reachable && !p.overwrite && p.faults[i] != HeadRefused && Place(p.dest, r.dest) in store)
            && (r.success && !r.skipped
                <==> && reachable && Place(p.source, r.item) in store
                     && (p.faults[i] == NoFault || (p.faults[i] == HeadRefused && p.overwrite))
                     && (p.overwrite || Place(p.dest, r.dest) !in store))
  {
  }

  /** The upload of item `i` is applied, whether or not its worker learns of it. */
  predicate Lands(p: Plan, store: map<Location, Bytes>, i: nat)
    requires p.Valid() && i < |p.items|
  {
    && p.target(p.items[i]).bucket !in p.unavailable
    && (p.overwrite || (p.faults[i] != HeadRefused && p.To(i) !in store))
    && p.faults[i] != FetchRefused && p.From(i) in store
    && p.faults[i] != UploadRefused
  }

  /** What a result says about the destination: only these results allow that it was written. */
  predicate MayHaveLanded(p: Plan, i: nat, r: CopyResult)
    requires p.Valid() && i < |p.items|
  {
    Transferred(r) || (!r.success && p.faults[i] == UploadReplyLost)
  }

  // ---------------------------------------------------------------- the contract of a whole request

  /** Whatever the items are: results line up with the request, and only destinations of items
      that were transferred, or whose upload was not answered, differ afterwards; without overwrite
      nothing that existed changes. */
  ghost predicate Harmless(p: Plan, before: map<Location, Bytes>, after: map<Location, Bytes>, results: seq<CopyResult>)
    requires p.Valid()
  {
    && |results| == |p.items|
    && (forall i :: 0 <= i < |results| ==> results[i].item == p.items[i] && results[i].dest == p.target(p.items[i]))
    && (forall l :: l in before ==> l in after)
    && (forall l :: l in after && (l !in before || after[l] != before[l]) ==>
          exists i :: 0 <= i < |results| && l == p.To(i) && MayHaveLanded(p, i, results[i]))
    && (!p.overwrite ==> forall l :: l in before ==> after[l] == before[l])
  }

  /** When destinations are separate, every item fares as if it were alone.  What landed, reported
      or not, has the source's bytes at its destination; no other destination changes. */
  ghost predicate Faithful(p: Plan, before: map<Location, Bytes>, after: map<Location, Bytes>, results: seq<CopyResult>)
    requires p.Valid()
  {
    && Harmless(p, before, after, results)
    && (forall i :: 0 <= i < |results| ==> results[i] == Fate(p, before, i))
    && (forall i :: 0 <= i < |results| && Lands(p, before, i) ==>
          p.To(i) in after && after[p.To(i)] == before[p.From(i)])
    && (forall i :: 0 <= i < |results| && !Lands(p, before, i) ==>
          (p.To(i) in after <==> p.To(i) in before) && (p.To(i) in before ==> after[p.To(i)] == before[p.To(i)]))
  }

  /** A transfer has landed, and what landed was transferred unless its reply was lost. */
  lemma TransferredLands(p: Plan, store: map<Location, Bytes>, i: nat)
    requires p.Valid() && i < |p.items|
    ensures Transferred(Fate(p, store, i)) <==> Lands(p, store, i) && p.faults[i] != UploadReplyLost
    ensures Lands(p, store, i) ==> MayHaveLanded(p, i, Fate(p, store, i))
  {
  }

  /** One worker copies one item. */
  method CopyOne(cloud: Cloud, p: Plan, i: nat) returns (r: CopyResult)
    requires p.Valid() && i < |p.items|
    modifies cloud
    ensures r == Fate(p, old(cloud.objects), i)
    ensures !Lands(p, old(cloud.objects), i) ==> cloud.objects == old(cloud.objects)
    ensures Lands(p, old(cloud.objects), i) ==>
              cloud.objects == old(cloud.objects)[p.To(i) := old(cloud.objects)[p.From(i)]]
  {
    var item, dest := p.items[i], p.target(p.items[i]);
    r := CopyResult(item, dest, false, false);
    if dest.bucket in p.unavailable {
      return;
    }
    var skipped := false;
    if !p.overwrite {
      if p.faults[i] == HeadRefused {
        return;
      }
      skipped := p.To(i) in cloud.objects;
    }
    if skipped {
      r := CopyResult(item, dest, true, true);
    } else {
      if p.faults[i] == FetchRefused || p.From(i) !in cloud.objects {
        return;
      }
      var body := cloud.objects[p.From(i)];
      if p.faults[i] == UploadRefused {
        return;
      }
      cloud.objects := cloud.objects[p.To(i) := body];
      if p.faults[i] == UploadReplyLost {
        return;
      }
      r := CopyResult(item, dest, true, false);
    }
  }

  /** The items of a schedule's prefix fared as if alone, the others are still to come. */
  ghost predicate Progressed(p: Plan, before: map<Location, Bytes>, now: map<Location, Bytes>,
                             results: seq<Option<CopyResult>>, order: seq<nat>)
    requires p.Valid() && |results| == |p.items| && forall k :: 0 <= k < |order| ==> order[k] < |p.items|
  {
    && (forall i: nat :: i < |p.items| && i in order ==> results[i] == Some(Fate(p, before, i)))
    && (forall i: nat :: i < |p.items| && i in order && Lands(p, before, i) ==>
          p.To(i) in now && now[p.To(i)] == before[p.From(i)])
    && (forall i: nat :: i < |p.items| && !(i in order && Lands(p, before, i)) ==>
          (p.To(i) in now <==> p.To(i) in before) && (p.To(i) in before ==> now[p.To(i)] == before[p.To(i)]))
    && (forall i: nat :: i < |p.items| ==> (p.From(i) in now <==> p.From(i) in before))
    && (forall i: nat :: i < |p.items| && p.From(i) in before ==> now[p.From(i)] == before[p.From(i)])
  }

  lemma ProgressExtend(p: Plan, before: map<Location, Bytes>, now: map<Location, Bytes>,
                       results: seq<Option<CopyResult>>, order: seq<nat>, n: nat, r: CopyResult, after: map<Location, Bytes>)
    requires p.Valid() && |results| == |p.items| && p.Separate()
    requires IsSchedule(order, |p.items|) && n < |order|
    requires Progressed(p, before, now, results, order[..n])
    requires r == Fate(p, now, order[n])
    requires !Lands(p, now, order[n]) ==> after == now
    requires Lands(p, now, order[n]) ==> after == now[p.To(order[n]) := now[p.From(order[n])]]
    ensures Progressed(p, before, after, results[order[n] := Some(r)], order[..n + 1])
  {
    var sofar, longer, m := order[..n], order[..n + 1], order[n];
    assert longer == sofar + [m];
    assert m !in sofar;
    assert r == Fate(p, before, m);
    assert Lands(p, now, m) <==> Lands(p, before, m);
  }

  /** What the workers of a schedule's prefix have done to the stores, whatever the items are. */
  ghost predicate HarmlessSoFar(p: Plan, before: map<Location, Bytes>, now: map<Location, Bytes>, slots: seq<Option<CopyResult>>)
    requires p.Valid()
  {
    && |slots| == |p.items|
    && (forall i: nat :: i < |slots| && slots[i].Some? ==>
          slots[i].value.item == p.items[i] && slots[i].value.dest == p.target(p.items[i]))
    && (forall l :: l in before ==> l in now)
    && (forall l :: l in now && (l !in before || now[l] != before[l]) ==> Explained(p, slots, l))
    && (!p.overwrite ==> forall l :: l in before ==> now[l] == before[l])
  }

  /** An upload accounts for the change of a location. */
  ghost predicate Explained(p: Plan, slots: seq<Option<CopyResult>>, l: Location)
    requires p.Valid()
  {
    exists i: nat ::
      i < |slots| && i < |p.items| && l == p.To(i) && slots[i].Some? && MayHaveLanded(p, i, slots[i].value)
  }

  lemma StillExplained(p: Plan, slots: seq<Option<CopyResult>>, m: nat, r: CopyResult, l: Location)
    requires p.Valid() && m < |slots| == |p.items| && slots[m].None?
    requires Explained(p, slots, l) || (MayHaveLanded(p, m, r) && l == p.To(m))
    ensures Explained(p, slots[m := Some(r)], l)
  {
  }

  lemma HarmlessExtend(p: Plan, before: map<Location, Bytes>, now: map<Location, Bytes>, slots: seq<Option<CopyResult>>,
                       m: nat, r: CopyResult, lands: bool, after: map<Location, Bytes>)
    requires p.Valid() && HarmlessSoFar(p, before, now, slots) && m < |p.items| && slots[m].None?
    requires r.item == p.items[m] && r.dest == p.target(p.items[m])
    requires !lands ==> after == now
    requires lands ==> MayHaveLanded(p, m, r) && p.From(m) in now && after == now[p.To(m) := now[p.From(m)]]
    requires lands && !p.overwrite ==> p.To(m) !in now
    ensures HarmlessSoFar(p, before, after, slots[m := Some(r)])
  {
    forall l | l in after && (l !in before || after[l] != before[l])
      ensures Explained(p, slots[m := Some(r)], l)
    {
      StillExplained(p, slots, m, r, l);
    }
  }

  lemma HarmlessAtEnd(p: Plan, before: map<Location, Bytes>, after: map<Location, Bytes>, slots: seq<Option<CopyResult>>,
                      results: seq<CopyResult>)
    requires p.Valid() && HarmlessSoFar(p, before, after, slots)
    requires |results| == |slots| && forall i: nat :: i < |slots| ==> slots[i] == Some(results[i])
    ensures Harmless(p, before, after, results)
  {
  }

  /** The whole pool, in whatever order its workers get to the items. */
  method CopyObjects(cloud: Cloud, p: Plan, order: seq<nat>) returns (results: seq<CopyResult>)
    requires p.Valid() && IsSchedule(order, |p.items|)
    modifies cloud
    ensures Harmless(p, old(cloud.objects), cloud.objects, results)
    ensures p.Separate() ==> Faithful(p, old(cloud.objects), cloud.objects, results)
  {
    ghost var before := cloud.objects;
    var slots: seq<Option<CopyResult>> := seq(|p.items|, _ => None);
    for n := 0 to |order|
      invariant HarmlessSoFar(p, before, cloud.objects, slots)
      invariant forall i: nat :: i < |slots| ==> (slots[i].Some? <==> i in order[..n])
      invariant p.Separate() ==> Progressed(p, before, cloud.objects, slots, order[..n])
    {
      ghost var now := cloud.objects;
      assert order[..n + 1] == order[..n] + [order[n]] && order[n] !in order[..n];
      var r := CopyOne(cloud, p, order[n]);
      TransferredLands(p, now, order[n]);
      HarmlessExtend(p, before, now, slots, order[n], r, Lands(p, now, order[n]), cloud.objects);
      if p.Separate() {
        ProgressExtend(p, before, now, slots, order, n, r, cloud.objects);
      }
      slots := slots[order[n] := Some(r)];
    }
    assert order[..|order|] == order;
    assert forall i: nat :: i < |p.items| ==> i in order;
    results := seq(|p.items|, i requires 0 <= i < |p.items| && slots[i].Some? => slots[i].value);
    HarmlessAtEnd(p, before, cloud.objects, slots, results);
  }

  /** Copying again without overwrite: what the first request transferred, skipped, or stored without
      learning of it is skipped by the second one, unless that one is refused the question, and
      stays as it is. */
  lemma RerunSkips(p: Plan, again: Plan, before: map<Location, Bytes>, mid: map<Location, Bytes>,
                   first: seq<CopyResult>, after: map<Location, Bytes>, second: seq<CopyResult>, i: nat)
    requires p.Valid() && again.Valid() && !p.overwrite && i < |p.items|
    requires again == p.(faults := again.faults, unavailable := again.unavailable)
    requires Faithful(p, before, mid, first) && Faithful(again, mid, after, second)
    requires first[i].success || Lands(p, before, i)
    ensures p.To(i) in mid && p.To(i) in after && after[p.To(i)] == mid[p.To(i)]
    ensures second[i].success && second[i].skipped
            <==> again.faults[i] != HeadRefused && p.target(p.items[i]).bucket !in again.unavailable
  {
    TransferredLands(p, before, i);
    assert again.To(i) == p.To(i);
  }

  /** So repeating a fully successful request skips every item and leaves the stores equal. */
  lemma RerunSkipsEverything(p: Plan, again: Plan, before: map<Location, Bytes>, mid: map<Location, Bytes>,
                             first: seq<CopyResult>, after: map<Location, Bytes>, second: seq<CopyResult>)
    requires p.Valid() && again.Valid() && !p.overwrite
    requires again == p.(faults := again.faults)
    requires Faithful(p, before, mid, first) && (forall r | r in first :: r.success)
    requires forall f | f in again.faults :: f != HeadRefused
    requires Faithful(again, mid, after, second)
    ensures forall r | r in second :: r.success && r.skipped
    ensures after == mid
  {
    forall i | 0 <= i < |second|
      ensures second[i].success && second[i].skipped
    {
      assert first[i] in first && again.faults[i] in again.faults;
      RerunSkips(p, again, before, mid, first, after, second, i);
    }
    forall l | l in after
      ensures l in mid
    {
    }
  }
}
