/** copy_objects with its workers interleaved: every storage request is a step of its own. */
module CopySteps {
  import opened ArchiveKeys
  import opened ArchiveProtocol
  import opened Basics
  import opened Clouds
  import opened CopyObjects

  /** Where a worker stands between two requests. */
  datatype Worker =
    | Ready
    | Absent                    // nothing at the destination, or not asked because of overwrite
    | Fetched(body: Bytes)
    | Over(result: CopyResult)

  datatype Pool = Pool(store: map<Location, Bytes>, workers: seq<Worker>)

  function Failure(p: Plan, i: nat): CopyResult
    requires i < |p.items|
  {
    CopyResult(p.items[i], p.target(p.items[i]), false, false)
  }

  /** The next request of worker `i`; a worker that is done does nothing. */
  function Step(p: Plan, pool: Pool, i: nat): (next: Pool)
    requires p.Valid() && |pool.workers| == |p.items| && i < |p.items|
    ensures |next.workers| == |pool.workers|
  {
    var dest := p.target(p.items[i]);
    match pool.workers[i]
    case Ready =>
      var answer :=
        if dest.bucket in p.unavailable then Over(Failure(p, i))
        else if p.overwrite then Absent
        else if p.faults[i] == HeadRefused then Over(Failure(p, i))
        else if p.To(i) in pool.store then Over(CopyResult(p.items[i], dest, true, true))
        else Absent;
      pool.(workers := pool.workers[i := answer])
    case Absent =>
      var answer :=
        if p.faults[i] == FetchRefused || p.From(i) !in pool.store then Over(Failure(p, i))
        else Fetched(pool.store[p.From(i)]);
      pool.(workers := pool.workers[i := answer])
    case Fetched(body) =>
      if p.faults[i] == UploadRefused then
        pool.(workers := pool.workers[i := Over(Failure(p, i))])
      else
        var result := if p.faults[i] == UploadReplyLost then Failure(p, i) else CopyResult(p.items[i], dest, true, false);
        Pool(pool.store[p.To(i) := body], pool.workers[i := Over(result)])
    case Over(_) => pool
  }

  /** The pool after the steps of an interleaving: whose turn it was, again and again. */
  function Interleave(p: Plan, pool: Pool, turns: seq<nat>): (next: Pool)
    requires p.Valid() && |pool.workers| == |p.items| && forall k :: 0 <= k < |turns| ==> turns[k] < |p.items|
    ensures |next.workers| == |pool.workers|
  {
    if turns == [] then pool
    else Step(p, Interleave(p, pool, turns[..|turns| - 1]), turns[|turns| - 1])
  }

  function Opening(p: Plan, store: map<Location, Bytes>): Pool {
    Pool(store, seq(|p.items|, _ => Ready))
  }

  predicate AllOver(pool: Pool) {
    forall w | w in pool.workers :: w.Over?
  }

  function Outcomes(pool: Pool): (results: seq<CopyResult>)
    requires AllOver(pool)
    ensures |results| == |pool.workers|
    ensures forall i :: 0 <= i < |results| ==> pool.workers[i] == Over(results[i])
  {
    assert forall i :: 0 <= i < |pool.workers| ==> pool.workers[i] in pool.workers;
    seq(|pool.workers|, i requires 0 <= i < |pool.workers| && pool.workers[i].Over? => pool.workers[i].result)
  }

  // ---------------------------------------------------------------- whatever the items are

  /** What is known of a worker when destinations may coincide. */
  ghost predicate Tame(p: Plan, before: map<Location, Bytes>, w: Worker, i: nat)
    requires p.Valid() && i < |p.items|
  {
    match w
    case Ready => true
    case Absent => !p.overwrite ==> p.To(i) !in before
    case Fetched(_) => !p.overwrite ==> p.To(i) !in before
    case Over(r) => r.item == p.items[i] && r.dest == p.target(p.items[i])
  }

  /** An upload of a worker that is over accounts for the change of a location. */
  ghost predicate Accounted(p: Plan, workers: seq<Worker>, l: Location)
    requires p.Valid() && |workers| == |p.items|
  {
    exists i: nat :: i < |workers| && l == p.To(i) && workers[i].Over? && MayHaveLanded(p, i, workers[i].result)
  }

  ghost predicate TamePool(p: Plan, before: map<Location, Bytes>, pool: Pool)
    requires p.Valid()
  {
    && |pool.workers| == |p.items|
    && (forall i: nat :: i < |p.items| ==> Tame(p, before, pool.workers[i], i))
    && (forall l :: l in before ==> l in pool.store)
    && (forall l :: l in pool.store && (l !in before || pool.store[l] != before[l]) ==> Accounted(p, pool.workers, l))
    && (!p.overwrite ==> forall l :: l in before ==> pool.store[l] == before[l])
  }

  lemma StillAccounted(p: Plan, workers: seq<Worker>, m: nat, w: Worker, l: Location)
    requires p.Valid() && |workers| == |p.items| && m < |workers| && !workers[m].Over?
    requires Accounted(p, workers, l) || (l == p.To(m) && w.Over? && MayHaveLanded(p, m, w.result))
    ensures Accounted(p, workers[m := w], l)
  {
  }

  lemma StepStaysTame(p: Plan, before: map<Location, Bytes>, pool: Pool, m: nat)
    requires p.Valid() && TamePool(p, before, pool) && m < |p.items|
    ensures TamePool(p, before, Step(p, pool, m))
  {
    var next := Step(p, pool, m);
    assert Tame(p, before, pool.workers[m], m);
    if !pool.workers[m].Over? {
      assert next.workers == pool.workers[m := next.workers[m]];
      forall l | l in next.store && (l !in before || next.store[l] != before[l])
        ensures Accounted(p, next.workers, l)
      {
        StillAccounted(p, pool.workers, m, next.workers[m], l);
      }
      forall i: nat | i < |p.items|
        ensures Tame(p, before, next.workers[i], i)
      {
        assert Tame(p, before, pool.workers[i], i);
      }
    }
  }

  lemma {:induction false} InterleavingStaysTame(p: Plan, before: map<Location, Bytes>, turns: seq<nat>)
    requires p.Valid() && forall k :: 0 <= k < |turns| ==> turns[k] < |p.items|
    ensures TamePool(p, before, Interleave(p, Opening(p, before), turns))
  {
    if turns != [] {
      var front := turns[..|turns| - 1];
      InterleavingStaysTame(p, before, front);
      StepStaysTame(p, before, Interleave(p, Opening(p, before), front), turns[|turns| - 1]);
    }
  }

  /** However the requests of the workers interleave, and even if items share a destination: only
      destinations of uploads change, and without overwrite nothing that existed does. */
  lemma AnyInterleavingIsHarmless(p: Plan, before: map<Location, Bytes>, turns: seq<nat>)
    requires p.Valid() && forall k :: 0 <= k < |turns| ==> turns[k] < |p.items|
    requires AllOver(Interleave(p, Opening(p, before), turns))
    ensures var pool := Interleave(p, Opening(p, before), turns); Harmless(p, before, pool.store, Outcomes(pool))
  {
    InterleavingStaysTame(p, before, turns);
    var pool := Interleave(p, Opening(p, before), turns);
    forall i | 0 <= i < |p.items|
      ensures Outcomes(pool)[i].item == p.items[i] && Outcomes(pool)[i].dest == p.target(p.items[i])
    {
      assert Tame(p, before, pool.workers[i], i);
    }
    forall l | l in pool.store && (l !in before || pool.store[l] != before[l])
      ensures exists i :: 0 <= i < |p.items| && l == p.To(i) && MayHaveLanded(p, i, Outcomes(pool)[i])
    {
      assert Accounted(p, pool.workers, l);
      var i: nat :| i < |pool.workers| && l == p.To(i) && pool.workers[i].Over? && MayHaveLanded(p, i, pool.workers[i].result);
      assert Outcomes(pool)[i] == pool.workers[i].result;
    }
  }

  // ---------------------------------------------------------------- separate destinations

  ghost predicate Kept(before: map<Location, Bytes>, now: map<Location, Bytes>, l: Location) {
    (l in now <==> l in before) && (l in before ==> now[l] == before[l])
  }

  /** The worker may go on to fetch its object. */
  ghost predicate Clear(p: Plan, before: map<Location, Bytes>, i: nat)
    requires p.Valid() && i < |p.items|
  {
    && p.target(p.items[i]).bucket !in p.unavailable
    && (p.overwrite || (p.faults[i] != HeadRefused && p.To(i) !in before))
  }

  /** With separate destinations a worker is where it would be if it were alone. */
  ghost predicate OnCourse(p: Plan, before: map<Location, Bytes>, now: map<Location, Bytes>, w: Worker, i: nat)
    requires p.Valid() && i < |p.items|
  {
    match w
    case Ready => Kept(before, now, p.To(i))
    case Absent => Kept(before, now, p.To(i)) && Clear(p, before, i)
    case Fetched(body) =>
      && Kept(before, now, p.To(i)) && Clear(p, before, i)
      && p.faults[i] != FetchRefused && p.From(i) in before && body == before[p.From(i)]
    case Over(r) =>
      && r == Fate(p, before, i)
      && (Lands(p, before, i) ==> p.To(i) in now && now[p.To(i)] == before[p.From(i)])
      && (!Lands(p, before, i) ==> Kept(before, now, p.To(i)))
  }

  ghost predicate PoolOnCourse(p: Plan, before: map<Location, Bytes>, pool: Pool)
    requires p.Valid()
  {
    && |pool.workers| == |p.items|
    && (forall i: nat :: i < |p.items| ==> OnCourse(p, before, pool.store, pool.workers[i], i))
    && (forall i: nat :: i < |p.items| ==> Kept(before, pool.store, p.From(i)))
  }

  lemma MoverOnCourse(p: Plan, before: map<Location, Bytes>, pool: Pool, m: nat)
    requires p.Valid() && p.Separate() && PoolOnCourse(p, before, pool) && m < |p.items|
    ensures OnCourse(p, before, Step(p, pool, m).store, Step(p, pool, m).workers[m], m)
  {
    assert OnCourse(p, before, pool.store, pool.workers[m], m);
    assert Kept(before, pool.store, p.From(m));
  }

  lemma OthersOnCourse(p: Plan, before: map<Location, Bytes>, pool: Pool, m: nat, i: nat)
    requires p.Valid() && p.Separate() && PoolOnCourse(p, before, pool) && m < |p.items| && i < |p.items| && i != m
    ensures OnCourse(p, before, Step(p, pool, m).store, Step(p, pool, m).workers[i], i)
  {
    assert OnCourse(p, before, pool.store, pool.workers[i], i);
    assert p.To(i) != p.To(m);
  }

  lemma StepStaysOnCourse(p: Plan, before: map<Location, Bytes>, pool: Pool, m: nat)
    requires p.Valid() && p.Separate() && PoolOnCourse(p, before, pool) && m < |p.items|
    ensures PoolOnCourse(p, before, Step(p, pool, m))
  {
    var next := Step(p, pool, m);
    forall i: nat | i < |p.items|
      ensures OnCourse(p, before, next.store, next.workers[i], i)
      ensures Kept(before, next.store, p.From(i))
    {
      assert Kept(before, pool.store, p.From(i)) && p.To(m) != p.From(i);
      if i == m {
        MoverOnCourse(p, before, pool, m);
      } else {
        OthersOnCourse(p, before, pool, m, i);
      }
    }
  }

  lemma {:induction false} InterleavingStaysOnCourse(p: Plan, before: map<Location, Bytes>, turns: seq<nat>)
    requires p.Valid() && p.Separate() && forall k :: 0 <= k < |turns| ==> turns[k] < |p.items|
    ensures PoolOnCourse(p, before, Interleave(p, Opening(p, before), turns))
  {
    if turns != [] {
      var front := turns[..|turns| - 1];
      InterleavingStaysOnCourse(p, before, front);
      StepStaysOnCourse(p, before, Interleave(p, Opening(p, before), front), turns[|turns| - 1]);
    }
  }

  /** However the requests of the workers interleave: with separate destinations every item fares as
      if it were alone. */
  lemma AnyInterleavingIsFaithful(p: Plan, before: map<Location, Bytes>, turns: seq<nat>)
    requires p.Valid() && p.Separate() && forall k :: 0 <= k < |turns| ==> turns[k] < |p.items|
    requires AllOver(Interleave(p, Opening(p, before), turns))
    ensures var pool := Interleave(p, Opening(p, before), turns); Faithful(p, before, pool.store, Outcomes(pool))
  {
    AnyInterleavingIsHarmless(p, before, turns);
    InterleavingStaysOnCourse(p, before, turns);
    var pool := Interleave(p, Opening(p, before), turns);
    forall i: nat | i < |p.items|
      ensures OnCourse(p, before, pool.store, Over(Outcomes(pool)[i]), i)
    {
      assert OnCourse(p, before, pool.store, pool.workers[i], i);
    }
  }

  lemma FaithfulAtLocation(p: Plan, before: map<Location, Bytes>, after: map<Location, Bytes>, results: seq<CopyResult>,
                           other: map<Location, Bytes>, results': seq<CopyResult>, l: Location)
    requires p.Valid() && Faithful(p, before, after, results) && Faithful(p, before, other, results')
    ensures l in after ==> l in other && other[l] == after[l]
  {
    if i: nat :| i < |p.items| && l == p.To(i) {
      assert Lands(p, before, i) ==> after[l] == before[p.From(i)] == other[l];
    }
  }

  /** What is faithful is determined: every interleaving and every order of whole workers, which is
      what `CopyObjects` runs, ends in the same stores with the same results. */
  lemma FaithfulIsUnique(p: Plan, before: map<Location, Bytes>, after: map<Location, Bytes>, results: seq<CopyResult>,
                         other: map<Location, Bytes>, results': seq<CopyResult>)
    requires p.Valid() && Faithful(p, before, after, results) && Faithful(p, before, other, results')
    ensures after == other && results == results'
  {
    forall l
      ensures l in after <==> l in other
      ensures l in after && l in other ==> after[l] == other[l]
    {
      FaithfulAtLocation(p, before, after, results, other, results', l);
      FaithfulAtLocation(p, before, other, results', after, results, l);
    }
    assert |results| == |results'|;
  }
}
