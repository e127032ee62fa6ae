/** Safety of the archive protocol over every trace: nothing it deletes is ever lost. */
module ArchiveSafety {
  import opened ArchiveKeys
  import opened ArchiveProtocol
  import opened Basics

  // ---------------------------------------------------------------- the invariant

  /** What holds of worker `i` of run `r` between any two steps. */
  ghost predicate WorkerOk(w: World, store: Store, log: seq<Deletion>, r: Run, i: nat)
    requires i < |r.items| == |r.workers|
  {
    var source, archive := SourceOf(r, i), ArchiveOf(r, i);
    match r.workers[i]
    case CopyPending => r.phase != Verifying
    case CopyAbsent => r.phase == Copying && forall d | d in log :: d.archive != archive
    case CopyFetched(_) => r.phase == Copying && forall d | d in log :: d.archive != archive
    case CopyEnded(_, _) => r.phase != Entered
    case SourceHeaded(_) => r.phase == Verifying
    case ArchiveHeaded(_) => r.phase == Verifying
    case SourceRead(m, digest) => r.phase == Verifying && digest == Digest(w, w.named(source, m.etag))
    case Matched(m) =>
      r.phase == Verifying && archive in store && store[archive].content == w.named(source, m.etag)
    case Cleared(m) =>
      r.phase == Verifying && archive in store && store[archive].content == w.named(source, m.etag)
    case Ended(_) => r.phase == Verifying
    case Numbered(_, _) => r.phase == Verifying
    case Finished(_) => r.phase == Verifying
  }

  ghost predicate RunOk(w: World, store: Store, log: seq<Deletion>, r: Run) {
    && |r.workers| == |r.items|
    && (forall item | item in r.items :: SlashFree(item.bucket))
    && (r.phase == Copying || r.phase == Verifying ==> ArgumentsOk(r))
    && (forall i :: 0 <= i < |r.items| ==> WorkerOk(w, store, log, r, i))
  }

  /** The active set is the disjoint union of the keys of the runs inside the guard. */
  ghost predicate GuardOk(active: set<Item>, runs: map<nat, Run>) {
    && (forall a, b :: a in runs && b in runs && a != b ==> Keys(runs[a].items) !! Keys(runs[b].items))
    && (forall id :: id in runs ==> Keys(runs[id].items) <= active)
    && (forall item :: item in active ==> exists id :: id in runs && item in runs[id].items)
  }

  /** Every deletion on record still has its verified content in the archive. */
  ghost predicate LogOk(store: Store, log: seq<Deletion>) {
    forall d | d in log ::
      d.archive.bucket == ARCHIVE_BUCKET && d.archive in store && store[d.archive].content == d.verified
  }

  ghost predicate Named(w: World, store: Store) {
    forall l | l in store :: store[l].content == w.named(l, store[l].etag)
  }

  ghost predicate Inv(w: World, s: State) {
    && GuardOk(s.active, s.runs)
    && Named(w, s.store)
    && LogOk(s.store, s.log)
    && (forall id :: id in s.runs ==> RunOk(w, s.store, s.log, s.runs[id]))
  }

  // ---------------------------------------------------------------- frames

  ghost predicate SameAt(a: Store, b: Store, l: Location) {
    (l in a <==> l in b) && (l in a && l in b ==> a[l] == b[l])
  }

  /** A run in its verification phase depends on its archive entries, a run before that on no
      deletion having relied on them; nothing else in the stores matters to it. */
  lemma RunFrame(w: World, store: Store, log: seq<Deletion>, store': Store, log': seq<Deletion>, r: Run)
    requires RunOk(w, store, log, r)
    requires r.phase == Verifying ==> forall i :: 0 <= i < |r.items| ==> SameAt(store, store', ArchiveOf(r, i))
    requires r.phase != Verifying ==>
               forall i, d :: 0 <= i < |r.items| && d in log' ==> d in log || d.archive != ArchiveOf(r, i)
    ensures RunOk(w, store', log', r)
  {
    forall i | 0 <= i < |r.items|
      ensures WorkerOk(w, store', log', r, i)
    {
      assert WorkerOk(w, store, log, r, i);
    }
  }

  /** Runs that hold different keys file their objects under different archive entries. */
  lemma DifferentArchives(a: Run, i: nat, b: Run, j: nat)
    requires i < |a.items| && j < |b.items|
    requires SlashFree(a.items[i].bucket) && SlashFree(b.items[j].bucket)
    requires a.items[i] != b.items[j]
    ensures ArchiveOf(a, i) != ArchiveOf(b, j)
  {
    if ArchiveDestKey(a.items[i]) == ArchiveDestKey(b.items[j]) {
      ArchiveKeyInjective(a.items[i], b.items[j]);
    }
  }

  lemma OtherRunsApart(w: World, s: State, id: nat, i: nat)
    requires Inv(w, s) && At(s, id, i)
    ensures forall other, j :: other in s.runs && other != id && 0 <= j < |s.runs[other].items| ==>
              ArchiveOf(s.runs[other], j) != ArchiveOf(s.runs[id], i)
  {
    var r := s.runs[id];
    assert RunOk(w, s.store, s.log, r);
    assert r.items[i] in Keys(r.items);
    forall other, j | other in s.runs && other != id && 0 <= j < |s.runs[other].items|
      ensures ArchiveOf(s.runs[other], j) != ArchiveOf(r, i)
    {
      var q := s.runs[other];
      assert RunOk(w, s.store, s.log, q);
      assert q.items[j] in Keys(q.items);
      DifferentArchives(q, j, r, i);
    }
  }

  /** Replacing one run by a later state of itself leaves the guard as it is. */
  lemma GuardKept(active: set<Item>, runs: map<nat, Run>, id: nat, r: Run)
    requires GuardOk(active, runs) && id in runs && r.items == runs[id].items
    ensures GuardOk(active, runs[id := r])
  {
    var runs' := runs[id := r];
    forall item | item in active
      ensures exists k :: k in runs' && item in runs'[k].items
    {
      var k :| k in runs && item in runs[k].items;
      assert k in runs' && item in runs'[k].items;
    }
  }

  /** A step of worker `i` that only touches its own counter. */
  lemma LocalStep(w: World, s: State, id: nat, i: nat, r': Run)
    requires Inv(w, s) && At(s, id, i)
    requires r'.(workers := s.runs[id].workers, done := s.runs[id].done, reports := s.runs[id].reports) == s.runs[id]
    requires |r'.workers| == |r'.items| && r'.workers == s.runs[id].workers[i := r'.workers[i]]
    requires WorkerOk(w, s.store, s.log, r', i)
    ensures Inv(w, s.(runs := s.runs[id := r']))
  {
    var r := s.runs[id];
    assert RunOk(w, s.store, s.log, r);
    forall j | 0 <= j < |r'.items|
      ensures WorkerOk(w, s.store, s.log, r', j)
    {
      assert WorkerOk(w, s.store, s.log, r, j);
    }
    GuardKept(s.active, s.runs, id, r');
  }

  /** The worker an event belongs to. */
  predicate Moves(e: Event, id: nat, i: nat) {
    match e
    case CopyHead(k, j) => k == id && j == i
    case CopyFetch(k, j) => k == id && j == i
    case CopyPut(k, j, _, _) => k == id && j == i
    case CopyFail(k, j) => k == id && j == i
    case ReportCopyFailure(k, j) => k == id && j == i
    case HeadSource(k, j) => k == id && j == i
    case HeadArchive(k, j) => k == id && j == i
    case ReadSource(k, j) => k == id && j == i
    case ReadArchive(k, j) => k == id && j == i
    case Recheck(k, j) => k == id && j == i
    case VerifyFail(k, j) => k == id && j == i
    case Delete(k, j, _, _) => k == id && j == i
    case TakeNumber(k, j) => k == id && j == i
    case ReportItem(k, j) => k == id && j == i
    case _ => false
  }

  /** A worker that exists after a step and is not the one that moved was there before it. */
  lemma OthersUntouched(w: World, s: State, e: Event, id: nat, i: nat)
    requires Enabled(s, e) && At(Do(w, s, e), id, i) && !Moves(e, id, i) && !(e.Start? && e.id == id)
    ensures At(s, id, i) && PcAt(Do(w, s, e), id, i) == PcAt(s, id, i)
    ensures var r, r' := s.runs[id], Do(w, s, e).runs[id];
            r'.items == r.items && SourceOf(r', i) == SourceOf(r, i) && ArchiveOf(r', i) == ArchiveOf(r, i)
  {
  }

  // ---------------------------------------------------------------- one step keeps the invariant

  lemma StartKeeps(w: World, s: State, e: Event)
    requires Inv(w, s) && e.Start? && Enabled(s, e) && Lawful(w, s, e)
    ensures Inv(w, Do(w, s, e))
  {
    var s' := Do(w, s, e);
    var r := s'.runs[e.id];
    forall item | item in s'.active
      ensures exists id :: id in s'.runs && item in s'.runs[id].items
    {
      if item in s.active {
        var id :| id in s.runs && item in s.runs[id].items;
        assert id in s'.runs && item in s'.runs[id].items;
      } else {
        assert e.id in s'.runs && item in s'.runs[e.id].items;
      }
    }
    assert RunOk(w, s'.store, s'.log, r);
  }

  lemma PhaseKeeps(w: World, s: State, e: Event)
    requires Inv(w, s) && (e.CheckArguments? || e.Abort? || e.Barrier?) && Enabled(s, e)
    ensures Inv(w, Do(w, s, e))
  {
    var s' := Do(w, s, e);
    var r, r' := s.runs[e.id], s'.runs[e.id];
    assert RunOk(w, s.store, s.log, r);
    forall j | 0 <= j < |r'.items|
      ensures WorkerOk(w, s'.store, s'.log, r', j)
    {
      assert WorkerOk(w, s.store, s.log, r, j);
      assert r.workers[j] in r.workers;
    }
    GuardKept(s.active, s.runs, e.id, r');
  }

  lemma CopyPutKeeps(w: World, s: State, e: Event)
    requires Inv(w, s) && e.CopyPut? && Enabled(s, e) && Lawful(w, s, e)
    ensures Inv(w, Do(w, s, e))
  {
    var s' := Do(w, s, e);
    var r, r' := s.runs[e.id], s'.runs[e.id];
    var archive := ArchiveOf(r, e.index);
    assert RunOk(w, s.store, s.log, r);
    assert WorkerOk(w, s.store, s.log, r, e.index);
    forall j | 0 <= j < |r'.items|
      ensures WorkerOk(w, s'.store, s'.log, r', j)
    {
      assert WorkerOk(w, s.store, s.log, r, j);
    }
    OtherRunsApart(w, s, e.id, e.index);
    forall other | other in s'.runs && other != e.id
      ensures RunOk(w, s'.store, s'.log, s'.runs[other])
    {
      RunFrame(w, s.store, s.log, s'.store, s'.log, s.runs[other]);
    }
    GuardKept(s.active, s.runs, e.id, r');
  }

  /** A source lies outside the archive bucket, so removing it touches no archive entry. */
  lemma SourceOutsideArchive(w: World, s: State, id: nat, i: nat)
    requires Inv(w, s) && At(s, id, i) && s.runs[id].phase == Verifying
    ensures SourceOf(s.runs[id], i).bucket != ARCHIVE_BUCKET == ArchiveOf(s.runs[id], i).bucket
  {
  }

  /** A delete leaves the invariant of its own run ... */
  lemma DeleteKeepsOwnRun(w: World, s: State, e: Event)
    requires Inv(w, s) && e.Delete? && Enabled(s, e)
    ensures RunOk(w, Do(w, s, e).store, Do(w, s, e).log, Do(w, s, e).runs[e.id])
  {
    var s' := Do(w, s, e);
    var r, r' := s.runs[e.id], s'.runs[e.id];
    assert RunOk(w, s.store, s.log, r);
    assert WorkerOk(w, s.store, s.log, r, e.index);
    forall j | 0 <= j < |r'.items|
      ensures WorkerOk(w, s'.store, s'.log, r', j)
    {
      assert WorkerOk(w, s.store, s.log, r, j);
      SourceOutsideArchive(w, s, e.id, j);
    }
  }

  /** ... and that of every other run ... */
  lemma DeleteKeepsOtherRun(w: World, s: State, e: Event, other: nat)
    requires Inv(w, s) && e.Delete? && Enabled(s, e) && other in s.runs && other != e.id
    ensures RunOk(w, Do(w, s, e).store, Do(w, s, e).log, s.runs[other])
  {
    var s' := Do(w, s, e);
    var q := s.runs[other];
    assert RunOk(w, s.store, s.log, s.runs[e.id]) && WorkerOk(w, s.store, s.log, s.runs[e.id], e.index);
    assert RunOk(w, s.store, s.log, q);
    SourceOutsideArchive(w, s, e.id, e.index);
    OtherRunsApart(w, s, e.id, e.index);
    if q.phase == Verifying {
      forall j | 0 <= j < |q.items|
        ensures SameAt(s.store, s'.store, ArchiveOf(q, j))
      {
        SourceOutsideArchive(w, s, other, j);
      }
    }
    RunFrame(w, s.store, s.log, s'.store, s'.log, q);
  }

  /** ... and finds the verified content in the archive, where it stays. */
  lemma DeleteKeepsLog(w: World, s: State, e: Event)
    requires Inv(w, s) && e.Delete? && Enabled(s, e)
    ensures LogOk(Do(w, s, e).store, Do(w, s, e).log) && Named(w, Do(w, s, e).store)
  {
    assert RunOk(w, s.store, s.log, s.runs[e.id]);
    assert WorkerOk(w, s.store, s.log, s.runs[e.id], e.index);
    SourceOutsideArchive(w, s, e.id, e.index);
  }

  lemma DeleteKeeps(w: World, s: State, e: Event)
    requires Inv(w, s) && e.Delete? && Enabled(s, e)
    ensures Inv(w, Do(w, s, e))
  {
    var s' := Do(w, s, e);
    DeleteKeepsOwnRun(w, s, e);
    DeleteKeepsLog(w, s, e);
    forall other | other in s'.runs && other != e.id
      ensures RunOk(w, s'.store, s'.log, s'.runs[other])
    {
      DeleteKeepsOtherRun(w, s, e, other);
    }
    GuardKept(s.active, s.runs, e.id, s'.runs[e.id]);
  }

  lemma FinishKeeps(w: World, s: State, e: Event)
    requires Inv(w, s) && e.Finish? && Enabled(s, e)
    ensures Inv(w, Do(w, s, e))
  {
    var s' := Do(w, s, e);
    var gone := Keys(s.runs[e.id].items);
    forall item | item in s'.active
      ensures exists id :: id in s'.runs && item in s'.runs[id].items
    {
      var id :| id in s.runs && item in s.runs[id].items;
      assert item in Keys(s.runs[id].items);
      assert id in s'.runs && item in s'.runs[id].items;
    }
    forall id | id in s'.runs
      ensures Keys(s'.runs[id].items) <= s'.active
    {
      assert Keys(s.runs[id].items) !! gone;
    }
  }

  lemma EnvironmentKeeps(w: World, s: State, e: Event)
    requires Inv(w, s) && (e.Write? || e.Remove?) && Enabled(s, e) && Lawful(w, s, e)
    ensures Inv(w, Do(w, s, e))
  {
    var s' := Do(w, s, e);
    forall id | id in s'.runs
      ensures RunOk(w, s'.store, s'.log, s'.runs[id])
    {
      var r := s.runs[id];
      assert RunOk(w, s.store, s.log, r);
      if r.phase == Verifying {
        forall j | 0 <= j < |r.items|
          ensures SameAt(s.store, s'.store, ArchiveOf(r, j))
        {
          SourceOutsideArchive(w, s, id, j);
        }
      }
      RunFrame(w, s.store, s.log, s'.store, s'.log, r);
    }
  }

  /** Every other step changes one worker only. */
  lemma CopyWorkerKeeps(w: World, s: State, e: Event)
    requires Trusted(w) && Inv(w, s) && Enabled(s, e)
    requires e.CopyHead? || e.CopyFetch? || e.CopyFail? || e.ReportCopyFailure?
    ensures Inv(w, Do(w, s, e))
  {
    var s' := Do(w, s, e);
    var r := s.runs[e.id];
    assert RunOk(w, s.store, s.log, r);
    assert WorkerOk(w, s.store, s.log, r, e.index);
    LocalStep(w, s, e.id, e.index, s'.runs[e.id]);
    assert s' == s.(runs := s.runs[e.id := s'.runs[e.id]]);
  }

  lemma HeadWorkerKeeps(w: World, s: State, e: Event)
    requires Trusted(w) && Inv(w, s) && Enabled(s, e)
    requires e.HeadSource? || e.HeadArchive? || e.VerifyFail?
    ensures Inv(w, Do(w, s, e))
  {
    var s' := Do(w, s, e);
    var r := s.runs[e.id];
    assert RunOk(w, s.store, s.log, r);
    assert WorkerOk(w, s.store, s.log, r, e.index);
    LocalStep(w, s, e.id, e.index, s'.runs[e.id]);
    assert s' == s.(runs := s.runs[e.id := s'.runs[e.id]]);
  }

  lemma ReadWorkerKeeps(w: World, s: State, e: Event)
    requires Trusted(w) && Inv(w, s) && Enabled(s, e)
    requires e.ReadSource? || e.ReadArchive?
    ensures Inv(w, Do(w, s, e))
  {
    var s' := Do(w, s, e);
    var r := s.runs[e.id];
    assert RunOk(w, s.store, s.log, r);
    assert WorkerOk(w, s.store, s.log, r, e.index);
    LocalStep(w, s, e.id, e.index, s'.runs[e.id]);
    assert s' == s.(runs := s.runs[e.id := s'.runs[e.id]]);
  }

  lemma RecheckWorkerKeeps(w: World, s: State, e: Event)
    requires Trusted(w) && Inv(w, s) && Enabled(s, e)
    requires e.Recheck?
    ensures Inv(w, Do(w, s, e))
  {
    var s' := Do(w, s, e);
    var r := s.runs[e.id];
    assert RunOk(w, s.store, s.log, r);
    assert WorkerOk(w, s.store, s.log, r, e.index);
    LocalStep(w, s, e.id, e.index, s'.runs[e.id]);
    assert s' == s.(runs := s.runs[e.id := s'.runs[e.id]]);
  }

  lemma ReportKeeps(w: World, s: State, e: Event)
    requires Inv(w, s) && Enabled(s, e)
    requires e.TakeNumber? || e.ReportItem?
    ensures Inv(w, Do(w, s, e))
  {
    var s' := Do(w, s, e);
    var r := s.runs[e.id];
    assert RunOk(w, s.store, s.log, r);
    assert WorkerOk(w, s.store, s.log, r, e.index);
    LocalStep(w, s, e.id, e.index, s'.runs[e.id]);
    assert s' == s.(runs := s.runs[e.id := s'.runs[e.id]]);
  }

  lemma WorkerKeeps(w: World, s: State, e: Event)
    requires Trusted(w) && Inv(w, s) && Enabled(s, e)
    requires e.CopyHead? || e.CopyFetch? || e.CopyFail? || e.ReportCopyFailure? || e.HeadSource? || e.HeadArchive?
             || e.ReadSource? || e.ReadArchive? || e.Recheck? || e.VerifyFail? || e.TakeNumber? || e.ReportItem?
    ensures Inv(w, Do(w, s, e))
  {
    if e.CopyHead? || e.CopyFetch? || e.CopyFail? || e.ReportCopyFailure? {
      CopyWorkerKeeps(w, s, e);
    } else if e.ReadSource? || e.ReadArchive? {
      ReadWorkerKeeps(w, s, e);
    } else if e.Recheck? {
      RecheckWorkerKeeps(w, s, e);
    } else if e.TakeNumber? || e.ReportItem? {
      ReportKeeps(w, s, e);
    } else {
      HeadWorkerKeeps(w, s, e);
    }
  }

  /** A step of a run as a whole. */
  lemma RunStepKeeps(w: World, s: State, e: Event)
    requires Trusted(w) && Inv(w, s) && Enabled(s, e) && Lawful(w, s, e)
    requires e.Start? || e.CheckArguments? || e.Abort? || e.Barrier? || e.Finish?
    ensures Inv(w, Do(w, s, e))
  {
    match e
    case Start(_, _, _, _, _) => StartKeeps(w, s, e);
    case Finish(_) => FinishKeeps(w, s, e);
    case _ => PhaseKeeps(w, s, e);
  }

  lemma CrashKeeps(w: World, s: State)
    requires Inv(w, s)
    ensures Inv(w, Do(w, s, Crash))
  {
  }

  /** A step that writes to the stores, or a crash. */
  lemma StoreStepKeeps(w: World, s: State, e: Event)
    requires Trusted(w) && Inv(w, s) && Enabled(s, e) && Lawful(w, s, e)
    requires e.CopyPut? || e.Delete? || e.Crash? || e.Write? || e.Remove?
    ensures Inv(w, Do(w, s, e))
  {
    match e
    case CopyPut(_, _, _, _) => CopyPutKeeps(w, s, e);
    case Delete(_, _, _, _) => DeleteKeeps(w, s, e);
    case Crash => CrashKeeps(w, s);
    case _ => EnvironmentKeeps(w, s, e);
  }

  lemma StepKeepsInv(w: World, s: State, e: Event)
    requires Trusted(w) && Inv(w, s) && Enabled(s, e) && Lawful(w, s, e)
    ensures Inv(w, Do(w, s, e))
  {
    if e.CopyPut? || e.Delete? || e.Crash? || e.Write? || e.Remove? {
      StoreStepKeeps(w, s, e);
    } else if e.Start? || e.CheckArguments? || e.Abort? || e.Barrier? || e.Finish? {
      RunStepKeeps(w, s, e);
    } else {
      WorkerKeeps(w, s, e);
    }
  }

  lemma {:induction false} TraceKeepsInv(w: World, s0: State, trace: seq<Event>)
    requires Trusted(w) && Initial(w, s0) && Execute(w, s0, trace).Some?
    ensures Inv(w, Execute(w, s0, trace).value)
  {
    if trace != [] {
      var before := Execute(w, s0, trace[..|trace| - 1]).value;
      TraceKeepsInv(w, s0, trace[..|trace| - 1]);
      StepKeepsInv(w, before, trace[|trace| - 1]);
    }
  }

  // ---------------------------------------------------------------- what the invariant gives

  /** Over every interleaving, even with writes inside the open windows: each deletion on record
      still has, in the archive and now, exactly the content that was verified for it. */
  lemma VerifiedContentKept(w: World, s0: State, trace: seq<Event>)
    requires Trusted(w) && Initial(w, s0) && Execute(w, s0, trace).Some?
    ensures var s := Execute(w, s0, trace).value;
            forall d | d in s.log :: d.archive in s.store && s.store[d.archive].content == d.verified
  {
    TraceKeepsInv(w, s0, trace);
  }

  /** Mutual exclusion: runs in progress never share an item, and the active set holds their
      items and nothing else, so a finishing run releases exactly its own. */
  lemma RunsNeverShareItems(w: World, s0: State, trace: seq<Event>)
    requires Trusted(w) && Initial(w, s0) && Execute(w, s0, trace).Some?
    ensures var s := Execute(w, s0, trace).value;
            && (forall a, b, item :: a in s.runs && b in s.runs && item in s.runs[a].items && item in s.runs[b].items ==> a == b)
            && (forall item :: item in s.active <==> exists id :: id in s.runs && item in s.runs[id].items)
  {
    TraceKeepsInv(w, s0, trace);
    var s := Execute(w, s0, trace).value;
    forall a, b, item | a in s.runs && b in s.runs && item in s.runs[a].items && item in s.runs[b].items
      ensures a == b
    {
      assert item in Keys(s.runs[a].items) && item in Keys(s.runs[b].items);
    }
    forall id, item | id in s.runs && item in s.runs[id].items
      ensures item in s.active
    {
      assert item in Keys(s.runs[id].items);
    }
  }

  lemma VerifyingStays(w: World, s: State, e: Event, id: nat, i: nat)
    requires Enabled(s, e) && At(s, id, i) && s.runs[id].phase == Verifying && id in Do(w, s, e).runs
    ensures var s' := Do(w, s, e);
            At(s', id, i) && s'.runs[id].phase == Verifying && ArchiveOf(s'.runs[id], i) == ArchiveOf(s.runs[id], i)
  {
  }

  lemma StoreKeepsArchive(w: World, s: State, e: Event, id: nat, i: nat)
    requires Trusted(w) && Inv(w, s) && Enabled(s, e) && Lawful(w, s, e)
    requires At(s, id, i) && s.runs[id].phase == Verifying
    ensures SameAt(s.store, Do(w, s, e).store, ArchiveOf(s.runs[id], i))
  {
    assert RunOk(w, s.store, s.log, s.runs[id]);
    SourceOutsideArchive(w, s, id, i);
    match e
    case CopyPut(other, k, _, _) =>
      assert RunOk(w, s.store, s.log, s.runs[other]);
      assert WorkerOk(w, s.store, s.log, s.runs[other], k);
      OtherRunsApart(w, s, other, k);
    case Delete(other, k, _, _) =>
      assert RunOk(w, s.store, s.log, s.runs[other]);
      assert WorkerOk(w, s.store, s.log, s.runs[other], k);
      SourceOutsideArchive(w, s, other, k);
    case _ =>
  }

  /** A step by anyone leaves the archive entries of a verifying run as they are. */
  lemma StepKeepsArchive(w: World, s: State, e: Event, id: nat, i: nat)
    requires Trusted(w) && Inv(w, s) && Enabled(s, e) && Lawful(w, s, e)
    requires At(s, id, i) && s.runs[id].phase == Verifying
    requires id in Do(w, s, e).runs
    ensures var s' := Do(w, s, e);
            && At(s', id, i) && s'.runs[id].phase == Verifying && ArchiveOf(s'.runs[id], i) == ArchiveOf(s.runs[id], i)
            && SameAt(s.store, s'.store, ArchiveOf(s.runs[id], i))
  {
    VerifyingStays(w, s, e, id, i);
    StoreKeepsArchive(w, s, e, id, i);
  }

  /** Archive stability: from the barrier to the end of a run, whatever the other runs and the
      other users do, the archive entry of each of its items stays what it was. */
  lemma {:induction false} ArchiveStable(w: World, s0: State, trace: seq<Event>, n: nat, id: nat, i: nat)
    requires Trusted(w) && Initial(w, s0) && n <= |trace|
    requires forall m :: n <= m <= |trace| ==>
               Execute(w, s0, trace[..m]).Some? && id in Execute(w, s0, trace[..m]).value.runs
    requires var s := Execute(w, s0, trace[..n]).value; At(s, id, i) && s.runs[id].phase == Verifying
    ensures Execute(w, s0, trace).Some?
    ensures var s, s' := Execute(w, s0, trace[..n]).value, Execute(w, s0, trace).value;
            && At(s', id, i) && s'.runs[id].phase == Verifying && ArchiveOf(s'.runs[id], i) == ArchiveOf(s.runs[id], i)
            && SameAt(s.store, s'.store, ArchiveOf(s.runs[id], i))
    decreases |trace|
  {
    assert trace[..|trace|] == trace;
    if n < |trace| {
      var front := trace[..|trace| - 1];
      forall m | n <= m <= |front|
        ensures front[..m] == trace[..m]
      {
      }
      ArchiveStable(w, s0, front, n, id, i);
      TraceKeepsInv(w, s0, front);
      StepKeepsArchive(w, Execute(w, s0, front).value, trace[|trace| - 1], id, i);
    }
  }

  // ---------------------------------------------------------------- nothing is lost

  /** A cleared worker's source is absent or still the version it verified. */
  ghost predicate ClearedOk(s: State, id: nat, i: nat)
    requires At(s, id, i)
  {
    var source := SourceOf(s.runs[id], i);
    PcAt(s, id, i).Cleared? && source in s.store ==> s.store[source].etag == PcAt(s, id, i).meta.etag
  }

  ghost predicate WindowOk(s: State) {
    && (forall id, i :: At(s, id, i) ==> ClearedOk(s, id, i))
    && (forall d | d in s.log :: d.removed == d.verified)
  }

  lemma UntouchedStaysCleared(w: World, s: State, e: Event, id: nat, i: nat)
    requires Inv(w, s) && WindowOk(s) && Enabled(s, e) && Lawful(w, s, e) && Quiet(s, e)
    requires At(Do(w, s, e), id, i) && !Moves(e, id, i) && !(e.Start? && e.id == id)
    ensures ClearedOk(Do(w, s, e), id, i)
  {
    OthersUntouched(w, s, e, id, i);
    assert ClearedOk(s, id, i);
    assert RunOk(w, s.store, s.log, s.runs[id]) && WorkerOk(w, s.store, s.log, s.runs[id], i);
    if PcAt(s, id, i).Cleared? {
      SourceOutsideArchive(w, s, id, i);
      if e.CopyPut? {
        assert RunOk(w, s.store, s.log, s.runs[e.id]) && WorkerOk(w, s.store, s.log, s.runs[e.id], e.index);
        assert ArchiveOf(s.runs[e.id], e.index).bucket == ARCHIVE_BUCKET;
      }
    }
  }

  /** What a delete puts on record is the content it removes, as verified. */
  lemma DeleteRecordsVerified(w: World, s: State, e: Event)
    requires Inv(w, s) && WindowOk(s) && e.Delete? && Enabled(s, e)
    ensures forall d | d in Do(w, s, e).log :: d.removed == d.verified
  {
  }

  /** A worker that moves is cleared only by its second HeadObject, which finds what it verified. */
  lemma MoverIsCleared(w: World, s: State, e: Event, id: nat, i: nat)
    requires Enabled(s, e) && Moves(e, id, i) && At(Do(w, s, e), id, i)
    ensures ClearedOk(Do(w, s, e), id, i)
  {
  }

  lemma OnlyDeletesRecord(w: World, s: State, e: Event)
    requires Enabled(s, e) && !e.Delete?
    ensures Do(w, s, e).log == s.log
  {
  }

  lemma StepKeepsWindow(w: World, s: State, e: Event)
    requires Trusted(w) && Inv(w, s) && WindowOk(s) && Enabled(s, e) && Lawful(w, s, e) && Quiet(s, e)
    ensures WindowOk(Do(w, s, e))
  {
    var s' := Do(w, s, e);
    forall id, i | At(s', id, i)
      ensures ClearedOk(s', id, i)
    {
      if Moves(e, id, i) {
        MoverIsCleared(w, s, e, id, i);
      } else if !(e.Start? && e.id == id) {
        UntouchedStaysCleared(w, s, e, id, i);
      }
    }
    if e.Delete? {
      DeleteRecordsVerified(w, s, e);
    } else {
      OnlyDeletesRecord(w, s, e);
    }
  }

  lemma {:induction false} TraceKeepsWindow(w: World, s0: State, trace: seq<Event>)
    requires Trusted(w) && Initial(w, s0) && Execute(w, s0, trace).Some? && AllQuiet(w, s0, trace)
    ensures WindowOk(Execute(w, s0, trace).value)
  {
    if trace != [] {
      var front := trace[..|trace| - 1];
      TraceKeepsWindow(w, s0, front);
      TraceKeepsInv(w, s0, front);
      StepKeepsWindow(w, Execute(w, s0, front).value, trace[|trace| - 1]);
    }
  }

  /** No loss: over every interleaving of runs and workers, with failures and crashes anywhere and
      other users writing anywhere outside the windows, whatever the pipeline has deleted is in
      the archive, byte for byte, from then on. */
  lemma NothingLost(w: World, s0: State, trace: seq<Event>)
    requires Trusted(w) && Initial(w, s0) && Execute(w, s0, trace).Some? && AllQuiet(w, s0, trace)
    ensures var s := Execute(w, s0, trace).value;
            forall d | d in s.log :: d.archive in s.store && s.store[d.archive].content == d.removed
  {
    TraceKeepsInv(w, s0, trace);
    TraceKeepsWindow(w, s0, trace);
  }

  /** At a location, different ETags name different contents. */
  ghost predicate EtagsSeparate(w: World, l: Location) {
    forall a, b :: w.named(l, a) == w.named(l, b) ==> a == b
  }

  /** Without the window assumption a delete is exact about what it risks.  At any reachable
      moment, the delete a cleared worker is about to send finds the stored content in the archive
      if the object at the source still has the ETag that worker verified; where different ETags
      mean different contents, it loses content if and only if the ETag has changed. */
  lemma DeleteLosesExactly(w: World, s0: State, trace: seq<Event>, e: Event)
    requires Trusted(w) && Initial(w, s0) && Execute(w, s0, trace).Some?
    requires var s := Execute(w, s0, trace).value;
             e.Delete? && e.applied && Enabled(s, e) && SourceOf(s.runs[e.id], e.index) in s.store
    ensures var s := Execute(w, s0, trace).value;
            var s' := Do(w, s, e);
            var source, archive := SourceOf(s.runs[e.id], e.index), ArchiveOf(s.runs[e.id], e.index);
            var same := s.store[source].etag == PcAt(s, e.id, e.index).meta.etag;
            && source !in s'.store
            && archive in s'.store
            && (same ==> s'.store[archive].content == s.store[source].content)
            && (EtagsSeparate(w, source) ==> (s'.store[archive].content == s.store[source].content <==> same))
  {
    var s := Execute(w, s0, trace).value;
    TraceKeepsInv(w, s0, trace);
    assert RunOk(w, s.store, s.log, s.runs[e.id]);
    assert WorkerOk(w, s.store, s.log, s.runs[e.id], e.index);
    SourceOutsideArchive(w, s, e.id, e.index);
  }

  // ---------------------------------------------------------------- never overwriting

  /** No other entry of the request names the same object. */
  predicate Unrepeated(items: seq<Item>, i: nat)
    requires i < |items|
  {
    forall j :: 0 <= j < |items| && j != i ==> items[j] != items[i]
  }

  /** A worker about to copy an unrepeated item still finds no entry at its destination. */
  ghost predicate VacantOk(s: State, id: nat, i: nat)
    requires At(s, id, i)
  {
    Unrepeated(s.runs[id].items, i) && (PcAt(s, id, i) == CopyAbsent || PcAt(s, id, i).CopyFetched?) ==>
      ArchiveOf(s.runs[id], i) !in s.store
  }

  ghost predicate FreshOk(s: State) {
    forall id, i :: At(s, id, i) ==> VacantOk(s, id, i)
  }

  lemma UntouchedStaysVacant(w: World, s: State, e: Event, id: nat, i: nat)
    requires Trusted(w) && Inv(w, s) && FreshOk(s) && Enabled(s, e) && Lawful(w, s, e)
    requires At(Do(w, s, e), id, i) && !Moves(e, id, i) && !(e.Start? && e.id == id)
    ensures VacantOk(Do(w, s, e), id, i)
  {
    OthersUntouched(w, s, e, id, i);
    var r := s.runs[id];
    assert RunOk(w, s.store, s.log, r) && WorkerOk(w, s.store, s.log, r, i) && VacantOk(s, id, i);
    if e.CopyPut? {
      if e.id != id {
        OtherRunsApart(w, s, e.id, e.index);
      } else if Unrepeated(r.items, i) {
        DifferentArchives(r, i, r, e.index);
      }
    }
  }

  lemma MoverStaysVacant(w: World, s: State, e: Event, id: nat, i: nat)
    requires Enabled(s, e) && Moves(e, id, i) && VacantOk(s, id, i) && At(Do(w, s, e), id, i)
    ensures VacantOk(Do(w, s, e), id, i)
  {
  }

  lemma StepKeepsFresh(w: World, s: State, e: Event)
    requires Trusted(w) && Inv(w, s) && FreshOk(s) && Enabled(s, e) && Lawful(w, s, e)
    ensures FreshOk(Do(w, s, e))
  {
    var s' := Do(w, s, e);
    forall id, i | At(s', id, i)
      ensures VacantOk(s', id, i)
    {
      if Moves(e, id, i) {
        assert VacantOk(s, id, i);
        MoverStaysVacant(w, s, e, id, i);
      } else if !(e.Start? && e.id == id) {
        UntouchedStaysVacant(w, s, e, id, i);
      }
    }
  }

  lemma {:induction false} TraceKeepsFresh(w: World, s0: State, trace: seq<Event>)
    requires Trusted(w) && Initial(w, s0) && Execute(w, s0, trace).Some?
    ensures FreshOk(Execute(w, s0, trace).value)
  {
    if trace != [] {
      var front := trace[..|trace| - 1];
      TraceKeepsFresh(w, s0, front);
      TraceKeepsInv(w, s0, front);
      StepKeepsFresh(w, Execute(w, s0, front).value, trace[|trace| - 1]);
    }
  }

  /** However the runs interleave, the copy of an item that its request names once never
      replaces an existing archive entry. */
  lemma CopyNeverOverwrites(w: World, s0: State, trace: seq<Event>, e: Event)
    requires Trusted(w) && Initial(w, s0) && Execute(w, s0, trace).Some?
    requires var s := Execute(w, s0, trace).value;
             e.CopyPut? && Enabled(s, e) && Unrepeated(s.runs[e.id].items, e.index)
    ensures var s := Execute(w, s0, trace).value; ArchiveOf(s.runs[e.id], e.index) !in s.store
  {
    TraceKeepsFresh(w, s0, trace);
  }

  // ---------------------------------------------------------------- one report per item

  /** The worker has taken a number. */
  predicate Counted(pc: Pc) {
    pc.Numbered? || pc.Finished?
  }

  /** Worker `i` took the number `c`. */
  predicate Took(r: Run, i: nat, c: nat) {
    1 <= c <= |r.done| && r.done[c - 1] == i
  }

  function Indices(reports: seq<Report>): (indices: seq<nat>)
    ensures |indices| == |reports| && forall k :: 0 <= k < |reports| ==> indices[k] == reports[k].index
  {
    seq(|reports|, k requires 0 <= k < |reports| => reports[k].index)
  }

  function Numbers(reports: seq<Report>): (numbers: seq<nat>)
    ensures |numbers| == |reports| && forall k :: 0 <= k < |reports| ==> numbers[k] == reports[k].completed
  {
    seq(|reports|, k requires 0 <= k < |reports| => reports[k].completed)
  }

  /** `done` lists the workers that took a number, `reports` those that used it, each once. */
  ghost predicate DoneOk(r: Run) {
    && |r.workers| == |r.items|
    && NoDup(r.done)
    && (forall k :: 0 <= k < |r.done| ==> r.done[k] < |r.items|)
    && (forall i: nat {:trigger i in r.done} :: i < |r.items| ==> (i in r.done <==> Counted(r.workers[i])))
  }

  ghost predicate ReportsOk(r: Run) {
    && |r.workers| == |r.items|
    && NoDup(Indices(r.reports))
    && (forall k :: 0 <= k < |r.reports| ==>
          r.reports[k].index < |r.items| && Took(r, r.reports[k].index, r.reports[k].completed))
    && (forall i: nat {:trigger i in Indices(r.reports)} :: i < |r.items| ==>
          (i in Indices(r.reports) <==> r.workers[i].Finished?))
    && (forall i: nat :: i < |r.items| && r.workers[i].Numbered? ==> Took(r, i, r.workers[i].number))
  }

  /** What a step of a run that continues may do with numbers and reports. */
  lemma NobodyCounts(w: World, s: State, e: Event, id: nat, j: nat)
    requires Enabled(s, e) && id in s.runs && id in Do(w, s, e).runs && |s.runs[id].workers| == |s.runs[id].items|
    requires !(e.TakeNumber? && e.id == id) && !(e.ReportItem? && e.id == id) && j < |s.runs[id].items|
    requires At(Do(w, s, e), id, j)
    ensures var pc, pc' := PcAt(s, id, j), PcAt(Do(w, s, e), id, j); Counted(pc') || Counted(pc) ==> pc' == pc
  {
    if !Moves(e, id, j) {
      OthersUntouched(w, s, e, id, j);
    } else {
      MoverIsNotCounted(w, s, e, id, j);
    }
  }

  lemma MoverIsNotCounted(w: World, s: State, e: Event, id: nat, j: nat)
    requires Enabled(s, e) && Moves(e, id, j) && At(Do(w, s, e), id, j)
    requires !e.TakeNumber? && !e.ReportItem?
    ensures !Counted(PcAt(s, id, j)) && !Counted(PcAt(Do(w, s, e), id, j))
  {
  }

  lemma ItemsStay(w: World, s: State, e: Event, id: nat)
    requires Enabled(s, e) && id in s.runs && id in Do(w, s, e).runs
    requires !(e.TakeNumber? && e.id == id) && !(e.ReportItem? && e.id == id)
    ensures var r, r' := s.runs[id], Do(w, s, e).runs[id];
            r'.items == r.items && |r'.workers| == |r.workers| && r'.done == r.done && r'.reports == r.reports
  {
  }

  lemma NumberKeepsDone(r: Run, i: nat, pc: Pc)
    requires DoneOk(r) && i < |r.items| && !Counted(r.workers[i]) && pc.Numbered?
    ensures DoneOk(r.(workers := r.workers[i := pc], done := r.done + [i]))
  {
    assert i !in r.done;
    forall j: nat | j < |r.items|
      ensures j in r.done + [i] <==> Counted(r.workers[i := pc][j])
    {
      assert j in r.done <==> Counted(r.workers[j]);
    }
  }

  lemma NumberKeepsReports(r: Run, i: nat, outcome: Outcome)
    requires ReportsOk(r) && i < |r.items| && !Counted(r.workers[i])
    ensures ReportsOk(r.(workers := r.workers[i := Numbered(outcome, |r.done| + 1)], done := r.done + [i]))
  {
    var r' := r.(workers := r.workers[i := Numbered(outcome, |r.done| + 1)], done := r.done + [i]);
    forall j: nat | j < |r.items| && r'.workers[j].Numbered?
      ensures Took(r', j, r'.workers[j].number)
    {
      assert j != i ==> Took(r, j, r.workers[j].number);
    }
    forall k | 0 <= k < |r.reports|
      ensures Took(r', r.reports[k].index, r.reports[k].completed)
    {
      assert Took(r, r.reports[k].index, r.reports[k].completed);
    }
  }

  lemma ReportKeepsDone(r: Run, i: nat)
    requires DoneOk(r) && i < |r.items| && r.workers[i].Numbered?
    ensures DoneOk(r.(workers := r.workers[i := Finished(r.workers[i].outcome)],
                      reports := r.reports + [Report(i, r.workers[i].number)]))
  {
  }

  lemma ReportKeepsReports(r: Run, i: nat)
    requires ReportsOk(r) && i < |r.items| && r.workers[i].Numbered?
    ensures ReportsOk(r.(workers := r.workers[i := Finished(r.workers[i].outcome)],
                         reports := r.reports + [Report(i, r.workers[i].number)]))
  {
    var r' := r.(workers := r.workers[i := Finished(r.workers[i].outcome)],
                 reports := r.reports + [Report(i, r.workers[i].number)]);
    assert i !in Indices(r.reports);
    assert Indices(r'.reports) == Indices(r.reports) + [i];
    assert Took(r, i, r.workers[i].number);
    forall k | 0 <= k < |r'.reports|
      ensures r'.reports[k].index < |r.items| && Took(r', r'.reports[k].index, r'.reports[k].completed)
    {
      assert k < |r.reports| ==> Took(r, r.reports[k].index, r.reports[k].completed);
    }
    forall j: nat | j < |r.items| && r'.workers[j].Numbered?
      ensures Took(r', j, r'.workers[j].number)
    {
      assert Took(r, j, r.workers[j].number);
    }
  }

  lemma QuietStepKeepsDone(w: World, s: State, e: Event, id: nat)
    requires Enabled(s, e) && id in s.runs && id in Do(w, s, e).runs
    requires DoneOk(s.runs[id]) && ReportsOk(s.runs[id])
    requires !(e.TakeNumber? && e.id == id) && !(e.ReportItem? && e.id == id)
    ensures DoneOk(Do(w, s, e).runs[id]) && ReportsOk(Do(w, s, e).runs[id])
  {
    var r, r' := s.runs[id], Do(w, s, e).runs[id];
    ItemsStay(w, s, e, id);
    forall j: nat | j < |r.items|
      ensures Counted(r'.workers[j]) || Counted(r.workers[j]) ==> r'.workers[j] == r.workers[j]
    {
      NobodyCounts(w, s, e, id, j);
    }
    SameCounts(r, r');
  }

  lemma SameCounts(r: Run, r': Run)
    requires DoneOk(r) && ReportsOk(r)
    requires r'.items == r.items && |r'.workers| == |r.workers| && r'.done == r.done && r'.reports == r.reports
    requires forall j: nat :: j < |r.items| ==> Counted(r'.workers[j]) || Counted(r.workers[j]) ==> r'.workers[j] == r.workers[j]
    ensures DoneOk(r') && ReportsOk(r')
  {
    forall j: nat | j < |r.items|
      ensures Counted(r'.workers[j]) <==> Counted(r.workers[j])
      ensures r'.workers[j].Finished? <==> r.workers[j].Finished?
      ensures r'.workers[j].Numbered? ==> Took(r', j, r'.workers[j].number)
    {
      assert r.workers[j].Numbered? ==> Took(r, j, r.workers[j].number);
    }
    forall k | 0 <= k < |r.reports|
      ensures Took(r', r.reports[k].index, r.reports[k].completed)
    {
      assert Took(r, r.reports[k].index, r.reports[k].completed);
    }
  }

  lemma StepKeepsDone(w: World, s: State, e: Event, id: nat)
    requires Enabled(s, e) && id in Do(w, s, e).runs
    requires id in s.runs ==> DoneOk(s.runs[id]) && ReportsOk(s.runs[id])
    ensures DoneOk(Do(w, s, e).runs[id]) && ReportsOk(Do(w, s, e).runs[id])
  {
    if id in s.runs {
      if e.TakeNumber? && e.id == id {
        NumberKeepsDone(s.runs[id], e.index, Do(w, s, e).runs[id].workers[e.index]);
        NumberKeepsReports(s.runs[id], e.index, s.runs[id].workers[e.index].outcome);
      } else if e.ReportItem? && e.id == id {
        ReportKeepsDone(s.runs[id], e.index);
        ReportKeepsReports(s.runs[id], e.index);
      } else {
        QuietStepKeepsDone(w, s, e, id);
      }
    }
  }

  lemma {:induction false} TraceKeepsDone(w: World, s0: State, trace: seq<Event>)
    requires Initial(w, s0) && Execute(w, s0, trace).Some?
    ensures forall id :: id in Execute(w, s0, trace).value.runs ==>
              DoneOk(Execute(w, s0, trace).value.runs[id]) && ReportsOk(Execute(w, s0, trace).value.runs[id])
  {
    if trace != [] {
      var front := trace[..|trace| - 1];
      TraceKeepsDone(w, s0, front);
      var s := Execute(w, s0, front).value;
      forall id | id in Execute(w, s0, trace).value.runs
        ensures DoneOk(Execute(w, s0, trace).value.runs[id]) && ReportsOk(Execute(w, s0, trace).value.runs[id])
      {
        StepKeepsDone(w, s, trace[|trace| - 1], id);
      }
    }
  }

  /** In every reachable state no item has been reported twice and no number used twice, and every
      report carries the number its item took from the counter.  A run that may end has reported
      every item, and the numbers of its reports are 1 to n in some order. */
  lemma EveryItemReportedOnce(w: World, s0: State, trace: seq<Event>, id: nat)
    requires Initial(w, s0) && Execute(w, s0, trace).Some? && id in Execute(w, s0, trace).value.runs
    ensures var r := Execute(w, s0, trace).value.runs[id];
            && NoDup(Indices(r.reports)) && NoDup(Numbers(r.reports))
            && (forall k :: 0 <= k < |r.reports| ==> Took(r, r.reports[k].index, r.reports[k].completed))
            && (AllFinished(r) ==>
                  IsSchedule(Indices(r.reports), |r.items|) && forall c: nat :: 1 <= c <= |r.items| ==> c in Numbers(r.reports))
  {
    TraceKeepsDone(w, s0, trace);
    var r := Execute(w, s0, trace).value.runs[id];
    NumbersDiffer(r);
    if AllFinished(r) {
      AllReported(r);
    }
  }

  lemma NumbersDiffer(r: Run)
    requires DoneOk(r) && ReportsOk(r)
    ensures NoDup(Numbers(r.reports))
  {
    forall j, k | 0 <= j < k < |r.reports|
      ensures r.reports[j].completed != r.reports[k].completed
    {
      assert Indices(r.reports)[j] != Indices(r.reports)[k];
      assert Took(r, r.reports[j].index, r.reports[j].completed);
      assert Took(r, r.reports[k].index, r.reports[k].completed);
    }
  }

  lemma AllReported(r: Run)
    requires DoneOk(r) && ReportsOk(r) && AllFinished(r)
    ensures IsSchedule(Indices(r.reports), |r.items|)
    ensures forall c: nat :: 1 <= c <= |r.items| ==> c in Numbers(r.reports)
  {
    forall i: nat | i < |r.items|
      ensures i in r.done && i in Indices(r.reports)
    {
      assert r.workers[i] in r.workers;
    }
    ScheduleLength(r.done, |r.items|);
    forall c: nat | 1 <= c <= |r.items|
      ensures c in Numbers(r.reports)
    {
      var i := r.done[c - 1];
      assert i in Indices(r.reports);
      var k :| 0 <= k < |r.reports| && Indices(r.reports)[k] == i;
      assert Took(r, i, r.reports[k].completed);
      assert Numbers(r.reports)[k] == c;
    }
  }
}
