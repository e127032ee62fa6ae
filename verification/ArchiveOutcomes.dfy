/** How the workers of an archive run end, by what happened since the run was started. */
module ArchiveOutcomes {
  import opened ArchiveKeys
  import opened ArchiveProtocol
  import opened ArchiveSafety
  import opened Basics

  /** The position after the last start of run `id`. */
  function Born(trace: seq<Event>, id: nat): (n: nat)
    ensures n <= |trace|
  {
    if trace == [] then 0
    else if trace[|trace| - 1].Start? && trace[|trace| - 1].id == id then |trace|
    else Born(trace[..|trace| - 1], id)
  }

  /** The event is one of those since the start of run `id`. */
  predicate SinceStart(trace: seq<Event>, id: nat, k: int) {
    Born(trace, id) <= k < |trace|
  }

  predicate Over(pc: Pc) {
    pc.Ended? || pc.Numbered? || pc.Finished?
  }

  lemma {:induction false} BornBefore(trace: seq<Event>, id: nat)
    requires trace != [] && !(trace[|trace| - 1].Start? && trace[|trace| - 1].id == id)
    ensures forall k :: 0 <= k < |trace| - 1 ==>
              (SinceStart(trace, id, k) <==> SinceStart(trace[..|trace| - 1], id, k)) && trace[k] == trace[..|trace| - 1][k]
    ensures SinceStart(trace, id, |trace| - 1)
  {
  }

  /** A run that exists was started in the trace, or by the last event. */
  lemma LastStep(w: World, s0: State, trace: seq<Event>)
    requires Execute(w, s0, trace).Some? && trace != []
    ensures var front, e := trace[..|trace| - 1], trace[|trace| - 1];
            && Execute(w, s0, front).Some? && Enabled(Execute(w, s0, front).value, e) && Lawful(w, Execute(w, s0, front).value, e)
            && Execute(w, s0, trace).value == Do(w, Execute(w, s0, front).value, e)
  {
  }

  // ---------------------------------------------------------------- failed copies

  /** The worker is told that its copy failed. */
  predicate FailsCopy(e: Event, id: nat, i: nat) {
    e == CopyFail(id, i) || (e.CopyPut? && e.id == id && e.index == i && !e.reported)
  }

  ghost predicate CopyFailedBefore(trace: seq<Event>, id: nat, i: nat) {
    exists k :: SinceStart(trace, id, k) && FailsCopy(trace[k], id, i)
  }

  lemma CopyFailedStep(trace: seq<Event>, id: nat, i: nat)
    requires trace != [] && !(trace[|trace| - 1].Start? && trace[|trace| - 1].id == id)
    ensures CopyFailedBefore(trace, id, i)
            <==> CopyFailedBefore(trace[..|trace| - 1], id, i) || FailsCopy(trace[|trace| - 1], id, i)
  {
    BornBefore(trace, id);
    var front := trace[..|trace| - 1];
    if k :| SinceStart(front, id, k) && FailsCopy(front[k], id, i) {
      assert SinceStart(trace, id, k) && FailsCopy(trace[k], id, i);
    }
    if k :| SinceStart(trace, id, k) && FailsCopy(trace[k], id, i) && k < |front| {
      assert SinceStart(front, id, k) && FailsCopy(front[k], id, i);
    }
  }

  /** What a worker knows of its copy. */
  predicate CopyKnown(pc: Pc, failed: bool) {
    if pc.CopyEnded? then pc.success == !failed
    else if Over(pc) then failed <==> pc.outcome == CopyFailed
    else !failed
  }

  lemma MoverKnows(w: World, s: State, e: Event, id: nat, i: nat, failed: bool)
    requires Enabled(s, e) && Moves(e, id, i) && At(Do(w, s, e), id, i) && CopyKnown(PcAt(s, id, i), failed)
    ensures CopyKnown(PcAt(Do(w, s, e), id, i), failed || FailsCopy(e, id, i))
  {
  }

  lemma FreshRunKnows(w: World, s: State, e: Event, i: nat)
    requires Enabled(s, e) && e.Start? && At(Do(w, s, e), e.id, i)
    ensures PcAt(Do(w, s, e), e.id, i) == CopyPending
  {
  }

  lemma {:induction false} WorkersKnow(w: World, s0: State, trace: seq<Event>, id: nat, i: nat)
    requires Initial(w, s0) && Execute(w, s0, trace).Some? && At(Execute(w, s0, trace).value, id, i)
    ensures CopyKnown(PcAt(Execute(w, s0, trace).value, id, i), CopyFailedBefore(trace, id, i))
  {
    if trace != [] {
      var front, e := trace[..|trace| - 1], trace[|trace| - 1];
      LastStep(w, s0, trace);
      var s := Execute(w, s0, front).value;
      if e.Start? && e.id == id {
        FreshRunKnows(w, s, e, i);
        assert !CopyFailedBefore(trace, id, i);
      } else {
        CopyFailedStep(trace, id, i);
        if Moves(e, id, i) {
          WorkersKnow(w, s0, front, id, i);
          MoverKnows(w, s, e, id, i, CopyFailedBefore(front, id, i));
        } else {
          OthersUntouched(w, s, e, id, i);
          WorkersKnow(w, s0, front, id, i);
        }
      }
    }
  }

  /** A worker ends with a failed copy if and only if, since its run was started, its copy failed or its
      upload was not confirmed.  In particular an item that is already archived does not fail. */
  lemma CopyFailedExactly(w: World, s0: State, trace: seq<Event>, id: nat, i: nat)
    requires Initial(w, s0) && Execute(w, s0, trace).Some? && At(Execute(w, s0, trace).value, id, i)
    requires Over(PcAt(Execute(w, s0, trace).value, id, i))
    ensures PcAt(Execute(w, s0, trace).value, id, i).outcome == CopyFailed
            <==> exists k :: SinceStart(trace, id, k) &&
                   (trace[k] == CopyFail(id, i) || (trace[k].CopyPut? && trace[k].id == id && trace[k].index == i && !trace[k].reported))
  {
    WorkersKnow(w, s0, trace, id, i);
    assert CopyFailedBefore(trace, id, i) <==> exists k :: SinceStart(trace, id, k) && FailsCopy(trace[k], id, i);
  }

  // ---------------------------------------------------------------- retained sources

  /** The worker read the object at its source, in the state before event `k`. */
  ghost predicate SawSource(w: World, s0: State, trace: seq<Event>, id: nat, i: nat, k: int, o: Object) {
    && SinceStart(trace, id, k)
    && (trace[k] == HeadSource(id, i) || trace[k] == ReadSource(id, i) || trace[k] == Recheck(id, i))
    && Execute(w, s0, trace[..k]).Some?
    && var s := Execute(w, s0, trace[..k]).value;
       At(s, id, i) && SourceOf(s.runs[id], i) in s.store && s.store[SourceOf(s.runs[id], i)] == o
  }

  ghost predicate SawArchive(w: World, s0: State, trace: seq<Event>, id: nat, i: nat, k: int, o: Object) {
    && SinceStart(trace, id, k)
    && (trace[k] == HeadArchive(id, i) || trace[k] == ReadArchive(id, i))
    && Execute(w, s0, trace[..k]).Some?
    && var s := Execute(w, s0, trace[..k]).value;
       At(s, id, i) && ArchiveOf(s.runs[id], i) in s.store && s.store[ArchiveOf(s.runs[id], i)] == o
  }

  /** The source was read as `a` before event `j`; before event `k` it was read as something else, or its
      archive entry as having other content. */
  ghost predicate Differ(w: World, s0: State, trace: seq<Event>, id: nat, i: nat, j: int, k: int, a: Object, b: Object) {
    && SawSource(w, s0, trace, id, i, j, a)
    && ((SawSource(w, s0, trace, id, i, k, b) && a != b) || (SawArchive(w, s0, trace, id, i, k, b) && a.content != b.content))
  }

  /** Two of the worker's reads differed: the source from itself, or the archive entry from the source. */
  ghost predicate ReadsDiffered(w: World, s0: State, trace: seq<Event>, id: nat, i: nat) {
    exists j, k, a, b :: Differ(w, s0, trace, id, i, j, k, a, b)
  }

  ghost predicate VerifyFailedBefore(trace: seq<Event>, id: nat, i: nat) {
    exists k :: SinceStart(trace, id, k) && trace[k] == VerifyFail(id, i)
  }

  ghost predicate SawMeta(w: World, s0: State, trace: seq<Event>, id: nat, i: nat, m: Meta) {
    exists k, o :: SawSource(w, s0, trace, id, i, k, o) && Head(o) == m
  }

  ghost predicate SawDigest(w: World, s0: State, trace: seq<Event>, id: nat, i: nat, d: (nat, string)) {
    exists k, o :: SawSource(w, s0, trace, id, i, k, o) && Digest(w, o.content) == d
  }

  /** What a worker carries along was read, and a retained source has a reason. */
  ghost predicate ReadsKnown(w: World, s0: State, trace: seq<Event>, id: nat, i: nat, pc: Pc) {
    match pc
    case SourceHeaded(m) => SawMeta(w, s0, trace, id, i, m)
    case ArchiveHeaded(m) => SawMeta(w, s0, trace, id, i, m)
    case SourceRead(m, d) => SawMeta(w, s0, trace, id, i, m) && SawDigest(w, s0, trace, id, i, d)
    case Matched(m) => SawMeta(w, s0, trace, id, i, m)
    case Cleared(m) => SawMeta(w, s0, trace, id, i, m)
    case _ =>
      Over(pc) && pc.outcome == Retained ==> VerifyFailedBefore(trace, id, i) || ReadsDiffered(w, s0, trace, id, i)
  }

  lemma SawStays(w: World, s0: State, trace: seq<Event>, id: nat, i: nat, k: int, o: Object)
    requires trace != [] && !(trace[|trace| - 1].Start? && trace[|trace| - 1].id == id)
    ensures SawSource(w, s0, trace[..|trace| - 1], id, i, k, o) ==> SawSource(w, s0, trace, id, i, k, o)
    ensures SawArchive(w, s0, trace[..|trace| - 1], id, i, k, o) ==> SawArchive(w, s0, trace, id, i, k, o)
  {
    BornBefore(trace, id);
    if 0 <= k < |trace| - 1 {
      assert trace[..|trace| - 1][..k] == trace[..k];
    }
  }

  lemma DifferedStays(w: World, s0: State, trace: seq<Event>, id: nat, i: nat)
    requires trace != [] && !(trace[|trace| - 1].Start? && trace[|trace| - 1].id == id)
    requires ReadsDiffered(w, s0, trace[..|trace| - 1], id, i)
    ensures ReadsDiffered(w, s0, trace, id, i)
  {
    var front := trace[..|trace| - 1];
    var j, k, a, b :| Differ(w, s0, front, id, i, j, k, a, b);
    SawStays(w, s0, trace, id, i, j, a);
    SawStays(w, s0, trace, id, i, k, b);
    assert Differ(w, s0, trace, id, i, j, k, a, b);
  }

  lemma MetaStays(w: World, s0: State, trace: seq<Event>, id: nat, i: nat, m: Meta)
    requires trace != [] && !(trace[|trace| - 1].Start? && trace[|trace| - 1].id == id)
    requires SawMeta(w, s0, trace[..|trace| - 1], id, i, m)
    ensures SawMeta(w, s0, trace, id, i, m)
  {
    var k, o :| SawSource(w, s0, trace[..|trace| - 1], id, i, k, o) && Head(o) == m;
    SawStays(w, s0, trace, id, i, k, o);
  }

  lemma DigestStays(w: World, s0: State, trace: seq<Event>, id: nat, i: nat, d: (nat, string))
    requires trace != [] && !(trace[|trace| - 1].Start? && trace[|trace| - 1].id == id)
    requires SawDigest(w, s0, trace[..|trace| - 1], id, i, d)
    ensures SawDigest(w, s0, trace, id, i, d)
  {
    var k, o :| SawSource(w, s0, trace[..|trace| - 1], id, i, k, o) && Digest(w, o.content) == d;
    SawStays(w, s0, trace, id, i, k, o);
  }

  lemma VerifyFailStays(trace: seq<Event>, id: nat, i: nat)
    requires trace != [] && !(trace[|trace| - 1].Start? && trace[|trace| - 1].id == id)
    ensures VerifyFailedBefore(trace[..|trace| - 1], id, i) ==> VerifyFailedBefore(trace, id, i)
    ensures trace[|trace| - 1] == VerifyFail(id, i) ==> VerifyFailedBefore(trace, id, i)
  {
    BornBefore(trace, id);
    var front := trace[..|trace| - 1];
    if k :| SinceStart(front, id, k) && front[k] == VerifyFail(id, i) {
      assert SinceStart(trace, id, k) && trace[k] == VerifyFail(id, i);
    }
    if trace[|trace| - 1] == VerifyFail(id, i) {
      assert SinceStart(trace, id, |trace| - 1);
    }
  }

  /** What is known stays known. */
  lemma KnownStays(w: World, s0: State, trace: seq<Event>, id: nat, i: nat, pc: Pc)
    requires trace != [] && !(trace[|trace| - 1].Start? && trace[|trace| - 1].id == id)
    requires ReadsKnown(w, s0, trace[..|trace| - 1], id, i, pc)
    ensures ReadsKnown(w, s0, trace, id, i, pc)
  {
    match pc {
      case SourceHeaded(m) => MetaStays(w, s0, trace, id, i, m);
      case ArchiveHeaded(m) => MetaStays(w, s0, trace, id, i, m);
      case SourceRead(m, d) => MetaStays(w, s0, trace, id, i, m); DigestStays(w, s0, trace, id, i, d);
      case Matched(m) => MetaStays(w, s0, trace, id, i, m);
      case Cleared(m) => MetaStays(w, s0, trace, id, i, m);
      case _ => ReasonStays(w, s0, trace, id, i);
    }
  }

  lemma ReasonStays(w: World, s0: State, trace: seq<Event>, id: nat, i: nat)
    requires trace != [] && !(trace[|trace| - 1].Start? && trace[|trace| - 1].id == id)
    ensures VerifyFailedBefore(trace[..|trace| - 1], id, i) || ReadsDiffered(w, s0, trace[..|trace| - 1], id, i) ==>
              VerifyFailedBefore(trace, id, i) || ReadsDiffered(w, s0, trace, id, i)
  {
    VerifyFailStays(trace, id, i);
    if ReadsDiffered(w, s0, trace[..|trace| - 1], id, i) {
      DifferedStays(w, s0, trace, id, i);
    }
  }

  /** A read of the source is on record. */
  lemma ReadsSource(w: World, s0: State, trace: seq<Event>, id: nat, i: nat)
    requires Execute(w, s0, trace).Some? && trace != []
    requires var e := trace[|trace| - 1]; e == HeadSource(id, i) || e == ReadSource(id, i) || e == Recheck(id, i)
    ensures var s := Execute(w, s0, trace[..|trace| - 1]).value;
            && At(s, id, i) && SourceOf(s.runs[id], i) in s.store
            && SawSource(w, s0, trace, id, i, |trace| - 1, s.store[SourceOf(s.runs[id], i)])
  {
    LastStep(w, s0, trace);
    BornBefore(trace, id);
  }

  lemma ReadsArchive(w: World, s0: State, trace: seq<Event>, id: nat, i: nat)
    requires Execute(w, s0, trace).Some? && trace != []
    requires var e := trace[|trace| - 1]; e == HeadArchive(id, i) || e == ReadArchive(id, i)
    ensures var s := Execute(w, s0, trace[..|trace| - 1]).value;
            && At(s, id, i) && ArchiveOf(s.runs[id], i) in s.store
            && SawArchive(w, s0, trace, id, i, |trace| - 1, s.store[ArchiveOf(s.runs[id], i)])
  {
    LastStep(w, s0, trace);
    BornBefore(trace, id);
  }

  /** A step of the worker that reads its source. */
  lemma SourceReaderKnows(w: World, s0: State, trace: seq<Event>, id: nat, i: nat)
    requires Execute(w, s0, trace).Some? && trace != [] && At(Execute(w, s0, trace).value, id, i)
    requires var e := trace[|trace| - 1]; e == HeadSource(id, i) || e == ReadSource(id, i) || e == Recheck(id, i)
    requires var front := trace[..|trace| - 1];
      var s := Execute(w, s0, front).value; At(s, id, i) && ReadsKnown(w, s0, front, id, i, PcAt(s, id, i))
    ensures ReadsKnown(w, s0, trace, id, i, PcAt(Execute(w, s0, trace).value, id, i))
  {
    var front, e := trace[..|trace| - 1], trace[|trace| - 1];
    var s := Execute(w, s0, front).value;
    LastStep(w, s0, trace);
    ReadsSource(w, s0, trace, id, i);
    KnownStays(w, s0, trace, id, i, PcAt(s, id, i));
    var o := s.store[SourceOf(s.runs[id], i)];
    if e.HeadSource? {
      assert SawMeta(w, s0, trace, id, i, Head(o));
    } else if e.ReadSource? {
      assert SawDigest(w, s0, trace, id, i, Digest(w, o.content));
    } else {
      var m := PcAt(s, id, i).meta;
      var k, a :| SawSource(w, s0, trace, id, i, k, a) && Head(a) == m;
      if Head(o) != m {
        assert Differ(w, s0, trace, id, i, k, |trace| - 1, a, o);
      }
    }
  }

  /** A step of the worker that reads its archive entry. */
  lemma ArchiveReaderKnows(w: World, s0: State, trace: seq<Event>, id: nat, i: nat)
    requires Execute(w, s0, trace).Some? && trace != [] && At(Execute(w, s0, trace).value, id, i)
    requires var e := trace[|trace| - 1]; e == HeadArchive(id, i) || e == ReadArchive(id, i)
    requires var front := trace[..|trace| - 1];
      var s := Execute(w, s0, front).value; At(s, id, i) && ReadsKnown(w, s0, front, id, i, PcAt(s, id, i))
    ensures ReadsKnown(w, s0, trace, id, i, PcAt(Execute(w, s0, trace).value, id, i))
  {
    var front, e := trace[..|trace| - 1], trace[|trace| - 1];
    var s := Execute(w, s0, front).value;
    LastStep(w, s0, trace);
    ReadsArchive(w, s0, trace, id, i);
    KnownStays(w, s0, trace, id, i, PcAt(s, id, i));
    var b := s.store[ArchiveOf(s.runs[id], i)];
    var m := PcAt(s, id, i).meta;
    var k, a :| SawSource(w, s0, trace, id, i, k, a) && Head(a) == m;
    if e.HeadArchive? {
      if Head(b).length != m.length {
        assert Differ(w, s0, trace, id, i, k, |trace| - 1, a, b);
      }
    } else {
      var d := PcAt(s, id, i).digest;
      var k', a' :| SawSource(w, s0, trace, id, i, k', a') && Digest(w, a'.content) == d;
      if Digest(w, b.content) != d {
        assert Differ(w, s0, trace, id, i, k', |trace| - 1, a', b);
      } else if d.0 != m.length {
        assert Differ(w, s0, trace, id, i, k, k', a, a');
      }
    }
  }

  /** Any other step of the worker. */
  lemma OtherStepKnows(w: World, s0: State, trace: seq<Event>, id: nat, i: nat)
    requires Execute(w, s0, trace).Some? && trace != [] && At(Execute(w, s0, trace).value, id, i)
    requires var e := trace[|trace| - 1];
      Moves(e, id, i) && !e.HeadSource? && !e.ReadSource? && !e.Recheck? && !e.HeadArchive? && !e.ReadArchive?
    requires var front := trace[..|trace| - 1];
      var s := Execute(w, s0, front).value; At(s, id, i) && ReadsKnown(w, s0, front, id, i, PcAt(s, id, i))
    ensures ReadsKnown(w, s0, trace, id, i, PcAt(Execute(w, s0, trace).value, id, i))
  {
    var front, e := trace[..|trace| - 1], trace[|trace| - 1];
    var s := Execute(w, s0, front).value;
    LastStep(w, s0, trace);
    KnownStays(w, s0, trace, id, i, PcAt(s, id, i));
    VerifyFailStays(trace, id, i);
    SilentStep(w, s, e, id, i);
  }

  /** Such a step ends in no verification stage, and retains nothing unless a request failed or the
      source had been retained before. */
  lemma SilentStep(w: World, s: State, e: Event, id: nat, i: nat)
    requires Enabled(s, e) && Moves(e, id, i) && At(Do(w, s, e), id, i)
    requires !e.HeadSource? && !e.ReadSource? && !e.Recheck? && !e.HeadArchive? && !e.ReadArchive?
    ensures var pc, pc' := PcAt(s, id, i), PcAt(Do(w, s, e), id, i);
            && !pc'.SourceHeaded? && !pc'.ArchiveHeaded? && !pc'.SourceRead? && !pc'.Matched? && !pc'.Cleared?
            && (Over(pc') && pc'.outcome == Retained ==> e == VerifyFail(id, i) || (Over(pc) && pc.outcome == Retained))
  {
  }

  lemma {:induction false} WorkersHaveRead(w: World, s0: State, trace: seq<Event>, id: nat, i: nat)
    requires Initial(w, s0) && Execute(w, s0, trace).Some? && At(Execute(w, s0, trace).value, id, i)
    ensures ReadsKnown(w, s0, trace, id, i, PcAt(Execute(w, s0, trace).value, id, i))
  {
    if trace != [] {
      var front, e := trace[..|trace| - 1], trace[|trace| - 1];
      LastStep(w, s0, trace);
      var s := Execute(w, s0, front).value;
      if e.Start? && e.id == id {
        FreshRunKnows(w, s, e, i);
      } else if Moves(e, id, i) {
        WorkersHaveRead(w, s0, front, id, i);
        if e.HeadSource? || e.ReadSource? || e.Recheck? {
          SourceReaderKnows(w, s0, trace, id, i);
        } else if e.HeadArchive? || e.ReadArchive? {
          ArchiveReaderKnows(w, s0, trace, id, i);
        } else {
          OtherStepKnows(w, s0, trace, id, i);
        }
      } else {
        OthersUntouched(w, s, e, id, i);
        WorkersHaveRead(w, s0, front, id, i);
        KnownStays(w, s0, trace, id, i, PcAt(s, id, i));
      }
    }
  }

  /** A source is retained only for a reason: since the run was started a request of its verification
      failed, or two of its reads differed. */
  lemma RetainedOnlyIf(w: World, s0: State, trace: seq<Event>, id: nat, i: nat)
    requires Initial(w, s0) && Execute(w, s0, trace).Some? && At(Execute(w, s0, trace).value, id, i)
    requires var pc := PcAt(Execute(w, s0, trace).value, id, i); Over(pc) && pc.outcome == Retained
    ensures VerifyFailedBefore(trace, id, i) || ReadsDiffered(w, s0, trace, id, i)
  {
    WorkersHaveRead(w, s0, trace, id, i);
  }

  // ---------------------------------------------------------------- attempted deletions

  /** The worker sends its delete request, and is told so or not. */
  predicate Deletes(e: Event, id: nat, i: nat, confirmed: bool) {
    e.Delete? && e.id == id && e.index == i && e.confirmed == confirmed
  }

  ghost predicate DeletedBefore(trace: seq<Event>, id: nat, i: nat, confirmed: bool) {
    exists k :: SinceStart(trace, id, k) && Deletes(trace[k], id, i, confirmed)
  }

  lemma DeletedStep(trace: seq<Event>, id: nat, i: nat, confirmed: bool)
    requires trace != [] && !(trace[|trace| - 1].Start? && trace[|trace| - 1].id == id)
    ensures DeletedBefore(trace, id, i, confirmed)
            <==> DeletedBefore(trace[..|trace| - 1], id, i, confirmed) || Deletes(trace[|trace| - 1], id, i, confirmed)
  {
    BornBefore(trace, id);
    var front := trace[..|trace| - 1];
    if k :| SinceStart(front, id, k) && Deletes(front[k], id, i, confirmed) {
      assert SinceStart(trace, id, k) && Deletes(trace[k], id, i, confirmed);
    }
    if k :| SinceStart(trace, id, k) && Deletes(trace[k], id, i, confirmed) && k < |front| {
      assert SinceStart(front, id, k) && Deletes(front[k], id, i, confirmed);
    }
  }

  /** What a worker knows of its delete request. */
  predicate DeleteKnown(pc: Pc, confirmed: bool, sent: bool) {
    sent <==> Over(pc) && pc.outcome == Attempted(confirmed)
  }

  lemma MoverDeletes(w: World, s: State, e: Event, id: nat, i: nat, confirmed: bool, sent: bool)
    requires Enabled(s, e) && Moves(e, id, i) && At(Do(w, s, e), id, i) && DeleteKnown(PcAt(s, id, i), confirmed, sent)
    ensures DeleteKnown(PcAt(Do(w, s, e), id, i), confirmed, sent || Deletes(e, id, i, confirmed))
  {
  }

  /** A worker ends with an attempted deletion, confirmed or not, if and only if, since its run was started,
      it sent the delete request and was told so. */
  lemma {:induction false} AttemptedExactly(w: World, s0: State, trace: seq<Event>, id: nat, i: nat, confirmed: bool)
    requires Initial(w, s0) && Execute(w, s0, trace).Some? && At(Execute(w, s0, trace).value, id, i)
    ensures DeletedBefore(trace, id, i, confirmed)
       <==> var pc := PcAt(Execute(w, s0, trace).value, id, i); Over(pc) && pc.outcome == Attempted(confirmed)
  {
    if trace != [] {
      var front, e := trace[..|trace| - 1], trace[|trace| - 1];
      LastStep(w, s0, trace);
      var s := Execute(w, s0, front).value;
      if e.Start? && e.id == id {
        FreshRunKnows(w, s, e, i);
        assert !DeletedBefore(trace, id, i, confirmed);
      } else {
        DeletedStep(trace, id, i, confirmed);
        if Moves(e, id, i) {
          AttemptedExactly(w, s0, front, id, i, confirmed);
          MoverDeletes(w, s, e, id, i, confirmed, DeletedBefore(front, id, i, confirmed));
        } else {
          OthersUntouched(w, s, e, id, i);
          AttemptedExactly(w, s0, front, id, i, confirmed);
        }
      }
    }
  }

  /** What an event takes from the stores: an applied delete its source, whatever is reported of it, and
      another user what he removes. */
  ghost predicate Takes(s: State, e: Event, l: Location) {
    (e.Delete? && e.applied && At(s, e.id, e.index) && l == SourceOf(s.runs[e.id], e.index)) || (e.Remove? && l == e.location)
  }

  /** Where an event puts its version: an upload, whatever is reported of it, and another user. */
  ghost predicate Puts(s: State, e: Event, l: Location) {
    (e.CopyPut? && At(s, e.id, e.index) && l == ArchiveOf(s.runs[e.id], e.index)) || (e.Write? && l == e.location)
  }

  /** Nothing else changes the stores. */
  lemma StoresChange(w: World, s: State, e: Event, l: Location)
    requires Enabled(s, e)
    ensures var after := Do(w, s, e).store;
            && (Takes(s, e, l) ==> l !in after)
            && (Puts(s, e, l) ==> l in after && after[l] == e.version)
            && (!Takes(s, e, l) && !Puts(s, e, l) ==>
                  (l in after <==> l in s.store) && (l in s.store ==> after[l] == s.store[l]))
  {
  }

  /** The first head of a source keeps four of its properties, and the second one clears the worker if and
      only if the object it meets has the same four. */
  lemma RecheckExactly(w: World, s: State, id: nat, i: nat)
    requires At(s, id, i)
    ensures Enabled(s, HeadSource(id, i)) ==>
              var o, pc := s.store[SourceOf(s.runs[id], i)], PcAt(Do(w, s, HeadSource(id, i)), id, i);
              pc.SourceHeaded? && pc.meta.etag == o.etag && pc.meta.length == |o.content|
              && pc.meta.lastModified == o.lastModified && pc.meta.versionId == o.versionId
    ensures Enabled(s, Recheck(id, i)) ==>
              var o, m := s.store[SourceOf(s.runs[id], i)], PcAt(s, id, i).meta;
              PcAt(Do(w, s, Recheck(id, i)), id, i).Cleared?
              <==> m.etag == o.etag && m.length == |o.content| && m.lastModified == o.lastModified && m.versionId == o.versionId
  {
  }

  // ---------------------------------------------------------------- undisturbed items

  /** None of the item's requests failed, and no other user wrote its source. */
  predicate Undisturbing(e: Event, id: nat, i: nat, from: Location) {
    && !FailsCopy(e, id, i) && e != VerifyFail(id, i)
    && !(e.Write? && e.location == from) && !(e.Remove? && e.location == from)
  }

  ghost predicate Undisturbed(trace: seq<Event>, id: nat, i: nat, from: Location) {
    forall k :: SinceStart(trace, id, k) ==> Undisturbing(trace[k], id, i, from)
  }

  /** The object `o` stands at the source, and nothing else in the archive. */
  predicate Archivable(store: Store, from: Location, to: Location, o: Object) {
    from in store && store[from] == o && (to in store ==> store[to].content == o.content)
  }

  /** Where an undisturbed worker stands. */
  ghost predicate OnTrack(w: World, store: Store, from: Location, to: Location, o: Object, pc: Pc) {
    && (to in store ==> store[to].content == o.content)
    && (!Over(pc) ==> from in store && store[from] == o)
    && match pc
       case CopyPending => true
       case CopyAbsent => true
       case CopyFetched(body) => body == o.content
       case CopyEnded(success, _) => success && to in store
       case SourceHeaded(m) => to in store && m == Head(o)
       case ArchiveHeaded(m) => to in store && m == Head(o)
       case SourceRead(m, d) => to in store && m == Head(o) && d == Digest(w, o.content)
       case Matched(m) => to in store && m == Head(o)
       case Cleared(m) => to in store && m == Head(o)
       case _ => to in store && pc.outcome.Attempted?
  }

  /** The run has its locations, and they lie on the two sides. */
  predicate Placed(s: State, id: nat, i: nat, from: Location, to: Location) {
    && At(s, id, i) && SourceOf(s.runs[id], i) == from && ArchiveOf(s.runs[id], i) == to
    && Unrepeated(s.runs[id].items, i) && from.bucket != ARCHIVE_BUCKET == to.bucket
  }

  /** A step of anyone else leaves the item's source and archive entry as they are. */
  lemma OthersKeepPlaces(w: World, s: State, e: Event, id: nat, i: nat, from: Location, to: Location)
    requires Trusted(w) && Inv(w, s) && Enabled(s, e) && Lawful(w, s, e) && Placed(s, id, i, from, to)
    requires !Moves(e, id, i) && Undisturbing(e, id, i, from)
    ensures SameAt(s.store, Do(w, s, e).store, from) && SameAt(s.store, Do(w, s, e).store, to)
  {
    assert RunOk(w, s.store, s.log, s.runs[id]);
    if e.CopyPut? {
      UploadsElsewhere(w, s, e, id, i, from, to);
    } else if e.Delete? {
      DeletesElsewhere(w, s, e, id, i, from, to);
    }
  }

  lemma UploadsElsewhere(w: World, s: State, e: Event, id: nat, i: nat, from: Location, to: Location)
    requires Inv(w, s) && e.CopyPut? && Enabled(s, e) && Placed(s, id, i, from, to) && !Moves(e, id, i)
    ensures ArchiveOf(s.runs[e.id], e.index) != from && ArchiveOf(s.runs[e.id], e.index) != to
  {
    assert RunOk(w, s.store, s.log, s.runs[id]);
    assert RunOk(w, s.store, s.log, s.runs[e.id]) && WorkerOk(w, s.store, s.log, s.runs[e.id], e.index);
    if e.id != id {
      OtherRunsApart(w, s, e.id, e.index);
    } else {
      DifferentArchives(s.runs[id], i, s.runs[id], e.index);
    }
  }

  lemma DeletesElsewhere(w: World, s: State, e: Event, id: nat, i: nat, from: Location, to: Location)
    requires Inv(w, s) && e.Delete? && Enabled(s, e) && Placed(s, id, i, from, to) && !Moves(e, id, i)
    ensures SourceOf(s.runs[e.id], e.index) != from && SourceOf(s.runs[e.id], e.index) != to
  {
    var r, q := s.runs[id], s.runs[e.id];
    assert RunOk(w, s.store, s.log, q) && WorkerOk(w, s.store, s.log, q, e.index);
    SourceOutsideArchive(w, s, e.id, e.index);
    if e.id != id {
      assert r.items[i] in Keys(r.items) && q.items[e.index] in Keys(q.items);
    }
    assert r.items[i] != q.items[e.index];
  }

  /** A step of the worker itself keeps it on track. */
  lemma OwnStepOnTrack(w: World, s: State, e: Event, id: nat, i: nat, from: Location, to: Location, o: Object)
    requires Enabled(s, e) && Moves(e, id, i) && Placed(s, id, i, from, to) && Undisturbing(e, id, i, from)
    requires OnTrack(w, s.store, from, to, o, PcAt(s, id, i))
    ensures At(Do(w, s, e), id, i) && OnTrack(w, Do(w, s, e).store, from, to, o, PcAt(Do(w, s, e), id, i))
  {
  }

  lemma PlacesStay(w: World, s: State, e: Event, id: nat, i: nat, from: Location, to: Location)
    requires Enabled(s, e) && !(e.Start? && e.id == id) && Placed(Do(w, s, e), id, i, from, to)
    ensures Placed(s, id, i, from, to)
  {
  }

  lemma UndisturbedFront(trace: seq<Event>, id: nat, i: nat, from: Location)
    requires trace != [] && !(trace[|trace| - 1].Start? && trace[|trace| - 1].id == id) && Undisturbed(trace, id, i, from)
    ensures Undisturbed(trace[..|trace| - 1], id, i, from) && Undisturbing(trace[|trace| - 1], id, i, from)
    ensures Born(trace[..|trace| - 1], id) == Born(trace, id)
  {
    BornBefore(trace, id);
    var front := trace[..|trace| - 1];
    forall k | SinceStart(front, id, k)
      ensures Undisturbing(front[k], id, i, from)
    {
      assert SinceStart(trace, id, k);
    }
    assert SinceStart(trace, id, |trace| - 1);
  }

  lemma {:induction false} StaysOnTrack(w: World, s0: State, trace: seq<Event>, id: nat, i: nat, from: Location, to: Location, o: Object)
    requires Trusted(w) && Initial(w, s0) && Execute(w, s0, trace).Some?
    requires Placed(Execute(w, s0, trace).value, id, i, from, to) && Undisturbed(trace, id, i, from)
    requires var b := Execute(w, s0, trace[..Born(trace, id)]); b.Some? && Archivable(b.value.store, from, to, o)
    ensures OnTrack(w, Execute(w, s0, trace).value.store, from, to, o, PcAt(Execute(w, s0, trace).value, id, i))
  {
    if trace != [] {
      var front, e := trace[..|trace| - 1], trace[|trace| - 1];
      LastStep(w, s0, trace);
      var s := Execute(w, s0, front).value;
      if e.Start? && e.id == id {
        FreshRunKnows(w, s, e, i);
        assert trace[..|trace|] == trace;
      } else {
        UndisturbedFront(trace, id, i, from);
        assert front[..Born(trace, id)] == trace[..Born(trace, id)];
        PlacesStay(w, s, e, id, i, from, to);
        StaysOnTrack(w, s0, front, id, i, from, to, o);
        if Moves(e, id, i) {
          OwnStepOnTrack(w, s, e, id, i, from, to, o);
        } else {
          TraceKeepsInv(w, s0, front);
          OthersUntouched(w, s, e, id, i);
          OthersKeepPlaces(w, s, e, id, i, from, to);
        }
      }
    }
  }

  /** An undisturbed item is archived and its deletion attempted.  Let its archive entry be absent, or
      hold the source's bytes, when the run starts, as after an interrupted earlier run; let no request
      of its worker fail and no other user write its source.  Then a worker that has ended has sent the
      delete request, and the archive holds the source's bytes, whatever all others do. */
  lemma UndisturbedIsArchived(w: World, s0: State, trace: seq<Event>, id: nat, i: nat, o: Object)
    requires Trusted(w) && Initial(w, s0) && Execute(w, s0, trace).Some?
    requires var s := Execute(w, s0, trace).value;
      At(s, id, i) && Unrepeated(s.runs[id].items, i) && Over(PcAt(s, id, i))
      && Undisturbed(trace, id, i, SourceOf(s.runs[id], i))
    requires var r := Execute(w, s0, trace).value.runs[id];
      var b := Execute(w, s0, trace[..Born(trace, id)]);
      b.Some? && Archivable(b.value.store, SourceOf(r, i), ArchiveOf(r, i), o)
    ensures var s := Execute(w, s0, trace).value;
            && PcAt(s, id, i).outcome.Attempted?
            && ArchiveOf(s.runs[id], i) in s.store && s.store[ArchiveOf(s.runs[id], i)].content == o.content
  {
    var s := Execute(w, s0, trace).value;
    TraceKeepsInv(w, s0, trace);
    assert RunOk(w, s.store, s.log, s.runs[id]) && WorkerOk(w, s.store, s.log, s.runs[id], i);
    SourceOutsideArchive(w, s, id, i);
    StaysOnTrack(w, s0, trace, id, i, SourceOf(s.runs[id], i), ArchiveOf(s.runs[id], i), o);
  }

  // ---------------------------------------------------------------- nobody is stuck

  /** How many steps a worker has to go at most. */
  function ToGo(pc: Pc): nat {
    match pc
    case CopyPending => 11
    case CopyAbsent => 10
    case CopyFetched(_) => 9
    case CopyEnded(_, _) => 8
    case SourceHeaded(_) => 7
    case ArchiveHeaded(_) => 6
    case SourceRead(_, _) => 5
    case Matched(_) => 4
    case Cleared(_) => 3
    case Ended(_) => 2
    case Numbered(_, _) => 1
    case Finished(_) => 0
  }

  /** Every step of a worker brings it forward. */
  lemma StepsGoForward(w: World, s: State, e: Event, id: nat, i: nat)
    requires Enabled(s, e) && Moves(e, id, i) && At(Do(w, s, e), id, i)
    ensures ToGo(PcAt(Do(w, s, e), id, i)) < ToGo(PcAt(s, id, i))
  {
  }

  /** The next step of a worker that nothing goes wrong for; `version` is what an upload would store. */
  function NextStep(pc: Pc, id: nat, i: nat, version: Object): Event {
    match pc
    case CopyPending => CopyHead(id, i)
    case CopyAbsent => CopyFetch(id, i)
    case CopyFetched(_) => CopyPut(id, i, version, true)
    case CopyEnded(_, _) => HeadSource(id, i)
    case SourceHeaded(_) => HeadArchive(id, i)
    case ArchiveHeaded(_) => ReadSource(id, i)
    case SourceRead(_, _) => ReadArchive(id, i)
    case Matched(_) => Recheck(id, i)
    case Cleared(_) => Delete(id, i, true, true)
    case Ended(_) => TakeNumber(id, i)
    case Numbered(_, _) => ReportItem(id, i)
    case Finished(_) => Finish(id)
  }

  /** A worker on track is never stuck: as long as its phase lasts it has a step that succeeds.  After at
      most eleven of its own steps, and the barrier between, it has reported. */
  lemma NeverStuck(w: World, s: State, id: nat, i: nat, from: Location, to: Location, o: Object, version: Object)
    requires Placed(s, id, i, from, to) && OnTrack(w, s.store, from, to, o, PcAt(s, id, i))
    requires version.content == o.content == w.named(to, version.etag)
    requires var pc := PcAt(s, id, i);
      if pc == CopyPending || pc == CopyAbsent || pc.CopyFetched? then s.runs[id].phase == Copying
      else s.runs[id].phase == Verifying && !pc.Finished?
    ensures var e := NextStep(PcAt(s, id, i), id, i, version);
            && Enabled(s, e) && Lawful(w, s, e) && Moves(e, id, i) && Undisturbing(e, id, i, from)
            && At(Do(w, s, e), id, i) && OnTrack(w, Do(w, s, e).store, from, to, o, PcAt(Do(w, s, e), id, i))
            && ToGo(PcAt(Do(w, s, e), id, i)) < ToGo(PcAt(s, id, i))
  {
    var e := NextStep(PcAt(s, id, i), id, i, version);
    StepAvailable(w, s, id, i, from, to, o, version);
    OwnStepOnTrack(w, s, e, id, i, from, to, o);
    StepsGoForward(w, s, e, id, i);
  }

  lemma StepAvailable(w: World, s: State, id: nat, i: nat, from: Location, to: Location, o: Object, version: Object)
    requires Placed(s, id, i, from, to) && OnTrack(w, s.store, from, to, o, PcAt(s, id, i))
    requires version.content == o.content == w.named(to, version.etag)
    requires var pc := PcAt(s, id, i);
      if pc == CopyPending || pc == CopyAbsent || pc.CopyFetched? then s.runs[id].phase == Copying
      else s.runs[id].phase == Verifying && !pc.Finished?
    ensures var e := NextStep(PcAt(s, id, i), id, i, version);
            Enabled(s, e) && Lawful(w, s, e) && Moves(e, id, i) && Undisturbing(e, id, i, from)
  {
  }

  /** Nor is a run: when its arguments are right it begins to copy, when all its workers have copied it
      begins to verify, and when all have reported it ends and releases its keys. */
  lemma RunGoesOn(w: World, s: State, id: nat)
    requires id in s.runs
    ensures s.runs[id].phase == Entered ==>
              Enabled(s, CheckArguments(id)) &&
              (Do(w, s, CheckArguments(id)).runs[id].phase == Copying
               <==> s.runs[id].archiveBucket == ARCHIVE_BUCKET
                    && forall item | item in s.runs[id].items :: item.bucket != ARCHIVE_BUCKET)
    ensures s.runs[id].phase == Copying && (forall pc | pc in s.runs[id].workers :: pc.CopyEnded?) ==>
              Enabled(s, Barrier(id)) && Do(w, s, Barrier(id)).runs[id].phase == Verifying
    ensures s.runs[id].phase == Raised || (s.runs[id].phase == Verifying && forall pc | pc in s.runs[id].workers :: pc.Finished?) ==>
              Enabled(s, Finish(id)) && id !in Do(w, s, Finish(id)).runs
              && forall item | item in s.runs[id].items :: item !in Do(w, s, Finish(id)).active
  {
    forall item | item in s.runs[id].items
      ensures item in Keys(s.runs[id].items)
    {
    }
  }
}
