/** Every reader of a job, over every schedule of emissions and polls. */
module JobReaders {
  import opened ArchiveKeys
  import opened Basics
  import opened JobLog

  /** A job and one reader of it.  `cursor` and `received` are the reader's. */
  datatype Session = Session(history: seq<Emission>, finished: bool, cursor: nat, received: seq<Frame>, stopped: bool)

  datatype Act = Emit(e: Emission) | Finish | Poll

  /** A job that has emitted `history` when the reader attaches. */
  function Attach(history: seq<Emission>, finished: bool): Session {
    Session(history, finished, 0, [], false)
  }

  ghost predicate Possible(s: Session, a: Act) {
    match a
    case Emit(_) => !s.finished
    case Finish => !s.finished
    case Poll => !s.stopped
  }

  /** A poll delivers the pending frames, moves the cursor to the last of them, and is the
      reader's last one if the job had finished when the log was read. */
  ghost function Perform(s: Session, a: Act): Session {
    match a
    case Emit(e) => s.(history := s.history + [e])
    case Finish => s.(finished := true)
    case Poll =>
      var frames := Pending(s.history, s.cursor);
      s.(received := s.received + frames,
         cursor := if frames == [] then s.cursor else frames[|frames| - 1].sequence,
         stopped := s.finished)
  }

  /** The session after a schedule, or None if some act of it was not possible. */
  ghost function PerformAll(s: Session, acts: seq<Act>): Option<Session> {
    if acts == [] then Some(s)
    else
      var before := PerformAll(s, acts[..|acts| - 1]);
      var a := acts[|acts| - 1];
      if before.Some? && Possible(before.value, a) then Some(Perform(before.value, a)) else None
  }

  /** What a reader displays: the last frame received for each slot. */
  function Display(frames: seq<Frame>): map<Slot, Frame> {
    if frames == [] then map[]
    else
      var last := frames[|frames| - 1];
      Display(frames[..|frames| - 1])[SlotOf(last) := last]
  }

  lemma {:induction false} DisplayConcat(a: seq<Frame>, b: seq<Frame>, s: Slot)
    ensures s in Display(a + b) <==> s in Display(a) || s in Display(b)
    ensures s in Display(b) ==> Display(a + b)[s] == Display(b)[s]
    ensures s in Display(a) && s !in Display(b) ==> Display(a + b)[s] == Display(a)[s]
  {
    if b == [] {
      assert a + b == a;
    } else {
      DisplayConcat(a, b[..|b| - 1], s);
      assert (a + b)[..|a + b| - 1] == a + b[..|b| - 1];
    }
  }

  lemma PendingNext(history: seq<Emission>, cursor: nat, n: nat)
    requires cursor < n <= |history|
    ensures Display(PendingUpTo(history, cursor, n))
         == if Live(history, n) then Display(PendingUpTo(history, cursor, n - 1))[SlotOf(FrameAt(history, n)) := FrameAt(history, n)]
            else Display(PendingUpTo(history, cursor, n - 1))
  {
    var frames := PendingUpTo(history, cursor, n);
    if Live(history, n) {
      assert frames[..|frames| - 1] == PendingUpTo(history, cursor, n - 1);
    } else {
      assert frames == PendingUpTo(history, cursor, n - 1);
    }
  }

  /** A live frame between two positions uses the slot. */
  ghost predicate InUse(history: seq<Emission>, cursor: nat, n: nat, s: Slot)
    requires n <= |history|
  {
    exists m :: cursor < m <= n && Live(history, m) && SlotOf(FrameAt(history, m)) == s
  }

  /** The display shows in the slot a live frame between the positions, if there is one. */
  ghost predicate Shows(history: seq<Emission>, cursor: nat, n: nat, s: Slot, display: map<Slot, Frame>)
    requires n <= |history|
  {
    && (s in display <==> InUse(history, cursor, n, s))
    && (s in display ==>
          var f := display[s];
          cursor < f.sequence <= n && Live(history, f.sequence) && f == FrameAt(history, f.sequence) && SlotOf(f) == s)
  }

  lemma ShowsNext(history: seq<Emission>, cursor: nat, n: nat, s: Slot, before: map<Slot, Frame>, after: map<Slot, Frame>)
    requires cursor < n <= |history| && Shows(history, cursor, n - 1, s, before)
    requires after == if Live(history, n) then before[SlotOf(FrameAt(history, n)) := FrameAt(history, n)] else before
    ensures Shows(history, cursor, n, s, after)
  {
    if Live(history, n) && SlotOf(FrameAt(history, n)) == s {
      assert InUse(history, cursor, n, s);
    } else {
      assert InUse(history, cursor, n, s) <==> InUse(history, cursor, n - 1, s);
    }
  }

  /** Among pending frames every slot occurs at most once, so all of them are displayed. */
  lemma {:induction false} DisplayPending(history: seq<Emission>, cursor: nat, n: nat, s: Slot)
    requires n <= |history|
    ensures Shows(history, cursor, n, s, Display(PendingUpTo(history, cursor, n)))
  {
    if n > cursor {
      DisplayPending(history, cursor, n - 1, s);
      PendingNext(history, cursor, n);
      ShowsNext(history, cursor, n, s, Display(PendingUpTo(history, cursor, n - 1)), Display(PendingUpTo(history, cursor, n)));
    }
  }

  lemma LiveUnique(history: seq<Emission>, m: nat, n: nat)
    requires 1 <= m <= |history| && 1 <= n <= |history| && Live(history, m) && Live(history, n)
    requires SlotOf(FrameAt(history, m)) == SlotOf(FrameAt(history, n))
    ensures m == n
  {
  }

  /** Adding the pending frames to what was displayed at the cursor gives the whole log. */
  lemma DisplayCatchesUp(history: seq<Emission>, cursor: nat, received: seq<Frame>)
    requires cursor <= |history| && Display(received) == Compact(history[..cursor])
    ensures Display(received + Pending(history, cursor)) == Compact(history)
  {
    forall s
      ensures s in Display(received + Pending(history, cursor)) <==> s in Compact(history)
      ensures s in Compact(history) ==> Display(received + Pending(history, cursor))[s] == Compact(history)[s]
    {
      DisplayConcat(received, Pending(history, cursor), s);
      DisplayPending(history, cursor, |history|, s);
      CompactEntry(history, s);
      SlotAtCursor(history, cursor, s);
      if s in Display(Pending(history, cursor)) {
        LiveUnique(history, Display(Pending(history, cursor))[s].sequence, Compact(history)[s].sequence);
      }
    }
  }

  /** A slot not used after the cursor is as it was at the cursor. */
  lemma SlotAtCursor(history: seq<Emission>, cursor: nat, s: Slot)
    requires cursor <= |history|
    ensures (s in Compact(history) && Compact(history)[s].sequence <= cursor) ==>
              s in Compact(history[..cursor]) && Compact(history[..cursor])[s] == Compact(history)[s]
    ensures s in Compact(history[..cursor]) ==> s in Compact(history)
  {
    var early := history[..cursor];
    CompactEntry(history, s);
    CompactEntry(early, s);
    assert forall n :: 1 <= n <= cursor ==> FrameAt(early, n) == FrameAt(history, n);
    if s in Compact(history) && Compact(history)[s].sequence <= cursor {
      var f := Compact(history)[s];
      assert SlotOf(FrameAt(early, f.sequence)) == s;
      var g := Compact(early)[s];
      assert SlotOf(FrameAt(history, g.sequence)) == s;
      assert f.sequence == g.sequence;
    }
  }

  /** What holds between any two acts. */
  ghost predicate ReaderOk(s: Session) {
    && s.cursor <= |s.history|
    && Ascending(s.received)
    && (forall k :: 0 <= k < |s.received| ==>
          1 <= s.received[k].sequence <= s.cursor && s.received[k] == FrameAt(s.history, s.received[k].sequence))
    && (forall n: nat :: 1 <= n <= s.cursor && !Snapshot(s.history[n - 1]) ==> FrameAt(s.history, n) in s.received)
    && Display(s.received) == Compact(s.history[..s.cursor])
    && (s.stopped ==> s.finished && s.cursor == |s.history|)
  }

  lemma PollMovesToEnd(history: seq<Emission>, cursor: nat)
    requires cursor <= |history|
    ensures var frames := Pending(history, cursor);
            |history| == if frames == [] then cursor else frames[|frames| - 1].sequence
  {
  }

  /** What a poll delivers: the frames that follow, in order, none that was overwritten. */
  lemma PollDelivers(s: Session)
    requires ReaderOk(s)
    ensures var frames := Pending(s.history, s.cursor);
      && Ascending(s.received + frames)
      && forall k :: 0 <= k < |s.received + frames| ==>
           1 <= (s.received + frames)[k].sequence <= |s.history|
           && (s.received + frames)[k] == FrameAt(s.history, (s.received + frames)[k].sequence)
  {
    PendingFrames(s.history, s.cursor, |s.history|);
  }

  /** Nothing that is kept for ever is missing after a poll. */
  lemma PollMissesNothing(s: Session, n: nat)
    requires ReaderOk(s) && 1 <= n <= |s.history| && !Snapshot(s.history[n - 1])
    ensures FrameAt(s.history, n) in s.received + Pending(s.history, s.cursor)
  {
    if n > s.cursor {
      PendingFrames(s.history, s.cursor, |s.history|);
      assert SlotOf(FrameAt(s.history, n)) == OwnSlot(n);
      assert Live(s.history, n);
    }
  }

  lemma PollKeepsReader(s: Session)
    requires ReaderOk(s) && !s.stopped
    ensures ReaderOk(Perform(s, Poll))
  {
    PollMovesToEnd(s.history, s.cursor);
    PollDelivers(s);
    DisplayCatchesUp(s.history, s.cursor, s.received);
    assert s.history[..|s.history|] == s.history;
    forall n: nat | 1 <= n <= |s.history| && !Snapshot(s.history[n - 1])
      ensures FrameAt(s.history, n) in s.received + Pending(s.history, s.cursor)
    {
      PollMissesNothing(s, n);
    }
  }

  lemma EmitKeepsReader(s: Session, e: Emission)
    requires ReaderOk(s) && !s.finished
    ensures ReaderOk(Perform(s, Emit(e)))
  {
    var s' := Perform(s, Emit(e));
    assert s'.history[..s.cursor] == s.history[..s.cursor];
    forall n: nat | 1 <= n <= |s.history|
      ensures FrameAt(s'.history, n) == FrameAt(s.history, n)
    {
    }
  }

  lemma {:induction false} ScheduleKeepsReader(history: seq<Emission>, finished: bool, acts: seq<Act>)
    requires PerformAll(Attach(history, finished), acts).Some?
    ensures ReaderOk(PerformAll(Attach(history, finished), acts).value)
  {
    if acts == [] {
      assert history[..0] == [];
    } else {
      var before := PerformAll(Attach(history, finished), acts[..|acts| - 1]).value;
      ScheduleKeepsReader(history, finished, acts[..|acts| - 1]);
      match acts[|acts| - 1]
      case Emit(e) => EmitKeepsReader(before, e);
      case Finish =>
      case Poll => PollKeepsReader(before);
    }
  }

  /** A reader that attaches to a job at any moment and polls at any moments receives frames of
      the job's history with strictly increasing sequence numbers; every kept event up to its
      cursor is among them, hence exactly once; and what it displays is what the log holds for
      the emissions up to its cursor. */
  lemma ReaderSeesHistory(history: seq<Emission>, finished: bool, acts: seq<Act>)
    requires PerformAll(Attach(history, finished), acts).Some?
    ensures var s := PerformAll(Attach(history, finished), acts).value;
            && s.cursor <= |s.history|
            && (forall i, j :: 0 <= i < j < |s.received| ==> s.received[i].sequence < s.received[j].sequence)
            && (forall k :: 0 <= k < |s.received| ==>
                  1 <= s.received[k].sequence <= |s.history| && s.received[k].emission == s.history[s.received[k].sequence - 1])
            && (forall n: nat :: 1 <= n <= s.cursor && !Snapshot(s.history[n - 1]) ==> FrameAt(s.history, n) in s.received)
            && Display(s.received) == Compact(s.history[..s.cursor])
  {
    ScheduleKeepsReader(history, finished, acts);
  }

  /** A reader stops only when nothing is left: the job has finished, every kept event of its
      whole history has been received, and the display equals the one a reader of the complete,
      uncompacted history would have. */
  lemma StoppedReaderIsComplete(history: seq<Emission>, finished: bool, acts: seq<Act>)
    requires PerformAll(Attach(history, finished), acts).Some?
    requires PerformAll(Attach(history, finished), acts).value.stopped
    ensures var s := PerformAll(Attach(history, finished), acts).value;
            && s.finished && Pending(s.history, s.cursor) == []
            && (forall n: nat :: 1 <= n <= |s.history| && !Snapshot(s.history[n - 1]) ==> FrameAt(s.history, n) in s.received)
            && Display(s.received) == Display(AllFrames(s.history))
  {
    ScheduleKeepsReader(history, finished, acts);
    var s := PerformAll(Attach(history, finished), acts).value;
    assert s.history[..|s.history|] == s.history;
    DisplayOfHistory(s.history);
  }

  /** The uncompacted log. */
  function AllFrames(history: seq<Emission>): (r: seq<Frame>)
    ensures |r| == |history| && forall k :: 0 <= k < |r| ==> r[k] == FrameAt(history, k + 1)
  {
    if history == [] then [] else AllFrames(history[..|history| - 1]) + [FrameAt(history, |history|)]
  }

  lemma {:induction false} DisplayOfHistory(history: seq<Emission>)
    ensures Display(AllFrames(history)) == Compact(history)
  {
    if history != [] {
      DisplayOfHistory(history[..|history| - 1]);
      assert AllFrames(history)[..|history| - 1] == AllFrames(history[..|history| - 1]);
    }
  }

  /** The generator behind one HTTP connection: its loop variables and the frames it has sent. */
  class Reader {
    const job: Job
    var cursor: nat
    var sent: seq<Frame>
    var stopped: bool

    constructor (job: Job)
      ensures this.job == job && View() == Attach(job.history, job.finished)
    {
      this.job, cursor, sent, stopped := job, 0, [], false;
    }

    ghost function View(): Session
      reads this, job
    {
      Session(job.history, job.finished, cursor, sent, stopped)
    }

    /** One turn of the loop.  Between turns the job may have moved on. */
    method Turn()
      requires job.Valid() && !stopped
      modifies this
      ensures View() == Perform(old(View()), Poll)
    {
      var frames, finished := job.Poll(cursor);
      for k := 0 to |frames|
        invariant sent == old(sent) + frames[..k]
        invariant cursor == if k == 0 then old(cursor) else frames[k - 1].sequence
        invariant !stopped
      {
        cursor := frames[k].sequence;
        sent := sent + [frames[k]];
      }
      assert frames[..|frames|] == frames;
      if finished {
        stopped := true;
      }
    }
  }

  // ---------------------------------------------------------------- which updates displace each other

  datatype Update = BytesOf(item: Item, body: string) | ProgressOf(item: Item, phase: string, body: string)

  /** The emissions of the archive worker for one item in flight. */
  function EmissionOf(u: Update): Emission {
    match u
    case BytesOf(item, body) => Emission("archive_bytes", Payload(None, None, Some(item.key), body))
    case ProgressOf(item, phase, body) =>
      Emission("archive_progress", Payload(Some(phase), Some(item.bucket), Some(item.key), body))
  }

  /** In-flight updates of different items are kept apart, with one exception: byte updates name
      the key without the bucket, so those of equal keys in different buckets share a slot. */
  lemma UpdatesShareSlot(a: Update, b: Update, m: nat, n: nat)
    requires a.item != b.item && m != n
    ensures SlotOf(Frame(m, EmissionOf(a))) == SlotOf(Frame(n, EmissionOf(b))) <==> a.BytesOf? && b.BytesOf? && a.item.key == b.item.key
  {
  }

  /** The exception happens: a reader that attaches after two such updates never sees the first. */
  lemma ByteUpdatesDisplaceEachOther(key: string, first: string, second: string)
    ensures var a, b := EmissionOf(BytesOf(Item("lessons", key), first)), EmissionOf(BytesOf(Item("photos", key), second));
            Compact([a, b]) == map[BytesSlot(Some(key)) := Frame(2, b)]
  {
    var a, b := EmissionOf(BytesOf(Item("lessons", key), first)), EmissionOf(BytesOf(Item("photos", key), second));
    assert [a, b][..1] == [a] && [a][..0] == [];
    assert Compact([a]) == map[BytesSlot(Some(key)) := Frame(1, a)];
  }

  predicate PhaseMessage(e: Emission) {
    e.event == "archive_phase" && Snapshot(e)
  }

  /** Of the phase messages exactly the last one is kept, and replayed to a reader that attaches: each is
      in the log, and among the frames pending for a new reader, if and only if no later one was emitted. */
  lemma OnlyLastPhaseKept(history: seq<Emission>, n: nat)
    requires 1 <= n <= |history| && PhaseMessage(history[n - 1])
    ensures (exists s :: s in Compact(history) && Compact(history)[s] == FrameAt(history, n))
            <==> forall m :: n <= m < |history| ==> !PhaseMessage(history[m])
    ensures FrameAt(history, n) in Pending(history, 0)
            <==> forall m :: n <= m < |history| ==> !PhaseMessage(history[m])
  {
    LastPhaseIsLive(history, n);
    PendingFrames(history, 0, |history|);
    forall s | s in Compact(history) && Compact(history)[s] == FrameAt(history, n)
      ensures Live(history, n)
    {
      CompactEntry(history, s);
    }
    if Live(history, n) {
      LiveStored(history, n);
    }
  }

  lemma LastPhaseIsLive(history: seq<Emission>, n: nat)
    requires 1 <= n <= |history| && PhaseMessage(history[n - 1])
    ensures Live(history, n) <==> forall m :: n <= m < |history| ==> !PhaseMessage(history[m])
  {
    forall m | n <= m < |history|
      ensures SlotOf(FrameAt(history, m + 1)) == SlotOf(FrameAt(history, n)) <==> PhaseMessage(history[m])
    {
    }
    if Live(history, n) {
      forall m | n <= m < |history|
        ensures !PhaseMessage(history[m])
      {
        assert SlotOf(FrameAt(history, m + 1)) != SlotOf(FrameAt(history, n));
      }
    } else {
      var m :| n < m <= |history| && SlotOf(FrameAt(history, m)) == SlotOf(FrameAt(history, n));
      assert PhaseMessage(history[m - 1]);
    }
  }
}
