/** The event log of one archive job: what the worker emits, what the log keeps of it, and what
    a reader that attaches at any time and polls at any times receives. */
module JobLog {
  import opened ArchiveKeys
  import opened Basics

  /** The fields of an event's data that the log looks at; the rest is opaque. */
  datatype Payload = Payload(phase: Option<string>, bucket: Option<string>, key: Option<string>, body: string)

  datatype Emission = Emission(event: string, data: Payload)

  /** A frame of the log: the position of an emission, counted from 1, and the emission. */
  datatype Frame = Frame(sequence: nat, emission: Emission)

  /** The dictionary key an emission is stored under. */
  datatype Slot =
    | BytesSlot(key: Option<string>)
    | ProgressSlot(bucket: Option<string>, key: Option<string>)
    | CurrentPhase
    | OwnSlot(sequence: nat)

  /** Snapshots overwrite their predecessor, everything else is kept for replay. */
  predicate Snapshot(e: Emission) {
    || e.event == "archive_bytes"
    || (e.event == "archive_progress" && e.data.phase != Some("item_done"))
    || (e.event == "archive_phase" && e.data.phase != Some("item_done"))
  }

  function SlotOf(f: Frame): Slot {
    var e := f.emission;
    if e.event == "archive_bytes" then BytesSlot(e.data.key)
    else if e.event == "archive_progress" && e.data.phase != Some("item_done") then ProgressSlot(e.data.bucket, e.data.key)
    else if e.event == "archive_phase" && e.data.phase != Some("item_done") then CurrentPhase
    else OwnSlot(f.sequence)
  }

  // ---------------------------------------------------------------- the log as a function of the history

  function FrameAt(history: seq<Emission>, n: nat): Frame
    requires 1 <= n <= |history|
  {
    Frame(n, history[n - 1])
  }

  /** The last value stored in each slot. */
  function Compact(history: seq<Emission>): map<Slot, Frame> {
    if history == [] then map[]
    else
      var last := FrameAt(history, |history|);
      Compact(history[..|history| - 1])[SlotOf(last) := last]
  }

  /** Nothing later uses the slot of frame `n`. */
  ghost predicate Live(history: seq<Emission>, n: nat)
    requires 1 <= n <= |history|
  {
    forall m :: n < m <= |history| ==> SlotOf(FrameAt(history, m)) != SlotOf(FrameAt(history, n))
  }

  lemma FrontFrames(history: seq<Emission>, n: nat)
    requires 1 <= n < |history|
    ensures FrameAt(history[..|history| - 1], n) == FrameAt(history, n)
  {
  }

  /** The log holds exactly the live frames: a slot is filled when something used it, and then
      with the last frame that did. */
  lemma {:induction false} CompactEntry(history: seq<Emission>, s: Slot)
    ensures s in Compact(history) <==> exists n :: 1 <= n <= |history| && SlotOf(FrameAt(history, n)) == s
    ensures s in Compact(history) ==>
              var f := Compact(history)[s];
              1 <= f.sequence <= |history| && f == FrameAt(history, f.sequence) && SlotOf(f) == s && Live(history, f.sequence)
  {
    if history != [] {
      var front, last := history[..|history| - 1], FrameAt(history, |history|);
      CompactEntry(front, s);
      forall n | 1 <= n < |history|
        ensures FrameAt(front, n) == FrameAt(history, n)
      {
        FrontFrames(history, n);
      }
      if SlotOf(last) != s && s in Compact(front) {
        var f := Compact(front)[s];
        forall m | f.sequence < m <= |history|
          ensures SlotOf(FrameAt(history, m)) != s
        {
          if m < |history| {
            assert SlotOf(FrameAt(front, m)) != s;
          }
        }
      }
      if n :| 1 <= n < |history| && SlotOf(FrameAt(history, n)) == s {
        assert SlotOf(FrameAt(front, n)) == s;
      }
      if n :| 1 <= n <= |front| && SlotOf(FrameAt(front, n)) == s {
        assert SlotOf(FrameAt(history, n)) == s;
      }
    }
  }

  /** A live frame is in the log. */
  lemma LiveStored(history: seq<Emission>, n: nat)
    requires 1 <= n <= |history| && Live(history, n)
    ensures var f := FrameAt(history, n); SlotOf(f) in Compact(history) && Compact(history)[SlotOf(f)] == f
  {
    var f := FrameAt(history, n);
    CompactEntry(history, SlotOf(f));
    var g := Compact(history)[SlotOf(f)];
    assert SlotOf(FrameAt(history, g.sequence)) == SlotOf(FrameAt(history, n));
  }

  /** The live frames after position `cursor` up to position `n`, in order. */
  ghost function PendingUpTo(history: seq<Emission>, cursor: nat, n: nat): seq<Frame>
    requires n <= |history|
  {
    if n <= cursor then []
    else PendingUpTo(history, cursor, n - 1) + if Live(history, n) then [FrameAt(history, n)] else []
  }

  /** What a poll at `cursor` delivers. */
  ghost function Pending(history: seq<Emission>, cursor: nat): seq<Frame> {
    PendingUpTo(history, cursor, |history|)
  }

  ghost predicate Ascending(frames: seq<Frame>) {
    forall i, j :: 0 <= i < j < |frames| ==> frames[i].sequence < frames[j].sequence
  }

  lemma {:induction false} PendingFrames(history: seq<Emission>, cursor: nat, n: nat)
    requires n <= |history|
    ensures forall i :: 0 <= i < |PendingUpTo(history, cursor, n)| ==>
              var f := PendingUpTo(history, cursor, n)[i];
              cursor < f.sequence <= n && f == FrameAt(history, f.sequence) && Live(history, f.sequence)
    ensures Ascending(PendingUpTo(history, cursor, n))
    ensures forall m :: cursor < m <= n && Live(history, m) ==> FrameAt(history, m) in PendingUpTo(history, cursor, n)
  {
    if n > cursor {
      PendingFrames(history, cursor, n - 1);
    }
  }

  // ---------------------------------------------------------------- what displaces what

  /** One event drops another from the log: two byte updates of one key, two progress updates of one item, or
      two phase messages.  An `item_done` neither drops nor is dropped, and so is every other event. */
  predicate Displaces(later: Emission, earlier: Emission) {
    var done := later.data.phase == Some("item_done") || earlier.data.phase == Some("item_done");
    || (later.event == "archive_bytes" && earlier.event == "archive_bytes" && later.data.key == earlier.data.key)
    || (later.event == "archive_progress" && earlier.event == "archive_progress" && !done
        && later.data.bucket == earlier.data.bucket && later.data.key == earlier.data.key)
    || (later.event == "archive_phase" && earlier.event == "archive_phase" && !done)
  }

  lemma SameSlot(f: Frame, g: Frame)
    requires f.sequence != g.sequence
    ensures SlotOf(f) == SlotOf(g) <==> Displaces(f.emission, g.emission)
    ensures Snapshot(f.emission) <==> Displaces(f.emission, f.emission)
  {
  }

  /** The `m`-th event drops the `n`-th one. */
  predicate Drops(history: seq<Emission>, m: nat, n: nat) {
    1 <= n < m <= |history| && Displaces(history[m - 1], history[n - 1])
  }

  ghost predicate Undisplaced(history: seq<Emission>, n: nat) {
    1 <= n <= |history| && forall m: nat :: !Drops(history, m, n)
  }

  lemma LiveExactly(history: seq<Emission>, n: nat)
    requires 1 <= n <= |history|
    ensures Live(history, n) <==> Undisplaced(history, n)
  {
    forall m | n < m <= |history|
      ensures SlotOf(FrameAt(history, m)) == SlotOf(FrameAt(history, n)) <==> Drops(history, m, n)
    {
      SameSlot(FrameAt(history, m), FrameAt(history, n));
    }
    if Live(history, n) {
      forall m: nat
        ensures !Drops(history, m, n)
      {
        assert n < m <= |history| ==> SlotOf(FrameAt(history, m)) != SlotOf(FrameAt(history, n));
      }
    }
  }

  /** A poll delivers, in order and each with its number, exactly the events above the cursor that no later
      one displaces. */
  lemma PendingExactly(history: seq<Emission>, cursor: nat, f: Frame)
    ensures f in Pending(history, cursor)
       <==> f.sequence > cursor && Undisplaced(history, f.sequence) && f.emission == history[f.sequence - 1]
    ensures Ascending(Pending(history, cursor))
  {
    PendingFrames(history, cursor, |history|);
    if 1 <= f.sequence <= |history| {
      LiveExactly(history, f.sequence);
    }
  }

  /** A strictly ascending list is determined by its elements. */
  lemma {:induction false} AscendingUnique(a: seq<Frame>, b: seq<Frame>)
    requires Ascending(a) && Ascending(b) && (forall f :: f in a <==> f in b)
    ensures a == b
  {
    assert (a != [] ==> a[0] in b) && (b != [] ==> b[0] in a);
    if a != [] {
      var x, y := a[|a| - 1], b[|b| - 1];
      var a', b' := a[..|a| - 1], b[..|b| - 1];
      assert x in b && y in a;
      assert x == y;
      forall f
        ensures f in a' <==> f in b'
      {
        assert f in a <==> f in a' || f == x;
        assert f in b <==> f in b' || f == y;
        assert x !in a' && y !in b';
      }
      AscendingUnique(a', b');
    }
  }

  // ---------------------------------------------------------------- the job object

  class Job {
    const id: string
    const provider: string
    const keys: set<Item>
    var events: map<Slot, Frame>
    var sequence: nat
    var finished: bool
    ghost var history: seq<Emission>

    ghost predicate Valid()
      reads this
    {
      events == Compact(history) && sequence == |history|
    }

    constructor (id: string, provider: string, keys: set<Item>)
      ensures Valid() && this.id == id && this.provider == provider && this.keys == keys
      ensures history == [] && !finished
    {
      this.id, this.provider, this.keys := id, provider, keys;
      events, sequence, finished, history := map[], 0, false, [];
    }

    /** Called by the worker while it runs, under the lock. */
    method Emit(e: Emission)
      requires Valid() && !finished
      modifies this
      ensures Valid() && history == old(history) + [e] && finished == old(finished)
    {
      sequence := sequence + 1;
      var f := Frame(sequence, e);
      events := events[SlotOf(f) := f];
      history := history + [e];
      assert history[..|history| - 1] == old(history);
    }

    /** The thread of the job: the emissions of the work, two more if it raises, then the end. */
    method Run(script: seq<Emission>, failure: Option<string>)
      requires Valid() && !finished
      modifies this
      ensures Valid() && finished
      ensures history == old(history) + script + Tail(failure)
    {
      for i := 0 to |script|
        invariant Valid() && !finished && history == old(history) + script[..i]
      {
        Emit(script[i]);
        assert script[..i + 1] == script[..i] + [script[i]];
      }
      assert script[..|script|] == script;
      if failure.Some? {
        Emit(Failure("archive_failed", failure.value));
        Emit(Failure("error", failure.value));
      }
      finished := true;
    }

    /** One turn of a reader's loop, under the lock: the stored frames above the cursor sorted by
        sequence, and whether the job has finished. */
    method Poll(cursor: nat) returns (frames: seq<Frame>, done: bool)
      requires Valid()
      ensures frames == Pending(history, cursor) && done == finished
    {
      var above := set s | s in events && events[s].sequence > cursor :: events[s];
      StoredAbove(history, cursor, above);
      frames := Sorted(above, history);
      PendingFrames(history, cursor, |history|);
      AscendingUnique(frames, Pending(history, cursor));
      done := finished;
    }
  }

  /** The stored frames above a cursor are the pending ones. */
  lemma StoredAbove(history: seq<Emission>, cursor: nat, above: set<Frame>)
    requires above == set s | s in Compact(history) && Compact(history)[s].sequence > cursor :: Compact(history)[s]
    ensures forall f :: f in above <==> f in Pending(history, cursor)
    ensures forall f | f in above :: 1 <= f.sequence <= |history| && f == FrameAt(history, f.sequence)
  {
    PendingFrames(history, cursor, |history|);
    forall f | f in above
      ensures f in Pending(history, cursor) && 1 <= f.sequence <= |history| && f == FrameAt(history, f.sequence)
    {
      var s :| s in Compact(history) && Compact(history)[s] == f;
      CompactEntry(history, s);
    }
    forall f | f in Pending(history, cursor)
      ensures f in above
    {
      LiveStored(history, f.sequence);
    }
  }

  /** Python's `sorted` by sequence number, on frames whose numbers differ. */
  method Sorted(frames: set<Frame>, ghost history: seq<Emission>) returns (sorted: seq<Frame>)
    requires forall f | f in frames :: 1 <= f.sequence <= |history| && f == FrameAt(history, f.sequence)
    ensures Ascending(sorted) && forall f :: f in sorted <==> f in frames
  {
    sorted := [];
    var rest := frames;
    while rest != {}
      invariant rest <= frames && Ascending(sorted)
      invariant forall f :: f in frames <==> f in rest || f in sorted
      invariant forall f, g :: f in sorted && g in rest ==> f.sequence < g.sequence
      decreases |rest|
    {
      var f := Earliest(rest, history);
      sorted := sorted + [f];
      rest := rest - {f};
    }
  }

  function Failure(event: string, message: string): Emission {
    Emission(event, Payload(None, None, None, message))
  }

  /** What a raising work leaves in the log. */
  function Tail(failure: Option<string>): seq<Emission> {
    match failure
    case None => []
    case Some(message) => [Failure("archive_failed", message), Failure("error", message)]
  }

  /** The smallest of a non-empty set of frames of one history. */
  method Earliest(frames: set<Frame>, ghost history: seq<Emission>) returns (least: Frame)
    requires frames != {}
    requires forall f | f in frames :: 1 <= f.sequence <= |history| && f == FrameAt(history, f.sequence)
    ensures least in frames && forall f | f in frames && f != least :: least.sequence < f.sequence
  {
    least :| least in frames;
    var rest := frames - {least};
    while rest != {}
      invariant rest <= frames && least in frames
      invariant forall f | f in frames && f !in rest && f != least :: least.sequence < f.sequence
      decreases |rest|
    {
      var f :| f in rest;
      if f.sequence < least.sequence {
        least := f;
      }
      rest := rest - {f};
    }
  }
}
