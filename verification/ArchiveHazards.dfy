/** Traces showing that the assumptions of `ArchiveSafety` are needed. */
module ArchiveHazards {
  import opened ArchiveKeys
  import opened ArchiveProtocol
  import opened ArchiveSafety
  import opened Basics

  /** One object with an earlier and a later version, and the copy an archive run makes of the
      earlier one. */
  datatype Case = Case(w: World, source: string, archive: string, item: Item, old_: Object, new_: Object, copy: Object) {

    function At(): Location {
      Location(source, item.bucket, item.key)
    }

    function Archived(): Location {
      Location(archive, ARCHIVE_BUCKET, ArchiveDestKey(item))
    }

    predicate Valid() {
      && SlashFree(item.bucket) && item.bucket != ARCHIVE_BUCKET
      && old_.content == w.named(At(), old_.etag)
      && new_.content == w.named(At(), new_.etag)
      && copy.content == old_.content == w.named(Archived(), copy.etag)
      && new_.content != old_.content
    }

    /** Only the earlier version exists. */
    function Before(): Store {
      map[At() := old_]
    }

    /** The archive copy exists too. */
    function Copied(): Store {
      map[At() := old_, Archived() := copy]
    }

    function Initially(): State {
      State(Before(), {}, map[], [])
    }

    /** A run over `items` is in progress. */
    function Running(items: seq<Item>, store: Store, phase: Phase, workers: seq<Pc>): State {
      State(store, Keys(items), map[0 := Run(source, archive, ARCHIVE_BUCKET, items, phase, workers, [], [])], [])
    }
  }

  /** A request the protocol accepts. */
  predicate Admissible(items: seq<Item>) {
    forall item | item in items :: SlashFree(item.bucket) && item.bucket != ARCHIVE_BUCKET
  }

  /** One more event of a trace. */
  lemma Extend(c: Case, trace: seq<Event>, s: State, e: Event, s': State)
    requires Execute(c.w, c.Initially(), trace) == Some(s)
    requires Enabled(s, e) && Lawful(c.w, s, e) && Do(c.w, s, e) == s'
    ensures Execute(c.w, c.Initially(), trace + [e]) == Some(s')
  {
  }

  lemma StartRun(c: Case, items: seq<Item>) returns (trace: seq<Event>)
    requires Admissible(items)
    ensures Execute(c.w, c.Initially(), trace)
            == Some(c.Running(items, c.Before(), Copying, seq(|items|, _ => CopyPending)))
  {
    var pending := seq(|items|, _ => CopyPending);
    var e := Start(0, c.source, c.archive, ARCHIVE_BUCKET, items);
    var s1 := c.Running(items, c.Before(), Entered, pending);
    assert Do(c.w, c.Initially(), e).runs == s1.runs;
    Extend(c, [], c.Initially(), e, s1);
    var s2 := c.Running(items, c.Before(), Copying, pending);
    assert Do(c.w, s1, CheckArguments(0)).runs == s2.runs;
    Extend(c, [e], s1, CheckArguments(0), s2);
    trace := [e] + [CheckArguments(0)];
  }

  /** A step of worker `i` that changes only its own counter. */
  lemma Advance(c: Case, trace: seq<Event>, items: seq<Item>, store: Store, phase: Phase, workers: seq<Pc>,
                i: nat, e: Event, pc: Pc)
    requires i < |items| == |workers|
    requires Execute(c.w, c.Initially(), trace) == Some(c.Running(items, store, phase, workers))
    requires Enabled(c.Running(items, store, phase, workers), e) && Lawful(c.w, c.Running(items, store, phase, workers), e)
    requires Do(c.w, c.Running(items, store, phase, workers), e) == Move(c.Running(items, store, phase, workers), 0, i, pc)
    ensures Execute(c.w, c.Initially(), trace + [e]) == Some(c.Running(items, store, phase, workers[i := pc]))
  {
    var s, s' := c.Running(items, store, phase, workers), c.Running(items, store, phase, workers[i := pc]);
    assert Move(s, 0, i, pc).runs == s'.runs;
    Extend(c, trace, s, e, s');
  }

  /** The single worker of a run over one item moves from `from` to `to`. */
  lemma AdvanceAlone(c: Case, trace: seq<Event>, store: Store, phase: Phase, from: Pc, e: Event, to: Pc)
    requires Execute(c.w, c.Initially(), trace) == Some(c.Running([c.item], store, phase, [from]))
    requires var s := c.Running([c.item], store, phase, [from]);
             Enabled(s, e) && Lawful(c.w, s, e) && Do(c.w, s, e) == Move(s, 0, 0, to)
    ensures Execute(c.w, c.Initially(), trace + [e]) == Some(c.Running([c.item], store, phase, [to]))
  {
    Advance(c, trace, [c.item], store, phase, [from], 0, e, to);
    assert [from][0 := to] == [to];
  }

  /** A single worker fetches the object ... */
  lemma FetchOnce(c: Case) returns (trace: seq<Event>)
    requires c.Valid()
    ensures Execute(c.w, c.Initially(), trace)
            == Some(c.Running([c.item], c.Before(), Copying, [CopyFetched(c.old_.content)]))
  {
    trace := StartRun(c, [c.item]);
    assert seq(1, _ => CopyPending) == [CopyPending];
    AdvanceAlone(c, trace, c.Before(), Copying, CopyPending, CopyHead(0, 0), CopyAbsent);
    trace := trace + [CopyHead(0, 0)];
    AdvanceAlone(c, trace, c.Before(), Copying, CopyAbsent, CopyFetch(0, 0), CopyFetched(c.old_.content));
    trace := trace + [CopyFetch(0, 0)];
  }

  /** ... and uploads it. */
  lemma CopyOnce(c: Case) returns (trace: seq<Event>)
    requires c.Valid()
    ensures Execute(c.w, c.Initially(), trace) == Some(c.Running([c.item], c.Copied(), Verifying, [CopyEnded(true, false)]))
  {
    trace := FetchOnce(c);
    var s := c.Running([c.item], c.Before(), Copying, [CopyFetched(c.old_.content)]);
    var s' := c.Running([c.item], c.Copied(), Copying, [CopyEnded(true, false)]);
    var put := CopyPut(0, 0, c.copy, true);
    assert s.runs[0].workers[0 := CopyEnded(true, false)] == s'.runs[0].workers;
    assert Do(c.w, s, put).runs == s'.runs && Do(c.w, s, put).store == s'.store;
    Extend(c, trace, s, put, s');
    trace := trace + [put];
    var s'' := c.Running([c.item], c.Copied(), Verifying, [CopyEnded(true, false)]);
    assert Do(c.w, s', Barrier(0)).runs == s''.runs;
    Extend(c, trace, s', Barrier(0), s'');
    trace := trace + [Barrier(0)];
  }

  lemma HeadBoth(c: Case) returns (trace: seq<Event>)
    requires c.Valid()
    ensures Execute(c.w, c.Initially(), trace) == Some(c.Running([c.item], c.Copied(), Verifying, [ArchiveHeaded(Head(c.old_))]))
  {
    var m := Head(c.old_);
    trace := CopyOnce(c);
    AdvanceAlone(c, trace, c.Copied(), Verifying, CopyEnded(true, false), HeadSource(0, 0), SourceHeaded(m));
    trace := trace + [HeadSource(0, 0)];
    AdvanceAlone(c, trace, c.Copied(), Verifying, SourceHeaded(m), HeadArchive(0, 0), ArchiveHeaded(m));
    trace := trace + [HeadArchive(0, 0)];
  }

  /** The worker then verifies it. */
  lemma VerifyOnce(c: Case) returns (trace: seq<Event>)
    requires c.Valid()
    ensures Execute(c.w, c.Initially(), trace) == Some(c.Running([c.item], c.Copied(), Verifying, [Cleared(Head(c.old_))]))
  {
    var m, digest := Head(c.old_), Digest(c.w, c.old_.content);
    trace := HeadBoth(c);
    AdvanceAlone(c, trace, c.Copied(), Verifying, ArchiveHeaded(m), ReadSource(0, 0), SourceRead(m, digest));
    trace := trace + [ReadSource(0, 0)];
    AdvanceAlone(c, trace, c.Copied(), Verifying, SourceRead(m, digest), ReadArchive(0, 0), Matched(m));
    trace := trace + [ReadArchive(0, 0)];
    AdvanceAlone(c, trace, c.Copied(), Verifying, Matched(m), Recheck(0, 0), Cleared(m));
    trace := trace + [Recheck(0, 0)];
  }

  /** The window is real: for any object, if another user replaces it between the second
      HeadObject and the delete, the delete removes the replacement, and afterwards its content
      is nowhere. */
  lemma WriteInsideWindowIsLost(c: Case) returns (trace: seq<Event>)
    requires c.Valid()
    ensures Initial(c.w, c.Initially()) && Execute(c.w, c.Initially(), trace).Some?
    ensures var s := Execute(c.w, c.Initially(), trace).value;
            && (exists d | d in s.log :: d.removed == c.new_.content)
            && (forall l | l in s.store :: s.store[l].content != c.new_.content)
  {
    var items, m := [c.item], Head(c.old_);
    trace := VerifyOnce(c);
    var s := c.Running(items, c.Copied(), Verifying, [Cleared(m)]);
    var replaced := c.Running(items, c.Copied()[c.At() := c.new_], Verifying, [Cleared(m)]);
    Extend(c, trace, s, Write(c.At(), c.new_), replaced);
    trace := trace + [Write(c.At(), c.new_)];
    var s' := Do(c.w, replaced, Delete(0, 0, true, true));
    Extend(c, trace, replaced, Delete(0, 0, true, true), s');
    trace := trace + [Delete(0, 0, true, true)];
    assert s'.log == [s'.log[0]] && s'.log[0].removed == c.new_.content;
    assert s'.store == map[c.Archived() := c.copy];
  }

  /** Two workers of one run have the same object to copy. */
  predicate Twins(c: Case, items: seq<Item>, i: nat, j: nat) {
    c.Valid() && Admissible(items) && i < |items| && j < |items| && i != j && items[i] == items[j] == c.item
  }

  /** Both are told that there is no archive entry. */
  lemma BothFindNothing(c: Case, items: seq<Item>, i: nat, j: nat) returns (trace: seq<Event>, workers: seq<Pc>)
    requires Twins(c, items, i, j)
    ensures |workers| == |items| && workers[i] == workers[j] == CopyAbsent
    ensures Execute(c.w, c.Initially(), trace) == Some(c.Running(items, c.Before(), Copying, workers))
  {
    trace := StartRun(c, items);
    workers := seq(|items|, _ => CopyPending);
    Advance(c, trace, items, c.Before(), Copying, workers, j, CopyHead(0, j), CopyAbsent);
    trace, workers := trace + [CopyHead(0, j)], workers[j := CopyAbsent];
    Advance(c, trace, items, c.Before(), Copying, workers, i, CopyHead(0, i), CopyAbsent);
    trace, workers := trace + [CopyHead(0, i)], workers[i := CopyAbsent];
  }

  /** Then the one uploads its object ... */
  lemma FirstUploads(c: Case, items: seq<Item>, i: nat, j: nat) returns (trace: seq<Event>, workers: seq<Pc>)
    requires Twins(c, items, i, j)
    ensures |workers| == |items| && workers[i] == CopyAbsent
    ensures Execute(c.w, c.Initially(), trace) == Some(c.Running(items, c.Copied(), Copying, workers))
  {
    var body := CopyFetched(c.old_.content);
    trace, workers := BothFindNothing(c, items, i, j);
    Advance(c, trace, items, c.Before(), Copying, workers, j, CopyFetch(0, j), body);
    trace, workers := trace + [CopyFetch(0, j)], workers[j := body];
    var s := c.Running(items, c.Before(), Copying, workers);
    workers := workers[j := CopyEnded(true, false)];
    var s' := c.Running(items, c.Copied(), Copying, workers);
    var put := CopyPut(0, j, c.copy, true);
    assert Do(c.w, s, put).runs == s'.runs && Do(c.w, s, put).store == s'.store;
    Extend(c, trace, s, put, s');
    trace := trace + [put];
  }

  /** ... another user replaces the source, and the other fetches that. */
  lemma SecondFetches(c: Case, items: seq<Item>, i: nat, j: nat) returns (trace: seq<Event>, workers: seq<Pc>)
    requires Twins(c, items, i, j)
    ensures |workers| == |items| && workers[i] == CopyFetched(c.new_.content)
    ensures Execute(c.w, c.Initially(), trace)
            == Some(c.Running(items, c.Copied()[c.At() := c.new_], Copying, workers))
  {
    var changed, body := c.Copied()[c.At() := c.new_], CopyFetched(c.new_.content);
    trace, workers := FirstUploads(c, items, i, j);
    Extend(c, trace, c.Running(items, c.Copied(), Copying, workers), Write(c.At(), c.new_),
           c.Running(items, changed, Copying, workers));
    trace := trace + [Write(c.At(), c.new_)];
    Advance(c, trace, items, changed, Copying, workers, i, CopyFetch(0, i), body);
    trace, workers := trace + [CopyFetch(0, i)], workers[i := body];
  }

  /** After the trace, the upload of item `i` of a run over `items` is about to replace an archive
      entry of different content. */
  predicate Overwrites(c: Case, items: seq<Item>, i: nat, trace: seq<Event>, e: Event) {
    i < |items| && Execute(c.w, c.Initially(), trace).Some? &&
    var s := Execute(c.w, c.Initially(), trace).value;
    && e.CopyPut? && Enabled(s, e) && Lawful(c.w, s, e)
    && s.runs[e.id].items == items && e.index == i
    && ArchiveOf(s.runs[e.id], i) in s.store
    && s.store[ArchiveOf(s.runs[e.id], i)].content != e.version.content
  }

  /** "Never overwrites" needs requests without repetitions: any accepted request that names an
      object twice reaches a state where its next upload replaces a different archive entry. */
  lemma RepeatedItemOverwrites(c: Case, second: Object, items: seq<Item>, i: nat) returns (trace: seq<Event>, e: Event)
    requires c.Valid() && second.content == c.new_.content == c.w.named(c.Archived(), second.etag)
    requires Admissible(items) && i < |items| && items[i] == c.item && !Unrepeated(items, i)
    ensures Overwrites(c, items, i, trace, e)
  {
    var j :| 0 <= j < |items| && j != i && items[j] == items[i];
    var workers;
    trace, workers := SecondFetches(c, items, i, j);
    e := CopyPut(0, i, second, true);
  }

  /** So an upload for an item can replace an archive entry if and only if the request names the
      item more than once. */
  lemma OverwritesExactly(c: Case, second: Object, items: seq<Item>, i: nat)
    requires Trusted(c.w) && c.Valid() && second.content == c.new_.content == c.w.named(c.Archived(), second.etag)
    requires Admissible(items) && i < |items| && items[i] == c.item
    ensures (exists trace, e :: Overwrites(c, items, i, trace, e)) <==> !Unrepeated(items, i)
  {
    if Unrepeated(items, i) {
      forall trace, e | Overwrites(c, items, i, trace, e)
        ensures false
      {
        CopyNeverOverwrites(c.w, c.Initially(), trace, e);
      }
    } else {
      var trace, e := RepeatedItemOverwrites(c, second, items, i);
    }
  }

  /** The premises of these lemmas are met by an everyday object, and by its second version. */
  lemma SampleCase() returns (c: Case, second: Object)
    ensures c.Valid() && Trusted(c.w)
    ensures second.content == c.new_.content == c.w.named(c.Archived(), second.etag)
    ensures Admissible([c.item, c.item]) && !Unrepeated([c.item, c.item], 0)
  {
    var w := World((content: Bytes) => Spell(content), (l: Location, etag: string) => if etag == "v1" then [1] else [2]);
    c := Case(w, "do", "aws", Item("school", "photo"), Object([1], "v1", 0, ""), Object([2], "v2", 1, ""),
              Object([1], "v1", 0, ""));
    second := Object([2], "v2", 1, "");
    assert c.item.bucket[1] == 'c' != 'h';
    assert [c.item, c.item][1] == c.item;
    forall a, b | w.sha256(a) == w.sha256(b)
      ensures a == b
    {
      SpellInjective(a, b);
    }
  }

  function Spell(content: Bytes): string {
    seq(|content|, i requires 0 <= i < |content| => content[i] as char)
  }

  lemma SpellInjective(a: Bytes, b: Bytes)
    requires Spell(a) == Spell(b)
    ensures a == b
  {
    assert |Spell(a)| == |Spell(b)|;
    forall i | 0 <= i < |a|
      ensures a[i] == b[i]
    {
      assert Spell(a)[i] == a[i] as char && Spell(b)[i] == b[i] as char;
      assert (a[i] as char) as int == a[i] as int && (b[i] as char) as int == b[i] as int;
    }
  }
}
