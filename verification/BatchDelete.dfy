/** delete_objects: grouping by bucket, batching, concurrent batch requests, audit trail. */
module BatchDelete {
  import opened ArchiveKeys
  import opened ArchiveProtocol
  import opened Basics
  import opened Clouds

  datatype Chunk = Chunk(bucket: string, keys: seq<string>)

  // ---------------------------------------------------------------- grouping and batching

  /** The buckets of a request, in the order of their first appearance. */
  function Buckets(items: seq<Item>): seq<string> {
    if items == [] then []
    else
      var front := Buckets(items[..|items| - 1]);
      var bucket := items[|items| - 1].bucket;
      if bucket in front then front else front + [bucket]
  }

  /** The keys requested in one bucket, in request order. */
  function KeysFor(items: seq<Item>, bucket: string): seq<string> {
    if items == [] then []
    else
      var last := items[|items| - 1];
      KeysFor(items[..|items| - 1], bucket) + if last.bucket == bucket then [last.key] else []
  }

  /** Consecutive batches of at most `batch` keys. */
  function Batches(bucket: string, keys: seq<string>, batch: nat): seq<Chunk>
    requires batch > 0
  {
    if keys == [] then []
    else if |keys| <= batch then [Chunk(bucket, keys)]
    else [Chunk(bucket, keys[..batch])] + Batches(bucket, keys[batch..], batch)
  }

  function BatchesOf(items: seq<Item>, buckets: seq<string>, batch: nat): seq<Chunk>
    requires batch > 0
  {
    if buckets == [] then []
    else
      var last := buckets[|buckets| - 1];
      BatchesOf(items, buckets[..|buckets| - 1], batch) + Batches(last, KeysFor(items, last), batch)
  }

  /** All the batches of a request. */
  function Chunks(items: seq<Item>, batch: nat): seq<Chunk>
    requires batch > 0
  {
    BatchesOf(items, Buckets(items), batch)
  }

  /** The keys that a list of batches sends to one bucket, in order. */
  function Sent(chunks: seq<Chunk>, bucket: string): seq<string> {
    if chunks == [] then []
    else
      var last := chunks[|chunks| - 1];
      Sent(chunks[..|chunks| - 1], bucket) + if last.bucket == bucket then last.keys else []
  }

  function Size(chunks: seq<Chunk>): nat {
    if chunks == [] then 0 else Size(chunks[..|chunks| - 1]) + |chunks[|chunks| - 1].keys|
  }

  lemma {:induction false} SentConcat(a: seq<Chunk>, b: seq<Chunk>, bucket: string)
    ensures Sent(a + b, bucket) == Sent(a, bucket) + Sent(b, bucket)
    ensures Size(a + b) == Size(a) + Size(b)
  {
    if b == [] {
      assert a + b == a;
    } else {
      var front := b[..|b| - 1];
      SentConcat(a, front, bucket);
      assert (a + b)[..|a + b| - 1] == a + front;
    }
  }

  ghost predicate WellBatched(chunks: seq<Chunk>, batch: nat) {
    forall c | c in chunks :: 0 < |c.keys| <= batch
  }

  lemma {:induction false} BatchesFit(bucket: string, keys: seq<string>, batch: nat)
    requires batch > 0
    ensures WellBatched(Batches(bucket, keys, batch), batch)
    ensures forall c | c in Batches(bucket, keys, batch) :: c.bucket == bucket
    decreases |keys|
  {
    if |keys| > batch {
      BatchesFit(bucket, keys[batch..], batch);
    }
  }

  lemma SingleSends(chunk: Chunk, b: string)
    ensures Sent([chunk], b) == (if b == chunk.bucket then chunk.keys else []) && Size([chunk]) == |chunk.keys|
  {
  }

  lemma {:induction false} BatchesSendOne(bucket: string, keys: seq<string>, batch: nat, b: string)
    requires batch > 0
    ensures Sent(Batches(bucket, keys, batch), b) == if b == bucket then keys else []
    ensures Size(Batches(bucket, keys, batch)) == |keys|
    decreases |keys|
  {
    if |keys| > batch {
      var head, tail := Chunk(bucket, keys[..batch]), Batches(bucket, keys[batch..], batch);
      BatchesSendOne(bucket, keys[batch..], batch, b);
      SentConcat([head], tail, b);
      SingleSends(head, b);
      assert keys[..batch] + keys[batch..] == keys;
    } else if keys != [] {
      SingleSends(Chunk(bucket, keys), b);
    }
  }

  lemma {:induction false} BucketsDistinct(items: seq<Item>)
    ensures NoDup(Buckets(items))
    ensures forall b :: b in Buckets(items) <==> exists k :: 0 <= k < |items| && items[k].bucket == b
  {
    if items != [] {
      var front := items[..|items| - 1];
      BucketsDistinct(front);
      forall b
        ensures b in Buckets(items) <==> exists k :: 0 <= k < |items| && items[k].bucket == b
      {
        if b in Buckets(front) {
          var k :| 0 <= k < |front| && front[k].bucket == b;
          assert items[k].bucket == b;
        }
        if k :| 0 <= k < |items| && items[k].bucket == b {
          if k < |front| {
            assert front[k].bucket == b;
          }
        }
      }
    }
  }

  lemma {:induction false} UnusedBucketEmpty(items: seq<Item>, bucket: string)
    requires forall k :: 0 <= k < |items| ==> items[k].bucket != bucket
    ensures KeysFor(items, bucket) == []
  {
    if items != [] {
      UnusedBucketEmpty(items[..|items| - 1], bucket);
    }
  }

  lemma {:induction false} BatchesOfFit(items: seq<Item>, buckets: seq<string>, batch: nat)
    requires batch > 0
    ensures WellBatched(BatchesOf(items, buckets, batch), batch)
  {
    if buckets != [] {
      var last := buckets[|buckets| - 1];
      BatchesOfFit(items, buckets[..|buckets| - 1], batch);
      BatchesFit(last, KeysFor(items, last), batch);
    }
  }

  lemma LastIsNew(buckets: seq<string>)
    requires NoDup(buckets) && buckets != []
    ensures NoDup(buckets[..|buckets| - 1]) && buckets[|buckets| - 1] !in buckets[..|buckets| - 1]
    ensures forall b :: b in buckets <==> b in buckets[..|buckets| - 1] || b == buckets[|buckets| - 1]
  {
  }

  lemma {:induction false} BatchesOfSend(items: seq<Item>, buckets: seq<string>, batch: nat, b: string)
    requires batch > 0 && NoDup(buckets)
    ensures Sent(BatchesOf(items, buckets, batch), b) == if b in buckets then KeysFor(items, b) else []
  {
    if buckets == [] {
      assert BatchesOf(items, buckets, batch) == [];
    } else {
      var front, last := buckets[..|buckets| - 1], buckets[|buckets| - 1];
      LastIsNew(buckets);
      BatchesOfSend(items, front, batch, b);
      BatchesSendOne(last, KeysFor(items, last), batch, b);
      SentConcat(BatchesOf(items, front, batch), Batches(last, KeysFor(items, last), batch), b);
    }
  }

  /** How many requested keys fall into the listed buckets. */
  function CountIn(items: seq<Item>, buckets: seq<string>): nat {
    if items == [] then 0
    else CountIn(items[..|items| - 1], buckets) + if items[|items| - 1].bucket in buckets then 1 else 0
  }

  lemma {:induction false} CountExtend(items: seq<Item>, buckets: seq<string>, bucket: string)
    requires bucket !in buckets
    ensures CountIn(items, buckets + [bucket]) == CountIn(items, buckets) + |KeysFor(items, bucket)|
  {
    if items != [] {
      CountExtend(items[..|items| - 1], buckets, bucket);
    }
  }

  lemma {:induction false} BatchesOfSize(items: seq<Item>, buckets: seq<string>, batch: nat)
    requires batch > 0 && NoDup(buckets)
    ensures Size(BatchesOf(items, buckets, batch)) == CountIn(items, buckets)
  {
    if buckets != [] {
      var front, last := buckets[..|buckets| - 1], buckets[|buckets| - 1];
      BatchesOfSize(items, front, batch);
      BatchesSendOne(last, KeysFor(items, last), batch, last);
      SentConcat(BatchesOf(items, front, batch), Batches(last, KeysFor(items, last), batch), last);
      assert last !in front;
      CountExtend(items, front, last);
      assert front + [last] == buckets;
    } else {
      NoneCounted(items);
    }
  }

  lemma {:induction false} NoneCounted(items: seq<Item>)
    ensures CountIn(items, []) == 0
  {
    if items != [] {
      NoneCounted(items[..|items| - 1]);
    }
  }

  lemma {:induction false} AllCounted(items: seq<Item>, buckets: seq<string>)
    requires forall k :: 0 <= k < |items| ==> items[k].bucket in buckets
    ensures CountIn(items, buckets) == |items|
  {
    if items != [] {
      AllCounted(items[..|items| - 1], buckets);
    }
  }

  lemma ChunksSend(items: seq<Item>, batch: nat, bucket: string)
    requires batch > 0
    ensures Sent(Chunks(items, batch), bucket) == KeysFor(items, bucket)
  {
    BucketsDistinct(items);
    BatchesOfSend(items, Buckets(items), batch, bucket);
    if bucket !in Buckets(items) {
      UnusedBucketEmpty(items, bucket);
    }
  }

  /** The batches partition the request: each is non-empty, stays within one bucket and the
      batch size, and per bucket they carry exactly the requested keys, in order. */
  lemma ChunksPartition(items: seq<Item>, batch: nat)
    requires batch > 0
    ensures WellBatched(Chunks(items, batch), batch)
    ensures forall bucket :: Sent(Chunks(items, batch), bucket) == KeysFor(items, bucket)
    ensures Size(Chunks(items, batch)) == |items|
  {
    BucketsDistinct(items);
    BatchesOfFit(items, Buckets(items), batch);
    BatchesOfSize(items, Buckets(items), batch);
    AllCounted(items, Buckets(items));
    forall bucket
      ensures Sent(Chunks(items, batch), bucket) == KeysFor(items, bucket)
    {
      ChunksSend(items, batch, bucket);
    }
  }

  lemma {:induction false} KeysForContains(items: seq<Item>, bucket: string, key: string)
    ensures key in KeysFor(items, bucket) <==> Item(bucket, key) in items
  {
    if items != [] {
      KeysForContains(items[..|items| - 1], bucket, key);
      assert items == items[..|items| - 1] + [items[|items| - 1]];
    }
  }

  lemma {:induction false} SentContains(chunks: seq<Chunk>, bucket: string, key: string)
    ensures key in Sent(chunks, bucket) <==> exists c :: c in chunks && c.bucket == bucket && key in c.keys
  {
    if chunks != [] {
      var front, last := chunks[..|chunks| - 1], chunks[|chunks| - 1];
      SentContains(front, bucket, key);
      assert chunks == front + [last];
    }
  }

  /** The batches name no object that was not requested, and leave none out. */
  lemma ChunksNameRequests(items: seq<Item>, batch: nat, bucket: string, key: string)
    requires batch > 0
    ensures (exists c :: c in Chunks(items, batch) && c.bucket == bucket && key in c.keys) <==> Item(bucket, key) in items
  {
    ChunksPartition(items, batch);
    SentContains(Chunks(items, batch), bucket, key);
    KeysForContains(items, bucket, key);
  }

  // ---------------------------------------------------------------- the request

  /** What a DeleteObjects request answers. */
  datatype Reply = Failed | Replied(deleted: seq<string>, errors: seq<string>)

  /** A reply together with what the provider really removed, which a lost reply does not tell. */
  datatype Answer = Answer(removed: set<string>, reply: Reply)

  /** A provider removes nothing it was not asked to, and what it confirms is gone. */
  predicate Honest(chunk: Chunk, answer: Answer) {
    && (forall k | k in answer.removed :: k in chunk.keys)
    && (answer.reply.Replied? ==> forall k | k in answer.reply.deleted :: k in answer.removed)
  }

  datatype DeleteResult = DeleteResult(item: Item, success: bool)

  /** The answer to `chunk` confirms the deletion of `item`. */
  predicate Confirms(chunk: Chunk, answer: Answer, item: Item) {
    chunk.bucket == item.bucket && answer.reply.Replied? && item.key in answer.reply.deleted
  }

  /** The answer to `chunk` reports a failure for `item`. */
  predicate Denies(chunk: Chunk, answer: Answer, item: Item) {
    chunk.bucket == item.bucket &&
    match answer.reply
    case Failed => item.key in chunk.keys
    case Replied(_, errors) => item.key in errors
  }

  /** Folds one batch's outcomes into the audit dictionary, as the loop over batch_results does. */
  function Record(outcomes: map<Item, bool>, bucket: string, keys: seq<string>, success: bool): map<Item, bool> {
    if keys == [] then outcomes
    else Record(outcomes, bucket, keys[..|keys| - 1], success)[Item(bucket, keys[|keys| - 1]) := success]
  }

  lemma {:induction false} RecordEntries(outcomes: map<Item, bool>, bucket: string, keys: seq<string>, success: bool, item: Item)
    ensures item.bucket == bucket && item.key in keys ==>
              item in Record(outcomes, bucket, keys, success) && Record(outcomes, bucket, keys, success)[item] == success
    ensures !(item.bucket == bucket && item.key in keys) ==>
              (item in Record(outcomes, bucket, keys, success) <==> item in outcomes) &&
              (item in outcomes ==> Record(outcomes, bucket, keys, success)[item] == outcomes[item])
  {
    if keys != [] {
      RecordEntries(outcomes, bucket, keys[..|keys| - 1], success, item);
      assert keys == keys[..|keys| - 1] + [keys[|keys| - 1]];
      assert Item(item.bucket, item.key) == item;
    }
  }

  /** The audit dictionary after one batch: the deleted keys, then the errors, or a failure for
      the whole batch. */
  function RecordAnswer(outcomes: map<Item, bool>, chunk: Chunk, answer: Answer): map<Item, bool> {
    match answer.reply
    case Failed => Record(outcomes, chunk.bucket, chunk.keys, false)
    case Replied(deleted, errors) => Record(Record(outcomes, chunk.bucket, deleted, true), chunk.bucket, errors, false)
  }

  /** The dictionary answers for an item what the last batch that mentions it says. */
  lemma RecordAnswerEntries(outcomes: map<Item, bool>, chunk: Chunk, answer: Answer, item: Item)
    ensures var after := RecordAnswer(outcomes, chunk, answer);
            && (Denies(chunk, answer, item) ==> item in after && !after[item])
            && (!Denies(chunk, answer, item) && Confirms(chunk, answer, item) ==> item in after && after[item])
            && (!Denies(chunk, answer, item) && !Confirms(chunk, answer, item) ==>
                  (item in after <==> item in outcomes) && (item in outcomes ==> after[item] == outcomes[item]))
  {
    match answer.reply
    case Failed =>
      RecordEntries(outcomes, chunk.bucket, chunk.keys, false, item);
    case Replied(deleted, errors) =>
      RecordEntries(outcomes, chunk.bucket, deleted, true, item);
      RecordEntries(Record(outcomes, chunk.bucket, deleted, true), chunk.bucket, errors, false, item);
  }

  /** The dictionary after the batches of a schedule. */
  function FoldAnswers(chunks: seq<Chunk>, answers: seq<Answer>, order: seq<nat>): map<Item, bool>
    requires |answers| == |chunks| && forall k :: 0 <= k < |order| ==> order[k] < |chunks|
  {
    if order == [] then map[]
    else
      var last := order[|order| - 1];
      RecordAnswer(FoldAnswers(chunks, answers, order[..|order| - 1]), chunks[last], answers[last])
  }

  /** The answer to `chunk` says something about `item`. */
  predicate Mentions(chunk: Chunk, answer: Answer, item: Item) {
    Confirms(chunk, answer, item) || Denies(chunk, answer, item)
  }

  /** Of a schedule's batches, number `m` is the last that mentions the item. */
  ghost predicate LastWord(chunks: seq<Chunk>, answers: seq<Answer>, order: seq<nat>, m: nat, item: Item)
    requires |answers| == |chunks| && forall k :: 0 <= k < |order| ==> order[k] < |chunks|
  {
    && m < |order| && Mentions(chunks[order[m]], answers[order[m]], item)
    && forall k :: m < k < |order| ==> !Mentions(chunks[order[k]], answers[order[k]], item)
  }

  /** An item has an entry if and only if some answer mentions it, and the entry says what the last
      of these answers says; an answer that both confirms and denies it counts as a failure. */
  lemma {:induction false} FoldAnswersEntries(chunks: seq<Chunk>, answers: seq<Answer>, order: seq<nat>, item: Item)
    requires |answers| == |chunks| && forall k :: 0 <= k < |order| ==> order[k] < |chunks|
    ensures item in FoldAnswers(chunks, answers, order) <==> exists m: nat :: LastWord(chunks, answers, order, m, item)
    ensures forall m: nat :: LastWord(chunks, answers, order, m, item) ==>
              item in FoldAnswers(chunks, answers, order) &&
              FoldAnswers(chunks, answers, order)[item] == !Denies(chunks[order[m]], answers[order[m]], item)
  {
    if order != [] {
      var n: nat := |order| - 1;
      var front, last := order[..n], order[n];
      FoldAnswersEntries(chunks, answers, front, item);
      RecordAnswerEntries(FoldAnswers(chunks, answers, front), chunks[last], answers[last], item);
      if Mentions(chunks[last], answers[last], item) {
        assert LastWord(chunks, answers, order, n, item);
      } else {
        forall m: nat
          ensures LastWord(chunks, answers, order, m, item) <==> LastWord(chunks, answers, front, m, item)
        {
          LastWordExtend(chunks, answers, order, m, item);
        }
      }
    }
  }

  lemma LastWordExtend(chunks: seq<Chunk>, answers: seq<Answer>, order: seq<nat>, m: nat, item: Item)
    requires |answers| == |chunks| && order != [] && forall k :: 0 <= k < |order| ==> order[k] < |chunks|
    requires var n := |order| - 1; !Mentions(chunks[order[n]], answers[order[n]], item)
    ensures LastWord(chunks, answers, order, m, item) <==> LastWord(chunks, answers, order[..|order| - 1], m, item)
  {
    var front := order[..|order| - 1];
    if LastWord(chunks, answers, front, m, item) {
      forall k | m < k < |order|
        ensures !Mentions(chunks[order[k]], answers[order[k]], item)
      {
        assert k < |front| ==> front[k] == order[k];
      }
    }
    if LastWord(chunks, answers, order, m, item) {
      forall k | m < k < |front|
        ensures !Mentions(chunks[front[k]], answers[front[k]], item)
      {
        assert front[k] == order[k];
      }
    }
  }

  /** The locations a batch's request removed. */
  ghost function Removed(provider: string, chunk: Chunk, answer: Answer): set<Location> {
    set k | k in answer.removed :: Location(provider, chunk.bucket, k)
  }

  /** The dictionary of keys by bucket, with its insertion order. */
  method GroupByBucket(items: seq<Item>) returns (order: seq<string>, byBucket: map<string, seq<string>>)
    ensures order == Buckets(items)
    ensures byBucket.Keys == set b | b in order
    ensures forall b :: b in byBucket ==> byBucket[b] == KeysFor(items, b)
  {
    order, byBucket := [], map[];
    for i := 0 to |items|
      invariant order == Buckets(items[..i])
      invariant forall b :: b in byBucket <==> b in order
      invariant forall b :: b in byBucket ==> byBucket[b] == KeysFor(items[..i], b)
    {
      var item := items[i];
      assert items[..i + 1][..i] == items[..i];
      if item.bucket !in byBucket {
        BucketsDistinct(items[..i]);
        UnusedBucketEmpty(items[..i], item.bucket);
        order := order + [item.bucket];
        byBucket := byBucket[item.bucket := [item.key]];
      } else {
        byBucket := byBucket[item.bucket := byBucket[item.bucket] + [item.key]];
      }
    }
    assert items[..|items|] == items;
  }

  lemma NextBatch(bucket: string, keys: seq<string>, start: nat, end: nat, batch: nat)
    requires 0 < batch && start < end <= |keys| && end == if start + batch < |keys| then start + batch else |keys|
    ensures Batches(bucket, keys[start..], batch)
         == [Chunk(bucket, keys[start..end])] + if end < |keys| then Batches(bucket, keys[end..], batch) else []
  {
    var rest := keys[start..];
    if end < |keys| {
      assert rest[..batch] == keys[start..end] && rest[batch..] == keys[end..];
    } else {
      assert rest == keys[start..end];
    }
  }

  method CutBatches(bucket: string, keys: seq<string>, batch: nat) returns (chunks: seq<Chunk>)
    requires batch > 0
    ensures chunks == Batches(bucket, keys, batch)
  {
    chunks := [];
    var start := 0;
    ghost var rest := Batches(bucket, keys, batch);
    assert keys[0..] == keys;
    while start < |keys|
      invariant 0 <= start
      invariant rest == if start < |keys| then Batches(bucket, keys[start..], batch) else []
      invariant chunks + rest == Batches(bucket, keys, batch)
    {
      var end := if start + batch < |keys| then start + batch else |keys|;
      NextBatch(bucket, keys, start, end, batch);
      assert chunks + rest == chunks + [rest[0]] + rest[1..];
      chunks, rest := chunks + [Chunk(bucket, keys[start..end])], rest[1..];
      start := start + batch;
    }
  }

  /** Groups the request by bucket and cuts it into batches. */
  method BuildChunks(items: seq<Item>, batch: nat) returns (chunks: seq<Chunk>)
    requires batch > 0
    ensures chunks == Chunks(items, batch)
  {
    var order, byBucket := GroupByBucket(items);
    chunks := [];
    for j := 0 to |order|
      invariant chunks == BatchesOf(items, order[..j], batch)
    {
      var more := CutBatches(order[j], byBucket[order[j]], batch);
      assert order[..j + 1][..j] == order[..j];
      chunks := chunks + more;
    }
    assert order[..|order|] == order;
  }

  function Sizes(chunks: seq<Chunk>): (r: seq<nat>)
    ensures |r| == |chunks| && forall c :: 0 <= c < |chunks| ==> r[c] == |chunks[c].keys|
  {
    seq(|chunks|, c requires 0 <= c < |chunks| => |chunks[c].keys|)
  }

  lemma {:induction false} SizesAddUp(chunks: seq<Chunk>)
    ensures Sum(Sizes(chunks)) == Size(chunks)
  {
    if chunks != [] {
      SizesAddUp(chunks[..|chunks| - 1]);
      assert Sizes(chunks)[..|chunks| - 1] == Sizes(chunks[..|chunks| - 1]);
    }
  }

  /** One worker sends one batch and folds the answer into the dictionary. */
  method SendBatch(cloud: Cloud, provider: string, chunk: Chunk, answer: Answer, outcomes: map<Item, bool>)
    returns (after: map<Item, bool>)
    modifies cloud
    ensures cloud.objects == old(cloud.objects) - Removed(provider, chunk, answer)
    ensures after == RecordAnswer(outcomes, chunk, answer)
  {
    cloud.objects := cloud.objects - set k | k in answer.removed :: Location(provider, chunk.bucket, k);
    after := outcomes;
    match answer.reply
    case Failed =>
      after := RecordKeys(after, chunk.bucket, chunk.keys, false);
    case Replied(deleted, errors) =>
      after := RecordKeys(after, chunk.bucket, deleted, true);
      after := RecordKeys(after, chunk.bucket, errors, false);
  }

  method RecordKeys(outcomes: map<Item, bool>, bucket: string, keys: seq<string>, success: bool) returns (after: map<Item, bool>)
    ensures after == Record(outcomes, bucket, keys, success)
  {
    after := outcomes;
    for k := 0 to |keys|
      invariant after == Record(outcomes, bucket, keys[..k], success)
    {
      assert keys[..k + 1][..k] == keys[..k];
      after := after[Item(bucket, keys[k]) := success];
    }
    assert keys[..|keys|] == keys;
  }

  /** Everything the batches of a schedule removed. */
  ghost function AllRemoved(provider: string, chunks: seq<Chunk>, answers: seq<Answer>, order: seq<nat>): set<Location>
    requires |answers| == |chunks| && forall k :: 0 <= k < |order| ==> order[k] < |chunks|
  {
    set m, l | 0 <= m < |order| && l in Removed(provider, chunks[order[m]], answers[order[m]]) :: l
  }

  /** Everything the batches removed, in whatever order they were sent. */
  ghost function Emptied(provider: string, chunks: seq<Chunk>, answers: seq<Answer>): set<Location>
    requires |answers| == |chunks|
  {
    set c, l | 0 <= c < |chunks| && l in Removed(provider, chunks[c], answers[c]) :: l
  }

  lemma AllRemovedExtend(provider: string, chunks: seq<Chunk>, answers: seq<Answer>, order: seq<nat>, n: nat)
    requires |answers| == |chunks| && n < |order| && forall k :: 0 <= k < |order| ==> order[k] < |chunks|
    ensures AllRemoved(provider, chunks, answers, order[..n + 1])
         == AllRemoved(provider, chunks, answers, order[..n]) + Removed(provider, chunks[order[n]], answers[order[n]])
  {
  }

  lemma AllRemovedInAnyOrder(provider: string, chunks: seq<Chunk>, answers: seq<Answer>, order: seq<nat>)
    requires |answers| == |chunks| && IsSchedule(order, |chunks|)
    ensures AllRemoved(provider, chunks, answers, order) == Emptied(provider, chunks, answers)
  {
    forall l | l in Emptied(provider, chunks, answers)
      ensures l in AllRemoved(provider, chunks, answers, order)
    {
      var c: nat :| c < |chunks| && l in Removed(provider, chunks[c], answers[c]);
      assert c in order;
      var m :| 0 <= m < |order| && order[m] == c;
    }
  }

  /** The counter's values: after every worker of the schedule, the keys handled so far. */
  ghost predicate CountsOf(chunks: seq<Chunk>, order: seq<nat>, counts: seq<nat>)
    requires forall k :: 0 <= k < |order| ==> order[k] < |chunks|
  {
    |counts| == |order| && forall n :: 0 <= n < |counts| ==> counts[n] == Total(Sizes(chunks), order[..n + 1])
  }

  lemma {:induction false} CountsIncrease(chunks: seq<Chunk>, order: seq<nat>, counts: seq<nat>, p: nat, q: nat)
    requires forall k :: 0 <= k < |order| ==> order[k] < |chunks|
    requires CountsOf(chunks, order, counts) && p < q < |counts|
    requires forall c | c in chunks :: c.keys != []
    ensures 0 < counts[p] < counts[q]
    decreases q
  {
    assert chunks[order[p]] in chunks && chunks[order[q]] in chunks;
    assert order[..p + 1][..p] == order[..p] && order[..q + 1][..q] == order[..q];
    if p < q - 1 {
      CountsIncrease(chunks, order, counts, p, q - 1);
    }
  }

  lemma CountsReachTotal(chunks: seq<Chunk>, order: seq<nat>, counts: seq<nat>)
    requires IsSchedule(order, |chunks|) && CountsOf(chunks, order, counts) && chunks != []
    ensures |counts| == |chunks| && counts[|counts| - 1] == Size(chunks)
  {
    ScheduleLength(order, |chunks|);
    TotalOfSchedule(Sizes(chunks), order);
    SizesAddUp(chunks);
    assert order[..|order|] == order;
  }

  /** A progress report: the count its worker got from the counter, and the batch's bucket. */
  datatype Progress = Progress(completed: nat, bucket: string)

  /** The reports, `reporting[k]` telling which worker's report came k-th. */
  function Reports(chunks: seq<Chunk>, order: seq<nat>, counts: seq<nat>, reporting: seq<nat>): (reports: seq<Progress>)
    requires |counts| == |order| && forall k :: 0 <= k < |order| ==> order[k] < |chunks|
    requires forall k :: 0 <= k < |reporting| ==> reporting[k] < |order|
    ensures |reports| == |reporting|
    ensures forall k :: 0 <= k < |reports| ==>
              reports[k] == Progress(counts[reporting[k]], chunks[order[reporting[k]]].bucket)
  {
    seq(|reporting|, k requires 0 <= k < |reporting| => Progress(counts[reporting[k]], chunks[order[reporting[k]]].bucket))
  }

  /** Sends every batch.  `answers[c]` is what the provider does with batch c; `order` is the order
      in which the workers record their answers and increment the counter.  A worker reports after
      it has released the lock, so the reports come in an order of their own, `reporting`. */
  method SendAll(cloud: Cloud, provider: string, chunks: seq<Chunk>, answers: seq<Answer>, order: seq<nat>, reporting: seq<nat>)
    returns (outcomes: map<Item, bool>, counts: seq<nat>, progress: seq<Progress>)
    requires |answers| == |chunks| && IsSchedule(order, |chunks|) && IsSchedule(reporting, |order|)
    modifies cloud
    ensures cloud.objects == old(cloud.objects) - Emptied(provider, chunks, answers)
    ensures outcomes == FoldAnswers(chunks, answers, order)
    ensures CountsOf(chunks, order, counts)
    ensures progress == Reports(chunks, order, counts, reporting)
  {
    var completed: nat := 0;
    outcomes, counts := map[], [];
    for n := 0 to |order|
      invariant |counts| == n && CountsOf(chunks, order[..n], counts)
      invariant completed == Total(Sizes(chunks), order[..n])
      invariant outcomes == FoldAnswers(chunks, answers, order[..n])
      invariant cloud.objects == old(cloud.objects) - AllRemoved(provider, chunks, answers, order[..n])
    {
      var chunk, answer := chunks[order[n]], answers[order[n]];
      outcomes := SendBatch(cloud, provider, chunk, answer, outcomes);
      AllRemovedExtend(provider, chunks, answers, order, n);
      assert order[..n + 1][..n] == order[..n];
      completed := completed + |chunk.keys|;
      CountsExtend(chunks, order, n, counts, completed);
      counts := counts + [completed];
    }
    assert order[..|order|] == order;
    AllRemovedInAnyOrder(provider, chunks, answers, order);
    progress := Reports(chunks, order, counts, reporting);
  }

  lemma CountsExtend(chunks: seq<Chunk>, order: seq<nat>, n: nat, counts: seq<nat>, completed: nat)
    requires n < |order| && forall k :: 0 <= k < |order| ==> order[k] < |chunks|
    requires CountsOf(chunks, order[..n], counts) && completed == Total(Sizes(chunks), order[..n]) + |chunks[order[n]].keys|
    ensures CountsOf(chunks, order[..n + 1], counts + [completed])
    ensures completed == Total(Sizes(chunks), order[..n + 1])
  {
    assert order[..n + 1][..n] == order[..n];
    forall k | 0 <= k < n
      ensures counts[k] == Total(Sizes(chunks), order[..n + 1][..k + 1])
    {
      assert order[..n + 1][..k + 1] == order[..n][..k + 1];
    }
    assert order[..n + 1][..n + 1] == order[..n + 1];
  }

  /** The last answer recorded for the item confirms its deletion. */
  ghost predicate Succeeds(chunks: seq<Chunk>, answers: seq<Answer>, order: seq<nat>, item: Item)
    requires |answers| == |chunks| && forall k :: 0 <= k < |order| ==> order[k] < |chunks|
  {
    exists m: nat ::
      LastWord(chunks, answers, order, m, item) && !Denies(chunks[order[m]], answers[order[m]], item)
  }

  lemma ResultMeans(chunks: seq<Chunk>, answers: seq<Answer>, order: seq<nat>, item: Item)
    requires |answers| == |chunks| && forall k :: 0 <= k < |order| ==> order[k] < |chunks|
    ensures item in FoldAnswers(chunks, answers, order) && FoldAnswers(chunks, answers, order)[item]
            <==> Succeeds(chunks, answers, order, item)
  {
    FoldAnswersEntries(chunks, answers, order, item);
  }

  /** delete_objects: one result per requested object, in request order.  A result says success
      exactly when the last answer recorded for that key confirms it, and then the object is gone;
      nothing that was not requested is touched.  The counter strictly increases and ends at the
      number of items; its values are reported once each, in any order. */
  method DeleteObjects(cloud: Cloud, items: seq<Item>, provider: string, batch: nat,
                       answers: seq<Answer>, order: seq<nat>, reporting: seq<nat>)
    returns (results: seq<DeleteResult>, counts: seq<nat>, progress: seq<Progress>)
    requires batch > 0
    requires |answers| == |Chunks(items, batch)| && IsSchedule(order, |answers|) && IsSchedule(reporting, |order|)
    requires forall c :: 0 <= c < |answers| ==> Honest(Chunks(items, batch)[c], answers[c])
    modifies cloud
    ensures |results| == |items| && forall i :: 0 <= i < |items| ==> results[i].item == items[i]
    ensures forall i :: 0 <= i < |items| ==>
              (results[i].success <==> Succeeds(Chunks(items, batch), answers, order, items[i]))
    ensures forall i :: 0 <= i < |items| && results[i].success ==> Place(provider, items[i]) !in cloud.objects
    ensures cloud.objects == old(cloud.objects) - Emptied(provider, Chunks(items, batch), answers)
    ensures forall l :: l in old(cloud.objects) && l !in cloud.objects ==>
              exists i :: 0 <= i < |items| && l == Place(provider, items[i])
    ensures forall p, q :: 0 <= p < q < |counts| ==> 0 < counts[p] < counts[q]
    ensures items != [] ==> counts != [] && counts[|counts| - 1] == |items|
    ensures |counts| == |order| && progress == Reports(Chunks(items, batch), order, counts, reporting)
  {
    var chunks := BuildChunks(items, batch);
    ChunksPartition(items, batch);
    var outcomes;
    outcomes, counts, progress := SendAll(cloud, provider, chunks, answers, order, reporting);
    results := seq(|items|, i requires 0 <= i < |items| =>
                   DeleteResult(items[i], items[i] in outcomes && outcomes[items[i]]));
    forall i | 0 <= i < |items|
      ensures results[i].success <==> Succeeds(chunks, answers, order, items[i])
      ensures results[i].success ==> Place(provider, items[i]) in Emptied(provider, chunks, answers)
    {
      ResultMeans(chunks, answers, order, items[i]);
      if results[i].success {
        SuccessIsGone(chunks, provider, answers, order, items[i]);
      }
    }
    OnlyRequestedEmptied(items, provider, batch, answers);
    forall p, q | 0 <= p < q < |counts|
      ensures 0 < counts[p] < counts[q]
    {
      CountsIncrease(chunks, order, counts, p, q);
    }
    if chunks != [] {
      CountsReachTotal(chunks, order, counts);
    }
  }

  /** What an honest provider confirmed, it removed. */
  lemma SuccessIsGone(chunks: seq<Chunk>, provider: string, answers: seq<Answer>, order: seq<nat>, item: Item)
    requires |answers| == |chunks| && forall k :: 0 <= k < |order| ==> order[k] < |chunks|
    requires forall c :: 0 <= c < |answers| ==> Honest(chunks[c], answers[c])
    requires Succeeds(chunks, answers, order, item)
    ensures Place(provider, item) in Emptied(provider, chunks, answers)
  {
    var m: nat :| LastWord(chunks, answers, order, m, item) && !Denies(chunks[order[m]], answers[order[m]], item);
    assert Confirms(chunks[order[m]], answers[order[m]], item);
    assert item.key in answers[order[m]].removed;
    assert Place(provider, item) in Removed(provider, chunks[order[m]], answers[order[m]]);
  }

  lemma OnlyRequestedEmptied(items: seq<Item>, provider: string, batch: nat, answers: seq<Answer>)
    requires batch > 0 && |answers| == |Chunks(items, batch)|
    requires forall c :: 0 <= c < |answers| ==> Honest(Chunks(items, batch)[c], answers[c])
    ensures forall l :: l in Emptied(provider, Chunks(items, batch), answers) ==>
              exists i :: 0 <= i < |items| && l == Place(provider, items[i])
  {
    var chunks := Chunks(items, batch);
    forall l | l in Emptied(provider, chunks, answers)
      ensures exists i :: 0 <= i < |items| && l == Place(provider, items[i])
    {
      var c :| 0 <= c < |chunks| && l in Removed(provider, chunks[c], answers[c]);
      assert chunks[c] in chunks && l.key in chunks[c].keys;
      ChunksNameRequests(items, batch, l.bucket, l.key);
      var i :| 0 <= i < |items| && items[i] == Item(l.bucket, l.key);
    }
  }

  /** A key requested twice can get either answer: if one batch confirms it and another only
      denies it, the order of the workers decides. */
  lemma TwiceRequestedEitherWay(chunks: seq<Chunk>, answers: seq<Answer>, item: Item)
    requires |answers| == |chunks| == 2
    requires Confirms(chunks[0], answers[0], item) && !Denies(chunks[0], answers[0], item)
    requires Denies(chunks[1], answers[1], item)
    ensures IsSchedule([0, 1], 2) && !Succeeds(chunks, answers, [0, 1], item)
    ensures IsSchedule([1, 0], 2) && Succeeds(chunks, answers, [1, 0], item)
  {
    assert [0, 1][0] == 0 && [0, 1][1] == 1 && [1, 0][0] == 1 && [1, 0][1] == 0;
    assert LastWord(chunks, answers, [1, 0], 1, item);
    forall m: nat | LastWord(chunks, answers, [0, 1], m, item)
      ensures m == 1
    {
      assert Mentions(chunks[[0, 1][1]], answers[[0, 1][1]], item);
    }
  }
}
