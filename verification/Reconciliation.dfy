/** Comparing the file references of a database with the objects of a storage. */
module Reconciliation {
  import opened Basics
  import opened Records

  datatype Fate = DifferentProvider | OtherBucket | InScope(key: string)

  /** What a run compares within: how it classifies a column value, and the scanned buckets. */
  datatype Scope = Scope(classify: string -> Fate, buckets: seq<string>)

  datatype Matched = Matched(path: string, bucket: string, size: nat, lastModified: Option<int>,
                             table: string, column: string, id: int, rawValue: string)

  datatype Missing = Missing(path: string, table: string, column: string, id: int, bucket: Option<string>, rawValue: string)

  datatype Orphan = Orphan(path: string, bucket: string, size: nat, lastModified: Option<int>)

  datatype Summary = Summary(matched: nat, missing: nat, orphan: nat, databaseFiles: nat, storageObjects: nat,
                             otherProvider: nat, differentProvider: nat, protected: nat, contentReferences: nat)

  datatype Report = Report(matched: seq<Matched>, missing: seq<Missing>, orphan: seq<Orphan>,
                           protected: seq<Orphan>, summary: Summary)

  /** The keys found in rich text and the number of rows searched. */
  datatype Content = Content(keys: set<string>, rows: nat)

  // ---------------------------------------------------------------- insertion-ordered dictionaries

  datatype Dict<V> = Dict(order: seq<string>, at: map<string, V>)

  /** What happens to a dictionary: a value under a key, or nothing. */
  datatype Entry<V> = Entry(key: Option<string>, value: V)

  ghost predicate ValidDict<V>(d: Dict<V>) {
    NoDup(d.order) && forall k :: k in d.order <==> k in d.at
  }

  /** Assignment: a new key goes to the end, an old one keeps its place. */
  function Put<V>(d: Dict<V>, key: string, value: V): Dict<V> {
    Dict(if key in d.at then d.order else d.order + [key], d.at[key := value])
  }

  function SetDefault<V>(d: Dict<V>, key: string, value: V): Dict<V> {
    if key in d.at then d else Put(d, key, value)
  }

  /** The first value under every key. */
  function Firsts<V>(entries: seq<Entry<V>>): Dict<V> {
    if entries == [] then Dict([], map[])
    else
      var d, last := Firsts(entries[..|entries| - 1]), entries[|entries| - 1];
      if last.key.Some? then SetDefault(d, last.key.value, last.value) else d
  }

  /** The last value under every key. */
  function Lasts<V>(entries: seq<Entry<V>>): Dict<V> {
    if entries == [] then Dict([], map[])
    else
      var d, last := Lasts(entries[..|entries| - 1]), entries[|entries| - 1];
      if last.key.Some? then Put(d, last.key.value, last.value) else d
  }

  ghost predicate FirstAt<V>(entries: seq<Entry<V>>, i: int, key: string) {
    0 <= i < |entries| && entries[i].key == Some(key) && forall j :: 0 <= j < i ==> entries[j].key != Some(key)
  }

  ghost predicate LastAt<V>(entries: seq<Entry<V>>, i: int, key: string) {
    0 <= i < |entries| && entries[i].key == Some(key) && forall j :: i < j < |entries| ==> entries[j].key != Some(key)
  }

  /** First wins: a key is in the dictionary if and only if some entry has it, and then with the
      value of the first such entry. */
  lemma {:induction false} FirstWins<V>(entries: seq<Entry<V>>, key: string)
    ensures key in Firsts(entries).at <==> exists i :: 0 <= i < |entries| && entries[i].key == Some(key)
    ensures key in Firsts(entries).at ==> exists i :: FirstAt(entries, i, key) && entries[i].value == Firsts(entries).at[key]
  {
    if entries != [] {
      var n := |entries| - 1;
      var before := entries[..n];
      FirstWins(before, key);
      assert forall i :: 0 <= i < n ==> before[i] == entries[i];
      if key in Firsts(before).at {
        var i :| FirstAt(before, i, key) && before[i].value == Firsts(before).at[key];
        assert FirstAt(entries, i, key);
      } else if entries[n].key == Some(key) {
        assert FirstAt(entries, n, key);
      }
    }
  }

  /** Last wins. */
  lemma {:induction false} LastWins<V>(entries: seq<Entry<V>>, key: string)
    ensures key in Lasts(entries).at <==> exists i :: 0 <= i < |entries| && entries[i].key == Some(key)
    ensures key in Lasts(entries).at ==> exists i :: LastAt(entries, i, key) && entries[i].value == Lasts(entries).at[key]
  {
    if entries != [] {
      var n := |entries| - 1;
      var before := entries[..n];
      LastWins(before, key);
      assert forall i :: 0 <= i < n ==> before[i] == entries[i];
      if entries[n].key == Some(key) {
        assert LastAt(entries, n, key);
      } else if key in Lasts(before).at {
        var i :| LastAt(before, i, key) && before[i].value == Lasts(before).at[key];
        assert LastAt(entries, i, key);
      }
    }
  }

  lemma {:induction false} DictsValid<V>(entries: seq<Entry<V>>)
    ensures ValidDict(Firsts(entries)) && ValidDict(Lasts(entries))
    ensures Firsts(entries).order == Lasts(entries).order && Firsts(entries).at.Keys == Lasts(entries).at.Keys
  {
    if entries != [] {
      DictsValid(entries[..|entries| - 1]);
    }
  }

  ghost predicate DistinctKeys<V>(entries: seq<Entry<V>>) {
    forall i, j :: 0 <= i < j < |entries| ==> entries[i].key != entries[j].key
  }

  /** A dictionary is as long as the list it was made from if and only if no key is repeated. */
  lemma {:induction false} DistinctKeysCount<V>(entries: seq<Entry<V>>)
    requires forall i :: 0 <= i < |entries| ==> entries[i].key.Some?
    ensures |Lasts(entries).order| <= |entries|
    ensures |Lasts(entries).order| == |entries| <==> DistinctKeys(entries)
  {
    if entries != [] {
      var n := |entries| - 1;
      var before, last := entries[..n], entries[n];
      DistinctKeysCount(before);
      LastWins(before, last.key.value);
      assert forall i :: 0 <= i < n ==> before[i] == entries[i];
      if last.key.value in Lasts(before).at {
        var i :| 0 <= i < n && before[i].key == Some(last.key.value);
        assert entries[i].key == entries[n].key;
      }
    }
  }

  // ---------------------------------------------------------------- the two merges

  function RefEntry(scope: Scope, ref: DbRef): Entry<DbRef> {
    var fate := scope.classify(ref.value);
    Entry(if fate.InScope? then Some(fate.key) else None, ref)
  }

  function RefEntries(scope: Scope, refs: seq<DbRef>): seq<Entry<DbRef>> {
    seq(|refs|, i requires 0 <= i < |refs| => RefEntry(scope, refs[i]))
  }

  function ObjectEntries(objects: seq<StorageObject>): seq<Entry<StorageObject>> {
    seq(|objects|, i requires 0 <= i < |objects| => Entry(Some(objects[i].key), objects[i]))
  }

  function Fates(scope: Scope, refs: seq<DbRef>): seq<Fate> {
    seq(|refs|, i requires 0 <= i < |refs| => scope.classify(refs[i].value))
  }

  function InScopeCount(fates: seq<Fate>): nat {
    if fates == [] then 0
    else InScopeCount(fates[..|fates| - 1]) + if fates[|fates| - 1].InScope? then 1 else 0
  }

  /** Every reference is counted in exactly one class. */
  lemma {:induction false} FatesAddUp(fates: seq<Fate>)
    ensures |fates| == multiset(fates)[DifferentProvider] + multiset(fates)[OtherBucket] + InScopeCount(fates)
  {
    if fates != [] {
      FatesAddUp(fates[..|fates| - 1]);
      assert fates == fates[..|fates| - 1] + [fates[|fates| - 1]];
    }
  }

  lemma OneMoreRef(scope: Scope, refs: seq<DbRef>, ref: DbRef)
    ensures RefEntries(scope, refs + [ref])[..|refs|] == RefEntries(scope, refs)
    ensures Fates(scope, refs + [ref]) == Fates(scope, refs) + [scope.classify(ref.value)]
  {
  }

  /** The loop body for one reference. */
  method AddRef(scope: Scope, ghost refs: seq<DbRef>, ref: DbRef, files: Dict<DbRef>, other: nat, different: nat)
    returns (files': Dict<DbRef>, other': nat, different': nat)
    requires files == Firsts(RefEntries(scope, refs))
    requires other == multiset(Fates(scope, refs))[OtherBucket] && different == multiset(Fates(scope, refs))[DifferentProvider]
    ensures files' == Firsts(RefEntries(scope, refs + [ref]))
    ensures other' == multiset(Fates(scope, refs + [ref]))[OtherBucket]
    ensures different' == multiset(Fates(scope, refs + [ref]))[DifferentProvider]
  {
    OneMoreRef(scope, refs, ref);
    files', other', different' := files, other, different;
    match scope.classify(ref.value)
    case DifferentProvider => different' := different + 1;
    case OtherBucket => other' := other + 1;
    case InScope(key) => files' := SetDefault(files, key, ref);
  }

  method MergeRefs(scope: Scope, results: seq<seq<DbRef>>) returns (files: Dict<DbRef>, total: nat, other: nat, different: nat)
    ensures var refs := Flatten(results);
            && files == Firsts(RefEntries(scope, refs)) && total == |refs|
            && other == multiset(Fates(scope, refs))[OtherBucket]
            && different == multiset(Fates(scope, refs))[DifferentProvider]
  {
    files, total, other, different := Dict([], map[]), 0, 0, 0;
    ghost var seen: seq<DbRef> := [];
    for i := 0 to |results|
      invariant seen == Flatten(results[..i])
      invariant files == Firsts(RefEntries(scope, seen)) && total == |seen|
      invariant other == multiset(Fates(scope, seen))[OtherBucket]
      invariant different == multiset(Fates(scope, seen))[DifferentProvider]
    {
      var refs := results[i];
      ghost var before := seen;
      for j := 0 to |refs|
        invariant seen == before + refs[..j]
        invariant files == Firsts(RefEntries(scope, seen)) && total == |seen|
        invariant other == multiset(Fates(scope, seen))[OtherBucket]
        invariant different == multiset(Fates(scope, seen))[DifferentProvider]
      {
        files, other, different := AddRef(scope, seen, refs[j], files, other, different);
        seen, total := seen + [refs[j]], total + 1;
        assert refs[..j + 1] == refs[..j] + [refs[j]];
      }
      assert refs[..|refs|] == refs;
      FlattenSnoc(results, i);
    }
    assert results[..|results|] == results;
  }

  lemma FlattenSnoc<T>(lists: seq<seq<T>>, i: nat)
    requires i < |lists|
    ensures Flatten(lists[..i + 1]) == Flatten(lists[..i]) + lists[i]
  {
    assert lists[..i + 1][..i] == lists[..i];
  }

  method MergeObjects(results: seq<seq<StorageObject>>) returns (objects: Dict<StorageObject>, total: nat)
    ensures objects == Lasts(ObjectEntries(Flatten(results))) && total == |Flatten(results)|
  {
    objects, total := Dict([], map[]), 0;
    ghost var seen: seq<StorageObject> := [];
    for i := 0 to |results|
      invariant seen == Flatten(results[..i]) && objects == Lasts(ObjectEntries(seen)) && total == |seen|
    {
      ghost var before := seen;
      for j := 0 to |results[i]|
        invariant seen == before + results[i][..j] && objects == Lasts(ObjectEntries(seen)) && total == |seen|
      {
        var obj := results[i][j];
        assert ObjectEntries(seen + [obj])[..|seen|] == ObjectEntries(seen);
        objects := Put(objects, obj.key, obj);
        seen, total := seen + [obj], total + 1;
        assert results[i][..j + 1] == results[i][..j] + [obj];
      }
      assert results[i][..|results[i]|] == results[i];
      FlattenSnoc(results, i);
    }
    assert results[..|results|] == results;
  }

  // ---------------------------------------------------------------- the classification

  /** The elements of a list that are in a set, in order. */
  ghost function Select(order: seq<string>, keep: set<string>): seq<string> {
    if order == [] then []
    else Select(order[..|order| - 1], keep) + if order[|order| - 1] in keep then [order[|order| - 1]] else []
  }

  lemma {:induction false} SelectMembers(order: seq<string>, keep: set<string>)
    requires NoDup(order)
    ensures NoDup(Select(order, keep))
    ensures forall k :: k in Select(order, keep) <==> k in order && k in keep
  {
    if order != [] {
      var before, last := order[..|order| - 1], order[|order| - 1];
      SelectMembers(before, keep);
      assert forall k :: k in order <==> k in before || k == last;
      assert last !in before;
    }
  }

  /** Splitting a list by a set splits its length. */
  lemma {:induction false} SelectSplits(order: seq<string>, keep: set<string>, drop: set<string>)
    requires forall k | k in order :: k in keep <==> k !in drop
    ensures |Select(order, keep)| + |Select(order, drop)| == |order|
  {
    if order != [] {
      assert order[|order| - 1] in order;
      SelectSplits(order[..|order| - 1], keep, drop);
    }
  }

  function MatchedFor(path: string, obj: StorageObject, ref: DbRef): Matched {
    Matched(path, obj.bucket, obj.size, obj.lastModified, ref.table, ref.column, ref.id, ref.value)
  }

  function OrphanFor(path: string, obj: StorageObject): Orphan {
    Orphan(path, obj.bucket, obj.size, obj.lastModified)
  }

  ghost function MatchedPaths(items: seq<Matched>): seq<string> {
    seq(|items|, i requires 0 <= i < |items| => items[i].path)
  }

  ghost function MissingPaths(items: seq<Missing>): seq<string> {
    seq(|items|, i requires 0 <= i < |items| => items[i].path)
  }

  ghost function OrphanPaths(items: seq<Orphan>): seq<string> {
    seq(|items|, i requires 0 <= i < |items| => items[i].path)
  }

  /** The bucket of the first matched file from the same column. */
  function SiblingBucket(matched: seq<Matched>, table: string, column: string): Option<string> {
    if matched == [] then None
    else
      var earlier, last := SiblingBucket(matched[..|matched| - 1], table, column), matched[|matched| - 1];
      if earlier.Some? then earlier
      else if last.table == table && last.column == column then Some(last.bucket)
      else None
  }

  /** The bucket a missing file is attributed to: the only one scanned, or a sibling's. */
  function BucketGuess(buckets: seq<string>, matched: seq<Matched>, table: string, column: string): Option<string> {
    if |buckets| == 1 && buckets[0] != "" then Some(buckets[0]) else SiblingBucket(matched, table, column)
  }

  ghost predicate MatchedRight(items: seq<Matched>, files: Dict<DbRef>, objects: Dict<StorageObject>) {
    && MatchedPaths(items) == Select(files.order, objects.at.Keys)
    && forall m | m in items :: m.path in files.at && m.path in objects.at && m == MatchedFor(m.path, objects.at[m.path], files.at[m.path])
  }

  ghost predicate MissingRight(items: seq<Missing>, files: Dict<DbRef>, objects: Dict<StorageObject>, buckets: seq<string>, matched: seq<Matched>) {
    && MissingPaths(items) == Select(files.order, files.at.Keys - objects.at.Keys)
    && forall m | m in items :: m.path in files.at &&
         var ref := files.at[m.path];
         m == Missing(m.path, ref.table, ref.column, ref.id, BucketGuess(buckets, matched, ref.table, ref.column), ref.value)
  }

  ghost predicate OrphansRight(items: seq<Orphan>, keys: set<string>, objects: Dict<StorageObject>) {
    && OrphanPaths(items) == Select(objects.order, keys)
    && forall o | o in items :: o.path in objects.at && o == OrphanFor(o.path, objects.at[o.path])
  }

  ghost function ContentKeys(content: Option<Content>): set<string> {
    if content.Some? then content.value.keys else {}
  }

  /** The report a run must give for what it read: references, objects and, if rich-text columns
      were searched, the keys found there. */
  ghost predicate IsReport(r: Report, scope: Scope, refs: seq<DbRef>, objects: seq<StorageObject>, content: Option<Content>) {
    var d, s := Firsts(RefEntries(scope, refs)), Lasts(ObjectEntries(objects));
    var unused := s.at.Keys - d.at.Keys;
    && MatchedRight(r.matched, d, s)
    && MissingRight(r.missing, d, s, scope.buckets, r.matched)
    && OrphansRight(r.orphan, unused - ContentKeys(content), s)
    && OrphansRight(r.protected, unused * ContentKeys(content), s)
    && r.summary == Summary(
         |r.matched|, |r.missing|, |r.orphan|, |refs|, |objects|,
         multiset(Fates(scope, refs))[OtherBucket], multiset(Fates(scope, refs))[DifferentProvider],
         |r.protected|, if content.Some? then content.value.rows else 0)
  }

  lemma SelectNext(order: seq<string>, i: nat, keep: set<string>)
    requires i < |order|
    ensures Select(order[..i + 1], keep) == Select(order[..i], keep) + if order[i] in keep then [order[i]] else []
  {
    assert order[..i + 1][..i] == order[..i];
  }

  method ListMatched(files: Dict<DbRef>, objects: Dict<StorageObject>) returns (matched: seq<Matched>, unmatched: seq<(string, DbRef)>)
    requires ValidDict(files)
    ensures MatchedRight(matched, files, objects)
    ensures |unmatched| == |Select(files.order, files.at.Keys - objects.at.Keys)|
    ensures forall k :: 0 <= k < |unmatched| ==>
      unmatched[k].0 in files.at && unmatched[k] == (Select(files.order, files.at.Keys - objects.at.Keys)[k], files.at[unmatched[k].0])
  {
    matched, unmatched := [], [];
    for i := 0 to |files.order|
      invariant MatchedPaths(matched) == Select(files.order[..i], objects.at.Keys)
      invariant forall m | m in matched :: m.path in files.at && m.path in objects.at && m == MatchedFor(m.path, objects.at[m.path], files.at[m.path])
      invariant |unmatched| == |Select(files.order[..i], files.at.Keys - objects.at.Keys)|
      invariant forall k :: 0 <= k < |unmatched| ==>
        unmatched[k].0 in files.at && unmatched[k] == (Select(files.order[..i], files.at.Keys - objects.at.Keys)[k], files.at[unmatched[k].0])
    {
      var path := files.order[i];
      var ref := files.at[path];
      SelectNext(files.order, i, objects.at.Keys);
      SelectNext(files.order, i, files.at.Keys - objects.at.Keys);
      if path in objects.at {
        matched := matched + [MatchedFor(path, objects.at[path], ref)];
      } else {
        unmatched := unmatched + [(path, ref)];
      }
    }
    assert files.order[..|files.order|] == files.order;
  }

  /** The dictionary of siblings: the first matched file of every column decides. */
  method BucketByMapping(matched: seq<Matched>) returns (hints: map<(string, string), string>)
    ensures forall t, c :: (if (t, c) in hints then Some(hints[(t, c)]) else None) == SiblingBucket(matched, t, c)
  {
    hints := map[];
    for i := 0 to |matched|
      invariant forall t, c :: (if (t, c) in hints then Some(hints[(t, c)]) else None) == SiblingBucket(matched[..i], t, c)
    {
      var m := matched[i];
      assert matched[..i + 1][..i] == matched[..i];
      if (m.table, m.column) !in hints {
        hints := hints[(m.table, m.column) := m.bucket];
      }
    }
    assert matched[..|matched|] == matched;
  }

  method ListMissing(unmatched: seq<(string, DbRef)>, buckets: seq<string>, matched: seq<Matched>) returns (missing: seq<Missing>)
    ensures |missing| == |unmatched|
    ensures forall k :: 0 <= k < |missing| ==>
      var (path, ref) := unmatched[k];
      missing[k] == Missing(path, ref.table, ref.column, ref.id, BucketGuess(buckets, matched, ref.table, ref.column), ref.value)
  {
    var single := if |buckets| == 1 then Some(buckets[0]) else None;
    var hints := BucketByMapping(matched);
    missing := [];
    for i := 0 to |unmatched|
      invariant |missing| == i
      invariant forall k :: 0 <= k < i ==>
        var (path, ref) := unmatched[k];
        missing[k] == Missing(path, ref.table, ref.column, ref.id, BucketGuess(buckets, matched, ref.table, ref.column), ref.value)
    {
      var (path, ref) := unmatched[i];
      var column := (ref.table, ref.column);
      var bucket := if single.Some? && single.value != "" then single
                    else if column in hints then Some(hints[column]) else None;
      assert bucket == BucketGuess(buckets, matched, ref.table, ref.column);
      missing := missing + [Missing(path, ref.table, ref.column, ref.id, bucket, ref.value)];
    }
  }

  method ListOrphans(files: Dict<DbRef>, objects: Dict<StorageObject>) returns (orphans: seq<Orphan>)
    requires ValidDict(objects)
    ensures OrphansRight(orphans, objects.at.Keys - files.at.Keys, objects)
  {
    orphans := [];
    for i := 0 to |objects.order|
      invariant OrphanPaths(orphans) == Select(objects.order[..i], objects.at.Keys - files.at.Keys)
      invariant forall o | o in orphans :: o.path in objects.at && o == OrphanFor(o.path, objects.at[o.path])
    {
      var key := objects.order[i];
      SelectNext(objects.order, i, objects.at.Keys - files.at.Keys);
      if key !in files.at {
        orphans := orphans + [OrphanFor(key, objects.at[key])];
      }
    }
    assert objects.order[..|objects.order|] == objects.order;
  }

  lemma {:induction false} SelectTwice(order: seq<string>, a: set<string>, b: set<string>)
    ensures Select(Select(order, a), b) == Select(order, a * b)
  {
    if order != [] {
      var before, last := order[..|order| - 1], order[|order| - 1];
      SelectTwice(before, a, b);
      if last in a {
        assert Select(order, a)[..|Select(order, a)| - 1] == Select(before, a);
      } else {
        assert Select(order, a) == Select(before, a);
        assert Select(order, a * b) == Select(before, a * b);
      }
    }
  }

  /** The loop that moves the unused objects found in rich text to `protected`. */
  method Protect(raw: seq<Orphan>, keys: set<string>, ghost unused: set<string>) returns (orphan: seq<Orphan>, protected: seq<Orphan>)
    requires forall o | o in raw :: o.path in unused
    ensures forall o | o in orphan || o in protected :: o in raw
    ensures OrphanPaths(protected) == Select(OrphanPaths(raw), keys)
    ensures OrphanPaths(orphan) == Select(OrphanPaths(raw), unused - keys)
  {
    orphan, protected := [], [];
    ghost var paths, others := OrphanPaths(raw), unused - keys;
    for i := 0 to |raw|
      invariant forall o | o in orphan || o in protected :: o in raw
      invariant OrphanPaths(protected) == Select(paths[..i], keys)
      invariant OrphanPaths(orphan) == Select(paths[..i], others)
    {
      SelectNext(paths, i, keys);
      SelectNext(paths, i, others);
      assert raw[i] in raw;
      if raw[i].path in keys {
        protected := protected + [raw[i]];
      } else {
        orphan := orphan + [raw[i]];
      }
    }
    assert paths[..|raw|] == paths;
  }

  /** From what the scans returned to the report. */
  method RunReconciliation(scope: Scope, mappingResults: seq<seq<DbRef>>, bucketResults: seq<seq<StorageObject>>,
                           content: Option<Content>)
    returns (r: Report)
    ensures IsReport(r, scope, Flatten(mappingResults), Flatten(bucketResults), content)
  {
    var files, databaseFiles, other, different := MergeRefs(scope, mappingResults);
    var objects, storageObjects := MergeObjects(bucketResults);
    DictsValid(RefEntries(scope, Flatten(mappingResults)));
    DictsValid(ObjectEntries(Flatten(bucketResults)));
    var matched, unmatched := ListMatched(files, objects);
    var missing := ListMissing(unmatched, scope.buckets, matched);
    MissingIsRight(missing, unmatched, files, objects, scope.buckets, matched);
    var raw := ListOrphans(files, objects);
    var orphan, protected, contentReferences := raw, [], 0;
    OrphansUnused(raw, objects.at.Keys - files.at.Keys, objects);
    if content.Some? {
      orphan, protected := Protect(raw, content.value.keys, objects.at.Keys - files.at.Keys);
      contentReferences := content.value.rows;
    }
    SplitIsRight(raw, orphan, protected, content, files, objects);
    r := Report(matched, missing, orphan, protected,
                Summary(|matched|, |missing|, |orphan|, databaseFiles, storageObjects, other, different, |protected|, contentReferences));
  }

  lemma MissingIsRight(missing: seq<Missing>, unmatched: seq<(string, DbRef)>, files: Dict<DbRef>, objects: Dict<StorageObject>,
                       buckets: seq<string>, matched: seq<Matched>)
    requires var paths := Select(files.order, files.at.Keys - objects.at.Keys);
      && |unmatched| == |missing| == |paths|
      && forall k :: 0 <= k < |unmatched| ==> unmatched[k].0 in files.at && unmatched[k] == (paths[k], files.at[unmatched[k].0])
    requires forall k :: 0 <= k < |missing| ==>
      var (path, ref) := unmatched[k];
      missing[k] == Missing(path, ref.table, ref.column, ref.id, BucketGuess(buckets, matched, ref.table, ref.column), ref.value)
    ensures MissingRight(missing, files, objects, buckets, matched)
  {
  }

  lemma SplitIsRight(raw: seq<Orphan>, orphan: seq<Orphan>, protected: seq<Orphan>, content: Option<Content>,
                     files: Dict<DbRef>, objects: Dict<StorageObject>)
    requires ValidDict(objects) && OrphansRight(raw, objects.at.Keys - files.at.Keys, objects)
    requires content.None? ==> orphan == raw && protected == []
    requires content.Some? ==>
      && (forall o | o in orphan || o in protected :: o in raw)
      && OrphanPaths(protected) == Select(OrphanPaths(raw), content.value.keys)
      && OrphanPaths(orphan) == Select(OrphanPaths(raw), (objects.at.Keys - files.at.Keys) - content.value.keys)
    ensures OrphansRight(orphan, objects.at.Keys - files.at.Keys - ContentKeys(content), objects)
    ensures OrphansRight(protected, (objects.at.Keys - files.at.Keys) * ContentKeys(content), objects)
  {
    var unused, keys := objects.at.Keys - files.at.Keys, ContentKeys(content);
    if content.None? {
      assert unused - keys == unused;
      SelectNothing(objects.order, unused * keys);
    } else {
      SelectTwice(objects.order, unused, keys);
      SelectTwice(objects.order, unused, unused - keys);
      assert unused * (unused - keys) == unused - keys;
    }
  }

  lemma OrphansUnused(items: seq<Orphan>, keys: set<string>, objects: Dict<StorageObject>)
    requires ValidDict(objects) && OrphansRight(items, keys, objects)
    ensures forall o | o in items :: o.path in keys
  {
    SelectMembers(objects.order, keys);
    forall o | o in items
      ensures o.path in keys
    {
      var i :| 0 <= i < |items| && items[i] == o;
      assert OrphanPaths(items)[i] == o.path;
    }
  }

  lemma {:induction false} SelectNothing(order: seq<string>, none: set<string>)
    requires none == {}
    ensures Select(order, none) == []
  {
    if order != [] {
      SelectNothing(order[..|order| - 1], none);
    }
  }

  // ---------------------------------------------------------------- what a report means

  function ToSet(s: seq<string>): set<string> {
    set x | x in s
  }

  lemma {:induction false} SetSize(s: seq<string>)
    requires NoDup(s)
    ensures |ToSet(s)| == |s|
  {
    if s != [] {
      var before, last := s[..|s| - 1], s[|s| - 1];
      SetSize(before);
      assert ToSet(s) == ToSet(before) + {last};
      assert last !in before;
    }
  }

  /** The distinct keys that references in scope name. */
  ghost function ReferencedKeys(scope: Scope, refs: seq<DbRef>): set<string> {
    set i | 0 <= i < |refs| && scope.classify(refs[i].value).InScope? :: scope.classify(refs[i].value).key
  }

  ghost function StoredKeys(objects: seq<StorageObject>): set<string> {
    set i | 0 <= i < |objects| :: objects[i].key
  }

  predicate RefersTo(scope: Scope, ref: DbRef, key: string) {
    scope.classify(ref.value) == InScope(key)
  }

  lemma ReferencedWhen(scope: Scope, refs: seq<DbRef>, key: string)
    ensures key in ReferencedKeys(scope, refs) <==> exists i :: 0 <= i < |refs| && RefersTo(scope, refs[i], key)
  {
  }

  lemma RefDictKeys(scope: Scope, refs: seq<DbRef>)
    ensures Firsts(RefEntries(scope, refs)).at.Keys == ReferencedKeys(scope, refs)
  {
    var entries := RefEntries(scope, refs);
    assert forall i, key :: 0 <= i < |refs| ==> (entries[i].key == Some(key) <==> RefersTo(scope, refs[i], key));
    forall key
      ensures key in Firsts(entries).at <==> key in ReferencedKeys(scope, refs)
    {
      FirstWins(entries, key);
      ReferencedWhen(scope, refs, key);
    }
  }

  lemma ObjectDictKeys(objects: seq<StorageObject>)
    ensures Lasts(ObjectEntries(objects)).at.Keys == StoredKeys(objects)
  {
    var entries := ObjectEntries(objects);
    forall key
      ensures key in Lasts(entries).at <==> key in StoredKeys(objects)
    {
      LastWins(entries, key);
      assert forall i :: 0 <= i < |objects| ==> (entries[i].key == Some(key) <==> objects[i].key == key);
    }
  }

  lemma SelectedSet(order: seq<string>, keep: set<string>)
    requires NoDup(order) && forall k | k in keep :: k in order
    ensures NoDup(Select(order, keep)) && ToSet(Select(order, keep)) == keep
  {
    SelectMembers(order, keep);
  }

  /** The classes are set algebra on the referenced keys and the stored keys, and no list names a
      key twice. */
  lemma ClassesAreSetAlgebra(r: Report, scope: Scope, refs: seq<DbRef>, objects: seq<StorageObject>, content: Option<Content>)
    requires IsReport(r, scope, refs, objects, content)
    ensures var d, s := ReferencedKeys(scope, refs), StoredKeys(objects);
      && ToSet(MatchedPaths(r.matched)) == d * s
      && ToSet(MissingPaths(r.missing)) == d - s
      && ToSet(OrphanPaths(r.orphan)) == s - d - ContentKeys(content)
      && ToSet(OrphanPaths(r.protected)) == (s - d) * ContentKeys(content)
    ensures NoDup(MatchedPaths(r.matched)) && NoDup(MissingPaths(r.missing))
    ensures NoDup(OrphanPaths(r.orphan)) && NoDup(OrphanPaths(r.protected))
  {
    var d, s := Firsts(RefEntries(scope, refs)), Lasts(ObjectEntries(objects));
    RefDictKeys(scope, refs);
    ObjectDictKeys(objects);
    DictsValid(RefEntries(scope, refs));
    DictsValid(ObjectEntries(objects));
    var unused := s.at.Keys - d.at.Keys;
    SelectMembers(d.order, s.at.Keys);
    SelectedSet(d.order, d.at.Keys - s.at.Keys);
    SelectedSet(s.order, unused - ContentKeys(content));
    SelectedSet(s.order, unused * ContentKeys(content));
  }

  lemma ReportSizes(r: Report, scope: Scope, refs: seq<DbRef>, objects: seq<StorageObject>, content: Option<Content>)
    requires IsReport(r, scope, refs, objects, content)
    ensures |r.matched| + |r.missing| == |ReferencedKeys(scope, refs)|
    ensures |r.matched| + |r.orphan| + |r.protected| == |StoredKeys(objects)|
  {
    ClassesAreSetAlgebra(r, scope, refs, objects, content);
    SetSize(MatchedPaths(r.matched));
    SetSize(MissingPaths(r.missing));
    SetSize(OrphanPaths(r.orphan));
    SetSize(OrphanPaths(r.protected));
    ThreeParts(ReferencedKeys(scope, refs), StoredKeys(objects), ContentKeys(content));
  }

  lemma ThreeParts(d: set<string>, s: set<string>, c: set<string>)
    ensures |d * s| + |d - s| == |d|
    ensures |d * s| + |s - d - c| + |(s - d) * c| == |s|
  {
  }

  /** The counts: every reference is in one class, every referenced key is matched or missing,
      every stored key is matched, orphaned or protected; and there are as many stored keys as
      objects if and only if no two objects, in whatever buckets, share a key. */
  lemma CountsAddUp(r: Report, scope: Scope, refs: seq<DbRef>, objects: seq<StorageObject>, content: Option<Content>)
    requires IsReport(r, scope, refs, objects, content)
    ensures r.summary.databaseFiles
         == r.summary.differentProvider + r.summary.otherProvider + InScopeCount(Fates(scope, refs))
    ensures r.summary.matched + r.summary.missing == |ReferencedKeys(scope, refs)|
    ensures r.summary.matched + r.summary.orphan + r.summary.protected == |StoredKeys(objects)| <= r.summary.storageObjects
    ensures |StoredKeys(objects)| == r.summary.storageObjects <==> UnsharedKeys(objects)
  {
    FatesAddUp(Fates(scope, refs));
    ReportSizes(r, scope, refs, objects, content);
    StoredKeyCount(objects);
  }

  ghost predicate UnsharedKeys(objects: seq<StorageObject>) {
    forall i, j :: 0 <= i < j < |objects| ==> objects[i].key != objects[j].key
  }

  lemma StoredKeyCount(objects: seq<StorageObject>)
    ensures |StoredKeys(objects)| <= |objects|
    ensures |StoredKeys(objects)| == |objects| <==> UnsharedKeys(objects)
  {
    var entries := ObjectEntries(objects);
    ObjectDictKeys(objects);
    DictsValid(entries);
    SetSize(Lasts(entries).order);
    assert ToSet(Lasts(entries).order) == StoredKeys(objects);
    DistinctKeysCount(entries);
    assert forall i, j :: 0 <= i < j < |objects| ==> (entries[i].key == entries[j].key <==> objects[i].key == objects[j].key);
    if !UnsharedKeys(objects) {
      var i, j :| 0 <= i < j < |objects| && objects[i].key == objects[j].key;
      assert entries[i].key == entries[j].key;
    }
  }

  /** First reference wins: a matched or missing file is reported for the first reference to it. */
  lemma MatchedIsFirstAndLast(r: Report, scope: Scope, refs: seq<DbRef>, objects: seq<StorageObject>, content: Option<Content>, k: nat)
    requires IsReport(r, scope, refs, objects, content) && k < |r.matched|
    ensures exists i, j :: FirstAt(RefEntries(scope, refs), i, r.matched[k].path) && LastAt(ObjectEntries(objects), j, r.matched[k].path)
                        && r.matched[k] == MatchedFor(r.matched[k].path, objects[j], refs[i])
  {
    var path := r.matched[k].path;
    assert r.matched[k] in r.matched;
    FirstWins(RefEntries(scope, refs), path);
    LastWins(ObjectEntries(objects), path);
  }

  /** References that were not read, because their column failed: exactly the stored keys that only
      they name change class.  They stop being matched and become orphans, or protected where rich text
      names them; the other keys only they name are no longer missing.  Nothing else changes class. */
  lemma FewerReferencesMoreOrphans(a: Report, b: Report, scope: Scope, fewer: seq<DbRef>, more: seq<DbRef>,
                                   objects: seq<StorageObject>, content: Option<Content>)
    requires IsReport(a, scope, fewer, objects, content) && IsReport(b, scope, more, objects, content)
    requires forall ref | ref in fewer :: ref in more
    ensures var lost, s := ReferencedKeys(scope, more) - ReferencedKeys(scope, fewer), StoredKeys(objects);
      && ToSet(OrphanPaths(a.orphan)) == ToSet(OrphanPaths(b.orphan)) + (s * lost - ContentKeys(content))
      && ToSet(OrphanPaths(a.orphan)) - ToSet(OrphanPaths(b.orphan)) == s * lost - ContentKeys(content)
      && ToSet(OrphanPaths(a.protected)) == ToSet(OrphanPaths(b.protected)) + s * lost * ContentKeys(content)
      && ToSet(MatchedPaths(a.matched)) == ToSet(MatchedPaths(b.matched)) - lost
      && ToSet(MissingPaths(a.missing)) == ToSet(MissingPaths(b.missing)) - lost
  {
    ClassesAreSetAlgebra(a, scope, fewer, objects, content);
    ClassesAreSetAlgebra(b, scope, more, objects, content);
    FewerName(scope, fewer, more);
  }

  lemma FewerName(scope: Scope, fewer: seq<DbRef>, more: seq<DbRef>)
    requires forall ref | ref in fewer :: ref in more
    ensures ReferencedKeys(scope, fewer) <= ReferencedKeys(scope, more)
  {
    forall key | key in ReferencedKeys(scope, fewer)
      ensures key in ReferencedKeys(scope, more)
    {
      ReferencedWhen(scope, fewer, key);
      ReferencedWhen(scope, more, key);
      var i :| 0 <= i < |fewer| && RefersTo(scope, fewer[i], key);
      assert fewer[i] in more;
    }
  }

  lemma SamePathsSameMatched(a: seq<Matched>, b: seq<Matched>, files: Dict<DbRef>, objects: Dict<StorageObject>)
    requires MatchedRight(a, files, objects) && MatchedRight(b, files, objects)
    ensures a == b
  {
    assert |a| == |MatchedPaths(a)| == |b|;
    forall i | 0 <= i < |a|
      ensures a[i] == b[i]
    {
      assert a[i] in a && b[i] in b;
      assert a[i].path == MatchedPaths(a)[i] == b[i].path;
    }
  }

  lemma SamePathsSameMissing(a: seq<Missing>, b: seq<Missing>, files: Dict<DbRef>, objects: Dict<StorageObject>, buckets: seq<string>, matched: seq<Matched>)
    requires MissingRight(a, files, objects, buckets, matched) && MissingRight(b, files, objects, buckets, matched)
    ensures a == b
  {
    assert |a| == |MissingPaths(a)| == |b|;
    forall i | 0 <= i < |a|
      ensures a[i] == b[i]
    {
      assert a[i] in a && b[i] in b;
      assert a[i].path == MissingPaths(a)[i] == b[i].path;
    }
  }

  lemma SamePathsSameOrphans(a: seq<Orphan>, b: seq<Orphan>, keys: set<string>, objects: Dict<StorageObject>)
    requires OrphansRight(a, keys, objects) && OrphansRight(b, keys, objects)
    ensures a == b
  {
    assert |a| == |OrphanPaths(a)| == |b|;
    forall i | 0 <= i < |a|
      ensures a[i] == b[i]
    {
      assert a[i] in a && b[i] in b;
      assert a[i].path == OrphanPaths(a)[i] == b[i].path;
    }
  }

  /** What was read determines the report. */
  lemma ReportUnique(a: Report, b: Report, scope: Scope, refs: seq<DbRef>, objects: seq<StorageObject>, content: Option<Content>)
    requires IsReport(a, scope, refs, objects, content) && IsReport(b, scope, refs, objects, content)
    ensures a == b
  {
    var d, s := Firsts(RefEntries(scope, refs)), Lasts(ObjectEntries(objects));
    var unused := s.at.Keys - d.at.Keys;
    SamePathsSameMatched(a.matched, b.matched, d, s);
    SamePathsSameMissing(a.missing, b.missing, d, s, scope.buckets, a.matched);
    SamePathsSameOrphans(a.orphan, b.orphan, unused - ContentKeys(content), s);
    SamePathsSameOrphans(a.protected, b.protected, unused * ContentKeys(content), s);
  }
}
