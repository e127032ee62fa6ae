/** What a reconciliation report says of every file, field by field, and in which order. */
module ReportFields {
  import opened Basics
  import opened Records
  import opened Reconciliation

  /** The first reference that names the key. */
  ghost predicate FirstRef(scope: Scope, refs: seq<DbRef>, i: int, key: string) {
    0 <= i < |refs| && RefersTo(scope, refs[i], key) && forall j :: 0 <= j < i ==> !RefersTo(scope, refs[j], key)
  }

  /** The last object with the key, in the order the buckets were listed. */
  ghost predicate LastObject(objects: seq<StorageObject>, i: int, key: string) {
    0 <= i < |objects| && objects[i].key == key && forall j :: i < j < |objects| ==> objects[j].key != key
  }

  ghost predicate MatchedTells(m: Matched, obj: StorageObject, ref: DbRef) {
    && m.bucket == obj.bucket && m.size == obj.size && m.lastModified == obj.lastModified
    && m.table == ref.table && m.column == ref.column && m.id == ref.id && m.rawValue == ref.value
  }

  ghost predicate OrphanTells(o: Orphan, obj: StorageObject) {
    o.bucket == obj.bucket && o.size == obj.size && o.lastModified == obj.lastModified
  }

  /** The first matched file of a column. */
  ghost predicate FirstSibling(matched: seq<Matched>, k: int, table: string, column: string) {
    && 0 <= k < |matched| && matched[k].table == table && matched[k].column == column
    && forall j :: 0 <= j < k ==> !(matched[j].table == table && matched[j].column == column)
  }

  /** The bucket of a missing file: the only one scanned; otherwise that of the first matched file of its
      column, and none if no file of its column is matched. */
  ghost predicate BucketTells(bucket: Option<string>, buckets: seq<string>, matched: seq<Matched>, table: string, column: string) {
    if |buckets| == 1 && buckets[0] != "" then bucket == Some(buckets[0])
    else
      && (forall k :: FirstSibling(matched, k, table, column) ==> bucket == Some(matched[k].bucket))
      && ((forall k :: !FirstSibling(matched, k, table, column)) ==> bucket == None)
  }

  lemma FirstRefIs(scope: Scope, refs: seq<DbRef>, i: int, key: string)
    ensures FirstAt(RefEntries(scope, refs), i, key) <==> FirstRef(scope, refs, i, key)
  {
    assert forall j :: 0 <= j < |refs| ==> (RefEntries(scope, refs)[j].key == Some(key) <==> RefersTo(scope, refs[j], key));
  }

  lemma LastObjectIs(objects: seq<StorageObject>, i: int, key: string)
    ensures LastAt(ObjectEntries(objects), i, key) <==> LastObject(objects, i, key)
  {
    assert forall j :: 0 <= j < |objects| ==> (ObjectEntries(objects)[j].key == Some(key) <==> objects[j].key == key);
  }

  lemma RefOf(scope: Scope, refs: seq<DbRef>, key: string) returns (i: int)
    requires key in Firsts(RefEntries(scope, refs)).at
    ensures FirstRef(scope, refs, i, key) && refs[i] == Firsts(RefEntries(scope, refs)).at[key]
  {
    FirstWins(RefEntries(scope, refs), key);
    i :| FirstAt(RefEntries(scope, refs), i, key) && RefEntries(scope, refs)[i].value == Firsts(RefEntries(scope, refs)).at[key];
    FirstRefIs(scope, refs, i, key);
  }

  lemma ObjectOf(objects: seq<StorageObject>, key: string) returns (j: int)
    requires key in Lasts(ObjectEntries(objects)).at
    ensures LastObject(objects, j, key) && objects[j] == Lasts(ObjectEntries(objects)).at[key]
  {
    LastWins(ObjectEntries(objects), key);
    j :| LastAt(ObjectEntries(objects), j, key) && ObjectEntries(objects)[j].value == Lasts(ObjectEntries(objects)).at[key];
    LastObjectIs(objects, j, key);
  }

  /** A matched file shows the last object of its key and the first reference to it. */
  lemma MatchedFields(r: Report, scope: Scope, refs: seq<DbRef>, objects: seq<StorageObject>, content: Option<Content>, k: nat)
    returns (i: int, j: int)
    requires IsReport(r, scope, refs, objects, content) && k < |r.matched|
    ensures FirstRef(scope, refs, i, r.matched[k].path) && LastObject(objects, j, r.matched[k].path)
    ensures MatchedTells(r.matched[k], objects[j], refs[i])
  {
    assert r.matched[k] in r.matched;
    i := RefOf(scope, refs, r.matched[k].path);
    j := ObjectOf(objects, r.matched[k].path);
  }

  /** An orphan and a protected file show the last object of their key. */
  lemma OrphanFields(r: Report, scope: Scope, refs: seq<DbRef>, objects: seq<StorageObject>, content: Option<Content>, o: Orphan)
    returns (j: int)
    requires IsReport(r, scope, refs, objects, content) && (o in r.orphan || o in r.protected)
    ensures LastObject(objects, j, o.path) && OrphanTells(o, objects[j])
  {
    j := ObjectOf(objects, o.path);
  }

  lemma {:induction false} SiblingTells(matched: seq<Matched>, table: string, column: string)
    ensures var bucket := SiblingBucket(matched, table, column);
            if bucket.Some? then exists k :: FirstSibling(matched, k, table, column) && matched[k].bucket == bucket.value
            else forall k :: 0 <= k < |matched| ==> !(matched[k].table == table && matched[k].column == column)
  {
    if matched != [] {
      var front, n := matched[..|matched| - 1], |matched| - 1;
      SiblingTells(front, table, column);
      assert forall k :: 0 <= k < n ==> front[k] == matched[k];
      if SiblingBucket(front, table, column).Some? {
        var k :| FirstSibling(front, k, table, column) && front[k].bucket == SiblingBucket(front, table, column).value;
        assert FirstSibling(matched, k, table, column);
      } else if matched[n].table == table && matched[n].column == column {
        assert FirstSibling(matched, n, table, column);
      }
    }
  }

  lemma GuessTells(buckets: seq<string>, matched: seq<Matched>, table: string, column: string)
    ensures BucketTells(BucketGuess(buckets, matched, table, column), buckets, matched, table, column)
  {
    SiblingTells(matched, table, column);
    assert forall k, m :: FirstSibling(matched, k, table, column) && FirstSibling(matched, m, table, column) ==> k == m;
  }

  /** A missing file shows the first reference to it, and the bucket it most likely was in. */
  lemma MissingFields(r: Report, scope: Scope, refs: seq<DbRef>, objects: seq<StorageObject>, content: Option<Content>, k: nat)
    returns (i: int)
    requires IsReport(r, scope, refs, objects, content) && k < |r.missing|
    ensures var m := r.missing[k];
            && FirstRef(scope, refs, i, m.path)
            && m.table == refs[i].table && m.column == refs[i].column && m.id == refs[i].id && m.rawValue == refs[i].value
            && BucketTells(m.bucket, scope.buckets, r.matched, m.table, m.column)
  {
    assert r.missing[k] in r.missing;
    i := RefOf(scope, refs, r.missing[k].path);
    GuessTells(scope.buckets, r.matched, refs[i].table, refs[i].column);
  }

  // ---------------------------------------------------------------- order

  /** One key is met before another one. */
  ghost predicate Before<V>(entries: seq<Entry<V>>, p: string, q: string) {
    exists i, j :: FirstAt(entries, i, p) && FirstAt(entries, j, q) && i < j
  }

  ghost predicate InOrder<V>(entries: seq<Entry<V>>, keys: seq<string>) {
    forall a, b :: 0 <= a < b < |keys| ==> Before(entries, keys[a], keys[b])
  }

  lemma BeforeExtends<V>(entries: seq<Entry<V>>, last: Entry<V>, p: string, q: string)
    requires Before(entries, p, q)
    ensures Before(entries + [last], p, q)
  {
    var i, j :| FirstAt(entries, i, p) && FirstAt(entries, j, q) && i < j;
    assert FirstAt(entries + [last], i, p) && FirstAt(entries + [last], j, q);
  }

  lemma NewKeyIsLast<V>(entries: seq<Entry<V>>, last: Entry<V>, p: string)
    requires p in Firsts(entries).at && last.key.Some? && last.key.value !in Firsts(entries).at
    ensures Before(entries + [last], p, last.key.value)
  {
    FirstWins(entries, p);
    FirstWins(entries, last.key.value);
    var i :| FirstAt(entries, i, p) && entries[i].value == Firsts(entries).at[p];
    assert FirstAt(entries + [last], i, p) && FirstAt(entries + [last], |entries|, last.key.value);
  }

  lemma OrderNext<V>(front: seq<Entry<V>>, last: Entry<V>)
    requires InOrder(front, Firsts(front).order)
    ensures InOrder(front + [last], Firsts(front + [last]).order)
  {
    var entries := front + [last];
    assert entries[..|front|] == front;
    DictsValid(front);
    var earlier, order := Firsts(front).order, Firsts(entries).order;
    forall a, b | 0 <= a < b < |order|
      ensures Before(entries, order[a], order[b])
    {
      if b < |earlier| {
        BeforeExtends(front, last, earlier[a], earlier[b]);
      } else {
        assert order[a] in earlier && order[b] == last.key.value;
        NewKeyIsLast(front, last, order[a]);
      }
    }
  }

  /** A dictionary lists its keys in the order in which they are first met. */
  lemma {:induction false} OrderOfAppearance<V>(entries: seq<Entry<V>>)
    ensures InOrder(entries, Firsts(entries).order)
  {
    if entries != [] {
      var front, last := entries[..|entries| - 1], entries[|entries| - 1];
      OrderOfAppearance(front);
      OrderNext(front, last);
      assert entries == front + [last];
    }
  }

  lemma {:induction false} SelectKeepsOrder<V>(entries: seq<Entry<V>>, order: seq<string>, keep: set<string>)
    requires InOrder(entries, order)
    ensures InOrder(entries, Select(order, keep)) && forall k | k in Select(order, keep) :: k in order
  {
    if order != [] {
      var front, last := order[..|order| - 1], order[|order| - 1];
      assert forall k | k in front :: k in order;
      assert InOrder(entries, front);
      SelectKeepsOrder(entries, front, keep);
      if last in keep {
        var kept := Select(front, keep);
        forall a | 0 <= a < |kept|
          ensures Before(entries, kept[a], last)
        {
          assert kept[a] in kept;
          assert kept[a] in front;
          var c :| 0 <= c < |front| && front[c] == kept[a];
          assert order[c] == kept[a];
        }
      }
    }
  }

  /** Matched and missing files come in the order of the first references to them, orphans and protected
      files in the order in which their keys were first listed. */
  lemma ReportOrder(r: Report, scope: Scope, refs: seq<DbRef>, objects: seq<StorageObject>, content: Option<Content>)
    requires IsReport(r, scope, refs, objects, content)
    ensures InOrder(RefEntries(scope, refs), MatchedPaths(r.matched)) && InOrder(RefEntries(scope, refs), MissingPaths(r.missing))
    ensures InOrder(ObjectEntries(objects), OrphanPaths(r.orphan)) && InOrder(ObjectEntries(objects), OrphanPaths(r.protected))
  {
    var d, s := Firsts(RefEntries(scope, refs)), Lasts(ObjectEntries(objects));
    var unused := s.at.Keys - d.at.Keys;
    OrderOfAppearance(RefEntries(scope, refs));
    OrderOfAppearance(ObjectEntries(objects));
    DictsValid(ObjectEntries(objects));
    SelectKeepsOrder(RefEntries(scope, refs), d.order, s.at.Keys);
    SelectKeepsOrder(RefEntries(scope, refs), d.order, d.at.Keys - s.at.Keys);
    SelectKeepsOrder(ObjectEntries(objects), s.order, unused - ContentKeys(content));
    SelectKeepsOrder(ObjectEntries(objects), s.order, unused * ContentKeys(content));
  }

  // ---------------------------------------------------------------- counts

  ghost function PlacesWith(scope: Scope, refs: seq<DbRef>, fate: Fate): set<nat> {
    set i: nat | i < |refs| && scope.classify(refs[i].value) == fate
  }

  lemma PlacesNext(scope: Scope, front: seq<DbRef>, last: DbRef, fate: Fate)
    ensures |PlacesWith(scope, front + [last], fate)|
         == |PlacesWith(scope, front, fate)| + if scope.classify(last.value) == fate then 1 else 0
  {
    if scope.classify(last.value) == fate {
      assert PlacesWith(scope, front + [last], fate) == PlacesWith(scope, front, fate) + {|front|};
    } else {
      assert PlacesWith(scope, front + [last], fate) == PlacesWith(scope, front, fate);
    }
  }

  lemma {:induction false} FatesCounted(scope: Scope, refs: seq<DbRef>, fate: Fate)
    ensures |PlacesWith(scope, refs, fate)| == multiset(Fates(scope, refs))[fate]
  {
    if refs == [] {
      assert PlacesWith(scope, refs, fate) == {};
    } else {
      var front, last := refs[..|refs| - 1], refs[|refs| - 1];
      FatesCounted(scope, front, fate);
      PlacesNext(scope, front, last, fate);
      OneMoreRef(scope, front, last);
      assert refs == front + [last];
    }
  }

  /** The summary: the lengths of the four lists, all references and all objects read, the references of
      another provider and of another bucket, and the rows of rich text searched. */
  lemma SummaryTells(r: Report, scope: Scope, refs: seq<DbRef>, objects: seq<StorageObject>, content: Option<Content>)
    requires IsReport(r, scope, refs, objects, content)
    ensures var s := r.summary;
            && s.matched == |r.matched| && s.missing == |r.missing| && s.orphan == |r.orphan| && s.protected == |r.protected|
            && s.databaseFiles == |refs| && s.storageObjects == |objects|
            && s.otherProvider == |PlacesWith(scope, refs, OtherBucket)|
            && s.differentProvider == |PlacesWith(scope, refs, DifferentProvider)|
            && s.contentReferences == if content.Some? then content.value.rows else 0
  {
    FatesCounted(scope, refs, OtherBucket);
    FatesCounted(scope, refs, DifferentProvider);
  }
}
