/** What a scan takes from one column and from one bucket, row by row. */
module ColumnScans {
  import opened Basics
  import opened CheckpointNames
  import opened Checkpoints
  import opened Paging
  import opened Reconciliation
  import opened Records

  predicate HasText(row: Row) {
    row.value.Some? && |row.value.value| > 0
  }

  /** The places of the rows that hold a text, in order. */
  ghost predicate TextPlaces(rows: seq<Row>, places: seq<nat>) {
    && (forall k :: 0 <= k < |places| ==> places[k] < |rows| && HasText(rows[places[k]]))
    && (forall k, m :: 0 <= k < m < |places| ==> places[k] < places[m])
    && forall r: nat :: r < |rows| && HasText(rows[r]) ==> r in places
  }

  function Later(places: seq<nat>): (r: seq<nat>)
    ensures |r| == |places| && forall k :: 0 <= k < |places| ==> r[k] == places[k] + 1
  {
    seq(|places|, k requires 0 <= k < |places| => places[k] + 1)
  }

  /** The places of the texts from the second row on. */
  ghost predicate TailPlaces(rows: seq<Row>, later: seq<nat>) {
    && (forall k :: 0 <= k < |later| ==> 1 <= later[k] < |rows| && HasText(rows[later[k]]))
    && (forall k, m :: 0 <= k < m < |later| ==> later[k] < later[m])
    && forall r: nat :: 1 <= r < |rows| && HasText(rows[r]) ==> r in later
  }

  lemma LaterPlaces(rows: seq<Row>, places: seq<nat>)
    requires rows != [] && TextPlaces(rows[1..], places)
    ensures TailPlaces(rows, Later(places))
  {
    forall r: nat | 1 <= r < |rows| && HasText(rows[r])
      ensures r in Later(places)
    {
      assert HasText(rows[1..][r - 1]);
      var k :| 0 <= k < |places| && places[k] == r - 1;
      assert Later(places)[k] == r;
    }
    assert forall k :: 0 <= k < |places| ==> rows[Later(places)[k]] == rows[1..][places[k]];
  }

  lemma WithFirst(rows: seq<Row>, later: seq<nat>)
    requires rows != [] && HasText(rows[0]) && TailPlaces(rows, later)
    ensures TextPlaces(rows, [0] + later)
  {
    forall r: nat | r < |rows| && HasText(rows[r])
      ensures r in [0] + later
    {
      assert r == 0 || r in later;
    }
  }

  lemma WithoutFirst(rows: seq<Row>, later: seq<nat>)
    requires rows != [] && !HasText(rows[0]) && TailPlaces(rows, later)
    ensures TextPlaces(rows, later)
  {
  }

  predicate StandsAt(rows: seq<Row>, taken: seq<Row>, places: seq<nat>) {
    |taken| == |places| && forall k :: 0 <= k < |places| ==> places[k] < |rows| && taken[k] == rows[places[k]]
  }

  lemma StandsLater(rows: seq<Row>, taken: seq<Row>, places: seq<nat>)
    requires rows != [] && StandsAt(rows[1..], taken, places)
    ensures StandsAt(rows, taken, Later(places))
  {
    assert forall k :: 0 <= k < |places| ==> rows[1..][places[k]] == rows[places[k] + 1];
  }

  lemma StandsWithFirst(rows: seq<Row>, taken: seq<Row>, later: seq<nat>)
    requires rows != [] && StandsAt(rows, taken, later)
    ensures StandsAt(rows, [rows[0]] + taken, [0] + later)
  {
  }

  /** A list of rows is what stands at the places. */
  ghost predicate TakenFrom(rows: seq<Row>, taken: seq<Row>, places: seq<nat>) {
    TextPlaces(rows, places) && StandsAt(rows, taken, places)
  }

  /** The one big scan: every row whose value is neither NULL nor empty, each once and in order. */
  lemma {:induction false} ScanExactly(rows: seq<Row>) returns (places: seq<nat>)
    ensures TakenFrom(rows, Scan(rows), places)
  {
    if rows == [] {
      return [];
    }
    var rest := ScanExactly(rows[1..]);
    LaterPlaces(rows, rest);
    StandsLater(rows, Scan(rows[1..]), rest);
    if HasText(rows[0]) {
      WithFirst(rows, Later(rest));
      StandsWithFirst(rows, Scan(rows[1..]), Later(rest));
      return [0] + Later(rest);
    }
    WithoutFirst(rows, Later(rest));
    places := Later(rest);
    assert Scan(rows) == Scan(rows[1..]);
  }

  /** A column whose ids are unique: one reference per row that holds a text, in id order, with the row's id
      and text under the names of table and column. */
  lemma ColumnTells(world: World, work: Work) returns (places: seq<nat>)
    requires ValidWorld(world) && work.MappingWork?
    requires UniqueIds(world.tables(work.database, work.table, work.column, work.idColumn))
    ensures var rows := world.tables(work.database, work.table, work.column, work.idColumn);
            TextPlaces(rows, places) && Truth(world, work).RefsData? && |Truth(world, work).refs| == |places|
    ensures var rows := world.tables(work.database, work.table, work.column, work.idColumn);
            forall k :: 0 <= k < |places| ==>
              var ref := Truth(world, work).refs[k];
              && ref.table == work.table && ref.column == work.column
              && ref.id == rows[places[k]].id && Some(ref.value) == rows[places[k]].value
  {
    var rows := world.tables(work.database, work.table, work.column, work.idColumn);
    places := ScanExactly(rows);
    UniqueIdsReadWhole(rows, BatchSize(work));
  }

  lemma {:induction false} KeysInSome(world: World, buckets: set<string>, rows: seq<Row>, key: string)
    ensures key in KeysInRows(world, buckets, rows)
       <==> exists i :: 0 <= i < |rows| && rows[i].value.Some? && key in world.extract(rows[i].value.value, buckets)
  {
    if rows != [] {
      var n := |rows| - 1;
      KeysInSome(world, buckets, rows[..n], key);
      assert forall i :: 0 <= i < n ==> rows[..n][i] == rows[i];
    }
  }

  /** A row whose text names the key. */
  ghost predicate TextHas(world: World, buckets: set<string>, row: Row, key: string) {
    HasText(row) && key in world.extract(row.value.value, buckets)
  }

  lemma TakenHas(world: World, buckets: set<string>, rows: seq<Row>, taken: seq<Row>, places: seq<nat>, key: string)
    requires TakenFrom(rows, taken, places)
    ensures key in KeysInRows(world, buckets, taken) <==> exists r :: 0 <= r < |rows| && TextHas(world, buckets, rows[r], key)
  {
    KeysInSome(world, buckets, taken, key);
    if r :| 0 <= r < |rows| && TextHas(world, buckets, rows[r], key) {
      assert r in places;
      var k :| 0 <= k < |places| && places[k] == r;
      assert taken[k] == rows[r];
    }
    if i :| 0 <= i < |taken| && taken[i].value.Some? && key in world.extract(taken[i].value.value, buckets) {
      assert TextHas(world, buckets, rows[places[i]], key);
    }
  }

  /** A rich-text column whose ids are unique: the keys found in the texts of its rows, and the number of the
      rows that hold one. */
  lemma TextTells(world: World, work: Work, key: string) returns (places: seq<nat>)
    requires ValidWorld(world) && work.ContentWork?
    requires UniqueIds(world.tables(work.database, work.table, work.column, work.idColumn))
    ensures var rows := world.tables(work.database, work.table, work.column, work.idColumn);
            && Truth(world, work).KeysData? && TextPlaces(rows, places) && Truth(world, work).content.rows == |places|
            && (key in Truth(world, work).content.keys
                <==> exists r :: 0 <= r < |rows| && TextHas(world, work.buckets, rows[r], key))
  {
    var rows := world.tables(work.database, work.table, work.column, work.idColumn);
    places := ScanExactly(rows);
    UniqueIdsReadWhole(rows, BatchSize(work));
    TakenHas(world, work.buckets, rows, Scan(rows), places, key);
  }

  /** A bucket: its listing, or nothing where it lives in another region. */
  lemma BucketTells(world: World, work: Work)
    requires ValidWorld(world) && work.BucketWork?
    ensures Truth(world, work).ObjectsData?
    ensures !world.abroad(work.provider, work.bucket) ==>
              Truth(world, work).objects == world.listing(work.provider, work.prefix, work.bucket)
    ensures world.abroad(work.provider, work.bucket) ==> Truth(world, work).objects == []
  {
  }
}
