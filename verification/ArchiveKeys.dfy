/** The naming convention of the archive bucket: the object (bucket, key) is filed under
    the archive key "<bucket>/<key>", and a restore reads both parts back off that key. */
module ArchiveKeys {

  /** A (bucket, key) pair, the unit every storage operation works on. */
  datatype Item = Item(bucket: string, key: string)

  /** The only bucket `archive_and_delete_objects` accepts as an archive. */
  const ARCHIVE_BUCKET := "scola-school-archives"

  /** Position of the first `c` in `s`, or `|s|` when there is none. */
  function IndexOf(s: string, c: char): (i: nat)
    ensures i <= |s|
    ensures forall k :: 0 <= k < i ==> s[k] != c
    ensures i < |s| ==> s[i] == c
  {
    if s == [] || s[0] == c then 0 else 1 + IndexOf(s[1..], c)
  }

  /** Python's `str.partition` for a one-character separator: head, separator found, tail. */
  function Partition(s: string, c: char): (string, bool, string) {
    var i := IndexOf(s, c);
    if i < |s| then (s[..i], true, s[i + 1..]) else (s, false, "")
  }

  predicate SlashFree(s: string) {
    '/' !in s
  }

  function ArchiveDestKey(item: Item): string {
    item.bucket + "/" + item.key
  }

  function RestoreDestBucket(archiveKey: string): string {
    Partition(archiveKey, '/').0
  }

  function RestoreDestKey(archiveKey: string): string {
    Partition(archiveKey, '/').2
  }

  /** Where a restore sends the archive object `archived`. */
  function RestoreDest(archived: Item): Item {
    Item(RestoreDestBucket(archived.key), RestoreDestKey(archived.key))
  }

  /** `partition` splits at the first separator, wherever a caller may have joined. */
  lemma {:induction false} PartitionJoined(head: string, c: char, tail: string)
    requires c !in head
    ensures Partition(head + [c] + tail, c) == (head, true, tail)
  {
    var s := head + [c] + tail;
    var i := IndexOf(s, c);
    assert s[|head|] == c;
    assert forall k :: 0 <= k < |head| ==> s[k] == head[k] != c;
    assert i == |head|;
    assert s[..i] == head && s[i + 1..] == tail;
  }

  /** The restore functions undo the archive key exactly when the bucket has no slash. */
  lemma RestoreUndoesArchiveKey(item: Item, archiveBucket: string)
    ensures RestoreDest(Item(archiveBucket, ArchiveDestKey(item))) == item <==> SlashFree(item.bucket)
  {
    var k := ArchiveDestKey(item);
    if SlashFree(item.bucket) {
      assert k == item.bucket + ['/'] + item.key;
      PartitionJoined(item.bucket, '/', item.key);
    } else {
      var i := IndexOf(k, '/');
      var j :| 0 <= j < |item.bucket| && item.bucket[j] == '/';
      assert k[j] == '/';
      assert |RestoreDestBucket(k)| <= j;
    }
  }

  /** On slash-free buckets two objects never share an archive key. */
  lemma ArchiveKeyInjective(a: Item, b: Item)
    requires SlashFree(a.bucket) && SlashFree(b.bucket)
    requires ArchiveDestKey(a) == ArchiveDestKey(b)
    ensures a == b
  {
    RestoreUndoesArchiveKey(a, ARCHIVE_BUCKET);
    RestoreUndoesArchiveKey(b, ARCHIVE_BUCKET);
  }

  /** Without that assumption they can: the convention itself does not escape slashes. */
  lemma ArchiveKeyCollision()
    ensures ArchiveDestKey(Item("a", "b/c")) == ArchiveDestKey(Item("a/b", "c"))
  {
    assert "a" + "/" + "b/c" == "a/b" + "/" + "c";
  }
}
