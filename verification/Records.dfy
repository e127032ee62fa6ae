/** The records that a reconciliation reads and compares. */
module Records {
  import opened Basics

  /** A file reference read from a database column.  Row ids are numbered in the order in which
      the database sorts them. */
  datatype DbRef = DbRef(table: string, column: string, id: int, value: string)

  datatype StorageObject = StorageObject(bucket: string, key: string, size: nat, lastModified: Option<int>, etag: Option<string>)

  datatype Mapping = Mapping(table: string, column: string, idColumn: Option<string>)

  datatype Request = Request(
    mappings: seq<Mapping>,
    buckets: Option<seq<string>>,
    prefix: Option<string>,
    database: Option<string>,
    provider: Option<string>
  )

  /** Python's `x or default`. */
  function OrElse(x: Option<string>, default: string): string {
    if x.Some? && x.value != "" then x.value else default
  }

  /** All elements, list after list. */
  function Flatten<T>(lists: seq<seq<T>>): seq<T> {
    if lists == [] then [] else Flatten(lists[..|lists| - 1]) + lists[|lists| - 1]
  }
}
