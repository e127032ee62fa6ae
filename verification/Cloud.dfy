/** The object stores of every configured provider, as the request-level operations see them. */
module Clouds {
  import opened ArchiveKeys
  import opened ArchiveProtocol

  /** Object contents by location; updated in place by uploads and deletions. */
  class Cloud {
    var objects: map<Location, Bytes>

    constructor (objects: map<Location, Bytes>)
      ensures this.objects == objects
    {
      this.objects := objects;
    }
  }

  function Place(provider: string, item: Item): Location {
    Location(provider, item.bucket, item.key)
  }
}
