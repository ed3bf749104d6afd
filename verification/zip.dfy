/** The zip archive under construction: its entries by name, each with the stream that will be
    read into it. Compression and the bytes written are not modelled. */
module Zip {
  import opened Streams

  class ZipArchive {
    var entries: map<string, Stream>

    /** `new JSZip()`: an archive without entries. */
    constructor ()
      ensures entries == map[]
    {
      entries := map[];
    }

    /** `archive.file(name, stream)`: adds the entry `name`, replacing an entry of the same name. */
    method File(name: string, data: Stream)
      modifies this
      ensures entries == old(entries)[name := data]
    {
      entries := entries[name := data];
    }
  }
}
