/** Open streams: a readable font body or the write stream of the zip file. Only whether a stream
    has been destroyed is modelled; its bytes are not. */
module Streams {

  class Stream {
    var destroyed: bool

    /** A freshly opened stream, such as the one `fs.createWriteStream` returns. */
    constructor Open()
      ensures !destroyed
    {
      destroyed := false;
    }

    /** `stream.destroy()`: releases the stream; destroying it again changes nothing. */
    method Destroy()
      modifies this
      ensures destroyed
    {
      destroyed := true;
    }
  }
}
