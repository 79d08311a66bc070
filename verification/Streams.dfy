/** The bounded output stream of lib/stream.c: a write that does not fit is dropped. */
module Streams {
  import opened Octets

  class Stream {
    const size: nat
    var data: seq<Octet>

    constructor (size: nat)
      ensures data == [] && this.size == size
    {
      this.size := size;
      data := [];
    }

    /** `b` is written whole, or not at all. */
    method Put(b: seq<Octet>)
      modifies this
      ensures |old(data)| + |b| <= size ==> data == old(data) + b
      ensures |old(data)| + |b| > size ==> data == old(data)
    {
      if |data| + |b| <= size {
        data := data + b;
      }
    }

    method Putc(c: Octet)
      modifies this
      ensures |old(data)| + 1 <= size ==> data == old(data) + [c]
      ensures |old(data)| + 1 > size ==> data == old(data)
    {
      Put([c]);
    }

    /** stream_putc_at */
    method PutcAt(pos: nat, c: Octet)
      modifies this
      ensures data == if pos < |old(data)| then old(data)[pos := c] else old(data)
    {
      if pos < |data| {
        data := data[pos := c];
      }
    }

    /** stream_putw_at */
    method PutwAt(pos: nat, x: nat)
      modifies this
      ensures data == if pos + 2 <= |old(data)| then old(data)[..pos] + PutW(x) + old(data)[pos + 2..] else old(data)
    {
      if pos + 2 <= |data| {
        data := data[..pos] + PutW(x) + data[pos + 2..];
      }
    }
  }
}
