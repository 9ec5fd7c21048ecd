/** A connected stream socket, reduced to the bytes that are still to arrive and the bytes
    that were sent. */
module Sockets {
  import opened Bits

  class Socket {
    var incoming: bytes
    var outgoing: bytes

    constructor (incoming: bytes)
      ensures this.incoming == incoming && outgoing == []
    {
      this.incoming := incoming;
      outgoing := [];
    }

    // recv: an arbitrary non-empty piece of at most `size` bytes, and nothing only at the end.
    method Recv(size: nat) returns (chunk: bytes)
      modifies this
      ensures |chunk| <= size && old(incoming) == chunk + incoming && outgoing == old(outgoing)
      ensures size > 0 && old(incoming) != [] ==> chunk != []
    {
      if size == 0 || incoming == [] {
        return [];
      }
      var n :| 1 <= n <= size && n <= |incoming|;
      chunk := incoming[..n];
      incoming := incoming[n..];
    }

    method SendAll(data: bytes)
      modifies this
      ensures outgoing == old(outgoing) + data && incoming == old(incoming)
    {
      outgoing := outgoing + data;
    }
  }
}
