/** Filling a command buffer through a moving position. */
module Stream {
  import opened Hci

  /** Write at position p and return the position after: the stream macros, and what read() leaves in
      the buffer. */
  method Put(buf: array<byte>, p: nat, bytes: seq<byte>) returns (next: nat)
    requires p + |bytes| <= buf.Length
    modifies buf
    ensures next == p + |bytes| && buf[..p] == old(buf[..p]) && buf[..next] == old(buf[..p]) + bytes
  {
    for i := 0 to |bytes|
      invariant buf[..p] == old(buf[..p]) && buf[p..p + i] == bytes[..i]
    {
      buf[p + i] := bytes[i];
    }
    next := p + |bytes|;
  }
}
