/** The inbound octet stream both frame readers consume. */
module Streams {
  import opened Octets

  /** The octets a reader has not consumed yet. */
  class Stream {
    var rest: seq<byte>

    constructor (octets: seq<byte>)
      ensures rest == octets
    {
      rest := octets;
    }

    /** Fills buf[from..to]; fails, as `read_exact` does, when the peer closes the stream first. */
    method ReadExact(buf: array<byte>, from: nat, to: nat) returns (ok: bool)
      requires from <= to <= buf.Length
      modifies this, buf
      ensures ok == (to - from <= |old(rest)|)
      ensures ok ==> rest == old(rest)[to - from..] && buf[from..to] == old(rest)[..to - from]
      ensures ok ==> forall i :: from <= i < to ==> buf[i] == old(rest)[i - from]
      ensures buf[..from] == old(buf[..from])
    {
      ok := to - from <= |rest|;
      if ok {
        var i := from;
        while i < to
          invariant from <= i <= to
          invariant rest == old(rest)
          invariant buf[from..i] == rest[..i - from]
          invariant forall j :: from <= j < i ==> buf[j] == rest[j - from]
          invariant buf[..from] == old(buf[..from])
        {
          buf[i] := rest[i - from];
          i := i + 1;
        }
        rest := rest[to - from..];
      }
    }
  }
}
