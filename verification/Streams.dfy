/** The two ends of a connection: bytes written until it breaks, and bytes read until it ends. */
module Streams {
  import opened Words
  import opened Options

  /** What arrives of `s` over a connection that breaks after `limit` bytes. */
  function Clip(s: seq<u8>, limit: nat): (r: seq<u8>)
    ensures r <= s && |r| == if |s| <= limit then |s| else limit
  {
    if |s| <= limit then s else s[..limit]
  }

  class Writer {
    var written: seq<u8>
    const limit: nat

    constructor (limit: nat)
      ensures written == [] && this.limit == limit
    {
      this.written := [];
      this.limit := limit;
    }

    /** Writes all bytes, or as many as the connection still takes and fails. */
    method WriteAll(bytes: seq<u8>) returns (ok: bool)
      requires |written| <= limit
      modifies this
      ensures written == Clip(old(written) + bytes, limit)
      ensures ok <==> |old(written)| + |bytes| <= limit
    {
      ok := |written| + |bytes| <= limit;
      written := Clip(written + bytes, limit);
    }
  }

  class Reader {
    var rest: seq<u8>

    constructor (s: seq<u8>)
      ensures rest == s
    {
      rest := s;
    }

    /** Takes exactly `n` bytes, or fails at the end of the stream. */
    method ReadExact(n: nat) returns (r: Option<seq<u8>>)
      modifies this
      ensures |old(rest)| >= n ==> r == Some(old(rest)[..n]) && rest == old(rest)[n..]
      ensures |old(rest)| < n ==> r == None && rest == []
    {
      if |rest| >= n {
        r, rest := Some(rest[..n]), rest[n..];
      } else {
        r, rest := None, [];
      }
    }
  }
}
