/** An input buffer held in segments, as the network delivered them. */
module EvBuffers {
  import opened Bits
  import opened Framing

  class EvBuffer {
    var segs: seq<Bytes>

    function Contents(): Bytes
      reads this
    {
      Joined(segs)
    }

    constructor ()
      ensures Contents() == []
    {
      segs := [];
    }

    method Add(data: Bytes)
      modifies this
      ensures Contents() == old(Contents()) + data
    {
      JoinedConcat(segs, [data]);
      assert Joined([data]) == data + [] == data;
      segs := segs + [data];
    }

    /** How many segments hold the first n bytes, and the first segment. */
    method Peek(n: nat) returns (extents: nat, first: Bytes)
      requires 0 < n <= |Contents()|
      ensures extents == 1 ==> n <= |first| <= |Contents()| && Contents()[..|first|] == first
    {
      first := segs[0];
      extents := 0;
      var sofar := 0;
      while sofar < n
        invariant 0 <= extents <= |segs| && sofar == |Joined(segs[..extents])|
        invariant extents == 1 ==> sofar == |first|
        decreases |segs| - extents
      {
        assert segs[..|segs|] == segs;
        assert segs[..extents + 1] == segs[..extents] + [segs[extents]];
        JoinedConcat(segs[..extents], [segs[extents]]);
        assert Joined([segs[extents]]) == segs[extents] + [];
        sofar := sofar + |segs[extents]|;
        extents := extents + 1;
      }
    }

    /** A copy of the first n bytes, out of however many segments. */
    method CopyOut(n: nat) returns (data: Bytes)
      requires n <= |Contents()|
      ensures data == Contents()[..n]
    {
      data := Contents()[..n];
    }

    method Drain(n: nat)
      requires n <= |Contents()|
      modifies this
      ensures Contents() == old(Contents())[n..]
    {
      var left := n;
      while left > 0
        invariant 0 <= left <= n
        invariant Contents() == old(Contents())[n - left..]
        decreases left, |segs|
      {
        if |segs[0]| <= left {
          left := left - |segs[0]|;
          segs := segs[1..];
        } else {
          segs := [segs[0][left..]] + segs[1..];
          left := 0;
        }
      }
    }

    /** The first n bytes, taken out. */
    method Remove(n: nat) returns (data: Bytes)
      requires n <= |Contents()|
      modifies this
      ensures data == old(Contents())[..n] && Contents() == old(Contents())[n..]
    {
      data := CopyOut(n);
      Drain(n);
    }
  }
}
