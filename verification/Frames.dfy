/** IQ frames as values: a stream cut into frames, and its two channels. */
module Frames {

  type Raw = (int, int)

  /** The stream that a list of frames carries. */
  function Flatten<T>(frames: seq<seq<T>>): seq<T> {
    if frames == [] then [] else Flatten(frames[..|frames| - 1]) + frames[|frames| - 1]
  }

  lemma FlattenNext<T>(frames: seq<seq<T>>, k: nat)
    requires k < |frames|
    ensures Flatten(frames[..k + 1]) == Flatten(frames[..k]) + frames[k]
  {
    assert frames[..k + 1][..k] == frames[..k];
  }

  function ChannelI(s: seq<Raw>): (r: seq<int>)
    ensures |r| == |s|
  {
    seq(|s|, k requires 0 <= k < |s| => s[k].0)
  }

  function ChannelQ(s: seq<Raw>): (r: seq<int>)
    ensures |r| == |s|
  {
    seq(|s|, k requires 0 <= k < |s| => s[k].1)
  }

  lemma ChannelsJoin(a: seq<Raw>, b: seq<Raw>)
    ensures ChannelI(a + b) == ChannelI(a) + ChannelI(b)
    ensures ChannelQ(a + b) == ChannelQ(a) + ChannelQ(b)
  {
  }

  /** The two scratch arrays that a frame is unpacked into. */
  method Unpack(frame: seq<Raw>) returns (xi: array<int>, xq: array<int>)
    ensures fresh(xi) && fresh(xq) && xi != xq
    ensures xi[..] == ChannelI(frame) && xq[..] == ChannelQ(frame)
  {
    xi := new int[|frame|](k requires 0 <= k < |frame| => frame[k].0);
    xq := new int[|frame|](k requires 0 <= k < |frame| => frame[k].1);
  }
}
