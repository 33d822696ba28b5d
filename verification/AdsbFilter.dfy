/** The fixed-point ADS-B filter: doubled circular history, in place, exact integer arithmetic. */
module AdsbFilter {
  import opened Fir
  import opened Frames

  const MAX_TAPS: nat := 17
  const SCALE: int := 0x4000_0000

  predicate Int16(x: int) {
    -0x8000 <= x < 0x8000
  }

  predicate Int32(x: int) {
    -0x8000_0000 <= x < 0x8000_0000
  }

  predicate Int64(x: int) {
    -0x8000_0000_0000_0000 <= x < 0x8000_0000_0000_0000
  }

  ghost predicate AllInt16(s: seq<int>) {
    forall k :: 0 <= k < |s| ==> Int16(s[k])
  }

  ghost predicate AllInt32(s: seq<int>) {
    forall k :: 0 <= k < |s| ==> Int32(s[k])
  }

  function Magnitude(x: int): int {
    if x < 0 then -x else x
  }

  /** The scaled sum rounded toward zero to a multiple of one, then limited to 16 bits. */
  function ClampSample(v: int): (r: int)
    ensures Int16(r)
    ensures r != 0 ==> (r > 0 <==> v > 0)
    ensures Magnitude(r) * SCALE <= Magnitude(v)
    ensures Magnitude(v) >= (Magnitude(r) + 1) * SCALE ==> r == 0x7fff || r == -0x8000
  {
    var value := if v >= 0 then v / SCALE else -((-v) / SCALE);
    if value > 0x7fff then 0x7fff else if value < -0x8000 then -0x8000 else value
  }

  /** The filter's output for the newest sample of a stream: the window of the last taps samples. */
  function Output(c: seq<int>, x: seq<int>): int {
    ClampSample(Dot(c, x, |x| - |c|, |c|))
  }

  /** What the filter makes of `input` after it has already seen `past`. */
  function Filtered(c: seq<int>, past: seq<int>, input: seq<int>): seq<int> {
    Sampled(x => Output(c, x), past, input, 1)
  }

  /** Sample by sample, the output is the window that ends there. */
  lemma FilteredAt(c: seq<int>, past: seq<int>, input: seq<int>)
    ensures |Filtered(c, past, input)| == |input|
    ensures forall k :: 0 <= k < |input| ==>
              Filtered(c, past, input)[k] == Output(c, past + input[..k + 1])
  {
    SampledEvery(x => Output(c, x), past, input);
  }

  /** Cutting a stream into frames anywhere leaves the concatenated output unchanged. */
  lemma FrameBoundary(c: seq<int>, past: seq<int>, a: seq<int>, b: seq<int>)
    ensures Filtered(c, past, a + b) == Filtered(c, past, a) + Filtered(c, past + a, b)
  {
    SampledSplit(x => Output(c, x), past, a, b, 1);
  }

  lemma FilteredExtend(c: seq<int>, past: seq<int>, input: seq<int>, x: int)
    ensures Filtered(c, past, input + [x]) == Filtered(c, past, input) + [Output(c, past + input + [x])]
  {
    SampledExtend(s => Output(c, s), past, input, x, 1);
  }

  // ------------------------------------------------------------------ overflow

  lemma NatProductBound(a: nat, b: nat)
    requires a <= 0x8000_0000 && b <= 0x8000
    ensures b * a <= 0x4000_0000_0000
  {
    ScaleBound(b, 0x8000, a);
  }

  lemma MagnitudeProduct(a: int, b: int)
    ensures Magnitude(b) * Magnitude(a) == Magnitude(a * b)
  {
    if a >= 0 {
      if b < 0 { assert (-b) * a == -(a * b); }
    } else if b >= 0 {
      assert b * (-a) == -(a * b);
    } else {
      assert (-b) * (-a) == a * b;
    }
  }

  lemma ProductBound(a: int, b: int)
    requires Int32(a) && Int16(b)
    ensures Magnitude(a * b) <= 0x4000_0000_0000
  {
    MagnitudeProduct(a, b);
    NatProductBound(Magnitude(a), Magnitude(b));
  }

  /** No partial sum of the 64-bit accumulator can overflow, for any coefficients. */
  lemma {:induction false} AccumulatorFits(c: seq<int>, x: seq<int>, start: int, count: nat)
    requires count <= |c| <= MAX_TAPS && AllInt32(c) && AllInt16(x)
    ensures Magnitude(Dot(c, x, start, count)) <= count * 0x4000_0000_0000
    ensures Int64(Dot(c, x, start, count))
  {
    if count > 0 {
      AccumulatorFits(c, x, start, count - 1);
      ProductBound(c[count - 1], At(x, start + count - 1, 0));
    }
  }

  // -------------------------------------------------------------------- filter

  class AdsbFilter {
    const passThrough: bool
    const taps: nat
    const coefficients: seq<int>
    const historyI: array<int>
    const historyQ: array<int>
    var position: nat
    ghost var fedI: seq<int>
    ghost var fedQ: seq<int>

    ghost predicate Shape()
      reads this
    {
      && 0 < taps == |coefficients| <= MAX_TAPS && AllInt32(coefficients)
      && historyI.Length == historyQ.Length == 2 * MAX_TAPS && historyI != historyQ
      && |fedI| == |fedQ| && position == Phase(|fedI|, taps)
      && AllInt16(fedI) && AllInt16(fedQ)
    }

    ghost predicate Valid()
      reads this, historyI, historyQ
    {
      && Shape()
      && Doubled(historyI[..], position, taps, fedI, 0)
      && Doubled(historyQ[..], position, taps, fedQ, 0)
    }

    constructor (passThrough: bool, coefficients: seq<int>)
      requires 0 < |coefficients| <= MAX_TAPS && AllInt32(coefficients)
      ensures Valid() && fedI == fedQ == [] && fresh(historyI) && fresh(historyQ)
      ensures this.passThrough == passThrough && this.coefficients == coefficients
    {
      this.passThrough, this.coefficients, this.taps := passThrough, coefficients, |coefficients|;
      historyI := new int[2 * MAX_TAPS](_ => 0);
      historyQ := new int[2 * MAX_TAPS](_ => 0);
      position, fedI, fedQ := 0, [], [];
      new;
      DoubledFresh(historyI[..], taps, 0);
      DoubledFresh(historyQ[..], taps, 0);
    }

    /** Forget the stream. */
    method Reset()
      requires Shape()
      modifies this`position, this`fedI, this`fedQ, historyI, historyQ
      ensures Valid() && fedI == fedQ == []
    {
      forall k | 0 <= k < historyI.Length { historyI[k] := 0; }
      forall k | 0 <= k < historyQ.Length { historyQ[k] := 0; }
      position, fedI, fedQ := 0, [], [];
      DoubledFresh(historyI[..], taps, 0);
      DoubledFresh(historyQ[..], taps, 0);
    }

    /** Write one sample into both histories and advance the position. */
    method Feed(i: int, q: int)
      requires Valid() && Int16(i) && Int16(q)
      modifies this`position, this`fedI, this`fedQ, historyI, historyQ
      ensures Valid() && fedI == old(fedI) + [i] && fedQ == old(fedQ) + [q]
    {
      StoreDoubled(historyI, position, taps, i, fedI, 0);
      StoreDoubled(historyQ, position, taps, q, fedQ, 0);
      position := NextPosition(position, taps);
      fedI, fedQ := fedI + [i], fedQ + [q];
    }

    /** The inner loop: the contiguous window at the position is the last `taps` samples. */
    method Convolve(history: array<int>, ghost fed: seq<int>) returns (sum: int)
      requires Shape() && history.Length == 2 * MAX_TAPS && AllInt16(fed)
      requires Doubled(history[..], position, taps, fed, 0)
      ensures sum == Dot(coefficients, fed, |fed| - taps, taps) && Int64(sum)
    {
      sum := 0;
      var tap := 0;
      while tap < taps
        invariant tap <= taps
        invariant sum == Dot(coefficients, fed, |fed| - taps, tap) && Int64(sum)
      {
        assert history[..][position + tap] == At(fed, |fed| - taps + tap, 0);
        AccumulatorFits(coefficients, fed, |fed| - taps, tap + 1);
        sum := sum + coefficients[tap] * history[position + tap];
        tap := tap + 1;
      }
      AccumulatorFits(coefficients, fed, |fed| - taps, taps);
    }

    /** One turn of the loop: feed a sample and write its output over it. */
    method ProcessOne(xi: array<int>, xq: array<int>, index: nat)
      requires Valid() && xi != xq && {xi, xq} !! {historyI, historyQ}
      requires index < xi.Length && index < xq.Length && Int16(xi[index]) && Int16(xq[index])
      modifies this`position, this`fedI, this`fedQ, historyI, historyQ, xi, xq
      ensures Valid() && fedI == old(fedI + [xi[index]]) && fedQ == old(fedQ + [xq[index]])
      ensures xi[..] == old(xi[..])[index := Output(coefficients, fedI)]
      ensures xq[..] == old(xq[..])[index := Output(coefficients, fedQ)]
    {
      Feed(xi[index], xq[index]);
      var sumI := Convolve(historyI, fedI);
      var sumQ := Convolve(historyQ, fedQ);
      xi[index] := ClampSample(sumI);
      xq[index] := ClampSample(sumQ);
    }

    /**
     One frame, in place: every sample is replaced by the convolution over the
     last taps inputs of the whole stream, the rest of the arrays is untouched.
     */
    method Process(xi: array<int>, xq: array<int>, samples: nat) returns (count: nat)
      requires Valid() && xi != xq && {xi, xq} !! {historyI, historyQ}
      requires samples <= xi.Length && samples <= xq.Length
      requires AllInt16(xi[..samples]) && AllInt16(xq[..samples])
      modifies this`position, this`fedI, this`fedQ, historyI, historyQ, xi, xq
      ensures Valid() && count == samples
      ensures passThrough ==> fedI == old(fedI) && fedQ == old(fedQ) &&
                              xi[..] == old(xi[..]) && xq[..] == old(xq[..])
      ensures !passThrough ==>
                && fedI == old(fedI) + old(xi[..samples])
                && fedQ == old(fedQ) + old(xq[..samples])
                && InFrame(coefficients, old(fedI), xi[..], old(xi[..]), samples)
                && InFrame(coefficients, old(fedQ), xq[..], old(xq[..]), samples)
    {
      if passThrough {
        return samples;
      }
      ghost var wasI, wasQ, pastI, pastQ := xi[..], xq[..], fedI, fedQ;
      var index := 0;
      while index < samples
        invariant index <= samples
        invariant Valid() && fedI == pastI + wasI[..index] && fedQ == pastQ + wasQ[..index]
        invariant InFrame(coefficients, pastI, xi[..], wasI, index)
        invariant InFrame(coefficients, pastQ, xq[..], wasQ, index)
      {
        FrameStep(coefficients, pastI, xi[..], wasI, index);
        FrameStep(coefficients, pastQ, xq[..], wasQ, index);
        assert xi[index] == wasI[..samples][index] && xq[index] == wasQ[..samples][index];
        ProcessOne(xi, xq, index);
        index := index + 1;
      }
      return samples;
    }

    /** One frame, handed over as a value. */
    method ProcessFrame(frame: seq<Raw>) returns (outI: seq<int>, outQ: seq<int>)
      requires Valid() && AllInt16(ChannelI(frame)) && AllInt16(ChannelQ(frame))
      modifies this`position, this`fedI, this`fedQ, historyI, historyQ
      ensures Valid()
      ensures if passThrough then
                && fedI == old(fedI) && fedQ == old(fedQ)
                && outI == ChannelI(frame) && outQ == ChannelQ(frame)
              else
                && fedI == old(fedI) + ChannelI(frame) && fedQ == old(fedQ) + ChannelQ(frame)
                && outI == Filtered(coefficients, old(fedI), ChannelI(frame))
                && outQ == Filtered(coefficients, old(fedQ), ChannelQ(frame))
    {
      var xi, xq := Unpack(frame);
      assert xi[..|frame|] == xi[..] && xq[..|frame|] == xq[..];
      var count := Process(xi, xq, |frame|);
      outI, outQ := xi[..count], xq[..count];
    }

    /** Any list of frames gives the outputs of the stream they carry. */
    method ProcessFrames(frames: seq<seq<Raw>>) returns (outI: seq<int>, outQ: seq<int>)
      requires Valid() && InRange(frames)
      modifies this`position, this`fedI, this`fedQ, historyI, historyQ
      ensures Valid()
      ensures var stream := Flatten(frames);
              if passThrough then
                && fedI == old(fedI) && fedQ == old(fedQ)
                && outI == ChannelI(stream) && outQ == ChannelQ(stream)
              else
                && fedI == old(fedI) + ChannelI(stream) && fedQ == old(fedQ) + ChannelQ(stream)
                && outI == Filtered(coefficients, old(fedI), ChannelI(stream))
                && outQ == Filtered(coefficients, old(fedQ), ChannelQ(stream))
    {
      ghost var pastI, pastQ := fedI, fedQ;
      outI, outQ := [], [];
      var k := 0;
      while k < |frames|
        invariant 0 <= k <= |frames| && Valid()
        invariant var stream := Flatten(frames[..k]);
                  if passThrough then
                    && fedI == pastI && fedQ == pastQ
                    && outI == ChannelI(stream) && outQ == ChannelQ(stream)
                  else
                    && fedI == pastI + ChannelI(stream) && fedQ == pastQ + ChannelQ(stream)
                    && outI == Filtered(coefficients, pastI, ChannelI(stream))
                    && outQ == Filtered(coefficients, pastQ, ChannelQ(stream))
      {
        NextFrame(coefficients, pastI, pastQ, frames, k);
        var i, q := ProcessFrame(frames[k]);
        outI, outQ, k := outI + i, outQ + q, k + 1;
      }
      assert frames[..k] == frames;
    }
  }

  /** One more frame of a list extends the stream and its outputs. */
  lemma NextFrame(c: seq<int>, pastI: seq<int>, pastQ: seq<int>, frames: seq<seq<Raw>>, k: nat)
    requires k < |frames|
    ensures var before, after := Flatten(frames[..k]), Flatten(frames[..k + 1]);
            && ChannelI(after) == ChannelI(before) + ChannelI(frames[k])
            && ChannelQ(after) == ChannelQ(before) + ChannelQ(frames[k])
            && pastI + ChannelI(after) == pastI + ChannelI(before) + ChannelI(frames[k])
            && pastQ + ChannelQ(after) == pastQ + ChannelQ(before) + ChannelQ(frames[k])
            && Filtered(c, pastI, ChannelI(after)) == Filtered(c, pastI, ChannelI(before)) +
                 Filtered(c, pastI + ChannelI(before), ChannelI(frames[k]))
            && Filtered(c, pastQ, ChannelQ(after)) == Filtered(c, pastQ, ChannelQ(before)) +
                 Filtered(c, pastQ + ChannelQ(before), ChannelQ(frames[k]))
  {
    var before := Flatten(frames[..k]);
    FlattenNext(frames, k);
    ChannelsJoin(before, frames[k]);
    FrameBoundary(c, pastI, ChannelI(before), ChannelI(frames[k]));
    FrameBoundary(c, pastQ, ChannelQ(before), ChannelQ(frames[k]));
  }

  ghost predicate InRange(frames: seq<seq<Raw>>) {
    forall k :: 0 <= k < |frames| ==> AllInt16(ChannelI(frames[k])) && AllInt16(ChannelQ(frames[k]))
  }

  /** The first `index` samples of a frame have been replaced by their outputs. */
  ghost predicate InFrame(c: seq<int>, past: seq<int>, now: seq<int>, was: seq<int>, index: nat) {
    && index <= |was| && |Filtered(c, past, was[..index])| == index
    && Overwritten(now, was, Filtered(c, past, was[..index]))
  }

  /** The next sample is still unread; writing its output advances the frame. */
  lemma FrameStep(c: seq<int>, past: seq<int>, now: seq<int>, was: seq<int>, index: nat)
    requires InFrame(c, past, now, was, index) && index < |was|
    ensures index < |now| && now[index] == was[index]
    ensures past + was[..index] + [was[index]] == past + was[..index + 1]
    ensures InFrame(c, past, now[index := Output(c, past + was[..index + 1])], was, index + 1)
  {
    var done, x := was[..index], was[index];
    assert was[..index + 1] == done + [x] && past + done + [x] == past + (done + [x]);
    UnreadIntact(now, was, Filtered(c, past, done), index);
    FilteredExtend(c, past, done, x);
    OverwriteNext(now, was, Filtered(c, past, done), Output(c, past + done + [x]));
  }

  /** Two filters that were fed the same stream are in the same state. */
  lemma StateIsStream(f: AdsbFilter, g: AdsbFilter)
    requires f.Valid() && g.Valid() && f.taps == g.taps && f.fedI == g.fedI && f.fedQ == g.fedQ
    ensures SameState(f, g)
  {
    forall p | 0 <= p < 2 * f.taps ensures f.historyI[p] == g.historyI[p] && f.historyQ[p] == g.historyQ[p] {
      DoubledUnique(f.historyI[..], g.historyI[..], f.position, f.taps, f.fedI, 0, p);
      DoubledUnique(f.historyQ[..], g.historyQ[..], f.position, f.taps, f.fedQ, 0, p);
    }
  }

  ghost predicate SameState(f: AdsbFilter, g: AdsbFilter)
    reads f, g, f.historyI, f.historyQ, g.historyI, g.historyQ
  {
    && f.taps == g.taps && f.position == g.position
    && 2 * f.taps <= f.historyI.Length && 2 * f.taps <= f.historyQ.Length
    && 2 * f.taps <= g.historyI.Length && 2 * f.taps <= g.historyQ.Length
    && forall p :: 0 <= p < 2 * f.taps ==> f.historyI[p] == g.historyI[p] && f.historyQ[p] == g.historyQ[p]
  }

  /**
   Frame-boundary independence of the filter itself: two filters in the same state,
   given the same samples in two lists of frames cut differently, put out the same
   samples and end in the same state.
   */
  method CutAnywhere(f: AdsbFilter, g: AdsbFilter, frames: seq<seq<Raw>>, others: seq<seq<Raw>>)
    returns (outI: seq<int>, outQ: seq<int>, otherI: seq<int>, otherQ: seq<int>)
    requires f.Valid() && g.Valid() && f != g
    requires {f.historyI, f.historyQ} !! {g.historyI, g.historyQ}
    requires f.coefficients == g.coefficients && f.passThrough == g.passThrough
    requires f.fedI == g.fedI && f.fedQ == g.fedQ
    requires Flatten(frames) == Flatten(others) && InRange(frames) && InRange(others)
    modifies f, g, f.historyI, f.historyQ, g.historyI, g.historyQ
    ensures outI == otherI && outQ == otherQ && SameState(f, g)
  {
    outI, outQ := f.ProcessFrames(frames);
    otherI, otherQ := g.ProcessFrames(others);
    StateIsStream(f, g);
  }
}
