/** The API's decimator: a ring read with a modulo index, filtered and decimated in place. */
module Decimator {
  import opened Fir
  import opened Frames
  import opened Indices
  import LowIf

  const MAX_TAPS: nat := 513

  /** A configured decimator; `round` stands for `lround`. */
  datatype Design = Design(factor: nat, coefficients: seq<real>, round: real -> int)

  ghost predicate WellFormed(d: Design) {
    d.factor > 0 && 0 < |d.coefficients| <= MAX_TAPS
  }

  function AsReal(n: nat, x: int): real {
    x as real
  }

  function Reals(x: seq<int>): seq<real> {
    Mapped((n: nat, v: int) => AsReal(n, v), x)
  }

  function ClampInt(value: int, minimum: int, maximum: int): int {
    if value < minimum then minimum else if value > maximum then maximum else value
  }

  /** The result is the value of the range nearest to the rounded sum. */
  lemma ClampNearest(value: int, minimum: int, maximum: int, y: int)
    requires minimum <= y <= maximum
    ensures var r := ClampInt(value, minimum, maximum);
            && minimum <= r <= maximum
            && (value <= r <= y || y <= r <= value)
  {
  }

  /** The output for the newest sample: the convolution over the last taps samples. */
  function Output(d: Design, x: seq<int>): int {
    ClampInt(d.round(Conv(d.coefficients, Reals(x), |x| - 1, |d.coefficients|)), -32768, 32767)
  }

  /** All outputs that a frame `input` gives after the stream `past`. */
  function FrameOutput(d: Design, past: seq<int>, input: seq<int>): seq<int>
    requires d.factor > 0
  {
    Sampled(x => Output(d, x), past, input, d.factor)
  }

  /** Cutting a stream into frames anywhere leaves the concatenated output unchanged. */
  lemma FrameBoundary(d: Design, past: seq<int>, a: seq<int>, b: seq<int>)
    requires WellFormed(d)
    ensures FrameOutput(d, past, a + b) == FrameOutput(d, past, a) + FrameOutput(d, past + a, b)
  {
    SampledSplit(x => Output(d, x), past, a, b, d.factor);
  }

  /** From a fresh state, n samples give ceil(n / factor) outputs: those of samples 0, f, 2f, ... */
  lemma FreshFrame(d: Design, input: seq<int>, k: nat)
    requires WellFormed(d)
    ensures |FrameOutput(d, [], input)| == CeilDiv(|input|, d.factor)
    ensures k < CeilDiv(|input|, d.factor) ==>
              k * d.factor < |input| && FrameOutput(d, [], input)[k] == Output(d, input[..k * d.factor + 1])
  {
    SampledCount(x => Output(d, x), input, d.factor);
    if k < CeilDiv(|input|, d.factor) {
      SampledAt(x => Output(d, x), input, d.factor, k, k * d.factor);
    }
  }

  /** Low-IF conversion by f followed by decimation by d gives ceil(n / (f * d)) samples. */
  lemma ChainCount(p: LowIf.Converter, d: Design, input: seq<Raw>)
    requires LowIf.WellFormed(p) && WellFormed(d)
    ensures p.factor * d.factor > 0
    ensures |FrameOutput(d, [], LowIf.FrameI(p, [], input))| == CeilDiv(|input|, p.factor * d.factor)
    ensures |FrameOutput(d, [], LowIf.FrameQ(p, [], input))| == CeilDiv(|input|, p.factor * d.factor)
  {
    LowIf.FreshFrame(p, input, 0);
    FreshFrame(d, LowIf.FrameI(p, [], input), 0);
    FreshFrame(d, LowIf.FrameQ(p, [], input), 0);
    CeilCompose(|input|, p.factor, d.factor);
  }

  /** The first `input` samples of a frame gave `output` outputs, which stand at the front. */
  ghost predicate InFrame(d: Design, past: seq<int>, now: seq<int>, was: seq<int>, input: nat, output: nat) {
    && WellFormed(d) && input <= |was|
    && output == |FrameOutput(d, past, was[..input])|
    && Overwritten(now, was, FrameOutput(d, past, was[..input]))
  }

  /** The next sample is still unread, and the frame advances by it. */
  lemma FrameStep(d: Design, past: seq<int>, now: seq<int>, was: seq<int>, input: nat, output: nat)
    requires InFrame(d, past, now, was, input, output) && input < |was|
    ensures input < |now| && now[input] == was[input] && output <= input
    ensures past + was[..input] + [was[input]] == past + was[..input + 1]
    ensures if Phase(|past| + input, d.factor) == 0 then
              InFrame(d, past, now[output := Output(d, past + was[..input + 1])], was, input + 1, output + 1)
            else
              InFrame(d, past, now, was, input + 1, output)
  {
    var done, x := was[..input], was[input];
    assert was[..input + 1] == done + [x] && past + done + [x] == past + (done + [x]);
    UnreadIntact(now, was, FrameOutput(d, past, done), input);
    SampledExtend(s => Output(d, s), past, done, x, d.factor);
    OverwriteNext(now, was, FrameOutput(d, past, done), Output(d, past + done + [x]));
  }

  datatype Memory = Memory(position: nat, phase: nat, historyI: seq<int>, historyQ: seq<int>)

  class Decimator {
    const d: Design
    const taps: nat
    const historyI: array<int>
    const historyQ: array<int>
    var position: nat
    var phase: nat
    ghost var fedI: seq<int>
    ghost var fedQ: seq<int>

    ghost predicate Valid()
      reads this, historyI, historyQ
    {
      && WellFormed(d) && taps == |d.coefficients|
      && historyI.Length == historyQ.Length == MAX_TAPS && historyI != historyQ
      && |fedI| == |fedQ|
      && phase == Phase(|fedI|, d.factor) && position == Phase(|fedI|, taps)
      && Circular(historyI[..], position, taps, fedI, 0)
      && Circular(historyQ[..], position, taps, fedQ, 0)
    }

    /** All that the decimator remembers. */
    ghost function Remembered(): Memory
      reads this, historyI, historyQ
    {
      Memory(position, phase, historyI[..], historyQ[..])
    }

    constructor (d: Design)
      requires WellFormed(d)
      ensures Valid() && fedI == fedQ == [] && this.d == d && fresh(historyI) && fresh(historyQ)
    {
      this.d, this.taps := d, |d.coefficients|;
      historyI := new int[MAX_TAPS](_ => 0);
      historyQ := new int[MAX_TAPS](_ => 0);
      position, phase, fedI, fedQ := 0, 0, [], [];
    }

    /** Write one sample into both rings and advance position and phase. */
    method Feed(i: int, q: int)
      requires Valid()
      modifies this`position, this`phase, this`fedI, this`fedQ, historyI, historyQ
      ensures Valid() && fedI == old(fedI) + [i] && fedQ == old(fedQ) + [q]
    {
      CircularRecord(historyI[..], position, taps, fedI, 0, i);
      CircularRecord(historyQ[..], position, taps, fedQ, 0, q);
      historyI[position] := i;
      historyQ[position] := q;
      assert historyI[..] == old(historyI[..])[position := i];
      assert historyQ[..] == old(historyQ[..])[position := q];
      position := NextPosition(position, taps);
      phase := NextPosition(phase, d.factor);
      fedI, fedQ := fedI + [i], fedQ + [q];
    }

    /** The inner loop, newest sample first, through the modulo index. */
    method Convolve(history: array<int>, ghost fed: seq<int>) returns (sum: real)
      requires taps == |d.coefficients| <= MAX_TAPS && history.Length == MAX_TAPS
      requires Circular(history[..], position, taps, fed, 0)
      ensures sum == Conv(d.coefficients, Reals(fed), |fed| - 1, taps)
    {
      sum := 0.0;
      var tap := 0;
      while tap < taps
        invariant tap <= taps
        invariant sum == Conv(d.coefficients, Reals(fed), |fed| - 1, tap)
      {
        RingIndexModulo(position, taps - 1 - tap, taps);
        var index := (position + taps - 1 - tap) % taps;
        assert history[..][index] == At(fed, |fed| - 1 - tap, 0);
        AtReals(fed, |fed| - 1 - tap);
        sum := sum + d.coefficients[tap] * history[index] as real;
        tap := tap + 1;
      }
    }

    /** One turn of the loop: feed a sample, and write an output over an element already read. */
    method ProcessOne(xi: array<int>, xq: array<int>, i: int, q: int, output: nat) returns (next: nat)
      requires Valid() && xi != xq && {xi, xq} !! {historyI, historyQ}
      requires output < xi.Length && output < xq.Length
      modifies this`position, this`phase, this`fedI, this`fedQ, historyI, historyQ, xi, xq
      ensures Valid() && fedI == old(fedI) + [i] && fedQ == old(fedQ) + [q]
      ensures if Phase(|old(fedI)|, d.factor) == 0 then
                && next == output + 1
                && xi[..] == old(xi[..])[output := Output(d, fedI)]
                && xq[..] == old(xq[..])[output := Output(d, fedQ)]
              else
                next == output && xi[..] == old(xi[..]) && xq[..] == old(xq[..])
    {
      var emit := phase == 0;
      Feed(i, q);
      next := output;
      if emit {
        var sumI := Convolve(historyI, fedI);
        var sumQ := Convolve(historyQ, fedQ);
        xi[output] := ClampInt(d.round(sumI), -32768, 32767);
        xq[output] := ClampInt(d.round(sumQ), -32768, 32767);
        next := output + 1;
      }
    }

    /** One turn of the loop inside a frame. */
    method Advance(
      xi: array<int>, xq: array<int>, input: nat, output: nat,
      ghost wasI: seq<int>, ghost wasQ: seq<int>, ghost pastI: seq<int>, ghost pastQ: seq<int>)
      returns (next: nat)
      requires Valid() && xi != xq && {xi, xq} !! {historyI, historyQ}
      requires input < |wasI| && input < |wasQ|
      requires fedI == pastI + wasI[..input] && fedQ == pastQ + wasQ[..input]
      requires InFrame(d, pastI, xi[..], wasI, input, output) && InFrame(d, pastQ, xq[..], wasQ, input, output)
      modifies this`position, this`phase, this`fedI, this`fedQ, historyI, historyQ, xi, xq
      ensures Valid() && fedI == pastI + wasI[..input + 1] && fedQ == pastQ + wasQ[..input + 1]
      ensures InFrame(d, pastI, xi[..], wasI, input + 1, next) && InFrame(d, pastQ, xq[..], wasQ, input + 1, next)
    {
      FrameStep(d, pastI, xi[..], wasI, input, output);
      FrameStep(d, pastQ, xq[..], wasQ, input, output);
      next := ProcessOne(xi, xq, xi[input], xq[input], output);
    }

    /** One frame, in place; factor one passes the frame unchanged. */
    method Process(xi: array<int>, xq: array<int>, samples: nat) returns (output: nat)
      requires d.factor == 1 || Valid()
      requires xi != xq && {xi, xq} !! {historyI, historyQ}
      requires samples <= xi.Length && samples <= xq.Length
      modifies this`position, this`phase, this`fedI, this`fedQ, historyI, historyQ, xi, xq
      ensures d.factor == 1 ==>
                && output == samples && xi[..] == old(xi[..]) && xq[..] == old(xq[..])
                && fedI == old(fedI) && fedQ == old(fedQ) && Remembered() == old(Remembered())
      ensures d.factor != 1 ==>
                && Valid()
                && fedI == old(fedI) + old(xi[..samples]) && fedQ == old(fedQ) + old(xq[..samples])
                && InFrame(d, old(fedI), xi[..], old(xi[..]), samples, output)
                && InFrame(d, old(fedQ), xq[..], old(xq[..]), samples, output)
    {
      if d.factor == 1 {
        return samples;
      }
      ghost var wasI, wasQ, pastI, pastQ := xi[..], xq[..], fedI, fedQ;
      output := 0;
      var input := 0;
      while input < samples
        invariant input <= samples
        invariant Valid() && fedI == pastI + wasI[..input] && fedQ == pastQ + wasQ[..input]
        invariant InFrame(d, pastI, xi[..], wasI, input, output)
        invariant InFrame(d, pastQ, xq[..], wasQ, input, output)
      {
        output := Advance(xi, xq, input, output, wasI, wasQ, pastI, pastQ);
        input := input + 1;
      }
    }

    /** One frame, handed over as a value. */
    method ProcessFrame(frame: seq<Raw>) returns (outI: seq<int>, outQ: seq<int>)
      requires d.factor == 1 || Valid()
      modifies this`position, this`phase, this`fedI, this`fedQ, historyI, historyQ
      ensures old(Valid()) ==> Valid()
      ensures if d.factor == 1 then
                && fedI == old(fedI) && fedQ == old(fedQ) && Remembered() == old(Remembered())
                && outI == ChannelI(frame) && outQ == ChannelQ(frame)
              else
                && fedI == old(fedI) + ChannelI(frame) && fedQ == old(fedQ) + ChannelQ(frame)
                && outI == FrameOutput(d, old(fedI), ChannelI(frame))
                && outQ == FrameOutput(d, old(fedQ), ChannelQ(frame))
    {
      var xi, xq := Unpack(frame);
      assert xi[..|frame|] == xi[..] && xq[..|frame|] == xq[..];
      var count := Process(xi, xq, |frame|);
      outI, outQ := xi[..count], xq[..count];
    }

    /** Any list of frames gives the outputs of the stream they carry. */
    method ProcessFrames(frames: seq<seq<Raw>>) returns (outI: seq<int>, outQ: seq<int>)
      requires d.factor == 1 || Valid()
      modifies this`position, this`phase, this`fedI, this`fedQ, historyI, historyQ
      ensures old(Valid()) ==> Valid()
      ensures var stream := Flatten(frames);
              if d.factor == 1 then
                && fedI == old(fedI) && fedQ == old(fedQ) && Remembered() == old(Remembered())
                && outI == ChannelI(stream) && outQ == ChannelQ(stream)
              else
                && fedI == old(fedI) + ChannelI(stream) && fedQ == old(fedQ) + ChannelQ(stream)
                && outI == FrameOutput(d, old(fedI), ChannelI(stream))
                && outQ == FrameOutput(d, old(fedQ), ChannelQ(stream))
    {
      ghost var pastI, pastQ := fedI, fedQ;
      outI, outQ := [], [];
      var k := 0;
      while k < |frames|
        invariant 0 <= k <= |frames| && (old(Valid()) ==> Valid())
        invariant var stream := Flatten(frames[..k]);
                  if d.factor == 1 then
                    && fedI == pastI && fedQ == pastQ && Remembered() == old(Remembered())
                    && outI == ChannelI(stream) && outQ == ChannelQ(stream)
                  else
                    && fedI == pastI + ChannelI(stream) && fedQ == pastQ + ChannelQ(stream)
                    && outI == FrameOutput(d, pastI, ChannelI(stream))
                    && outQ == FrameOutput(d, pastQ, ChannelQ(stream))
      {
        NextFrame(d, pastI, pastQ, frames, k);
        var i, q := ProcessFrame(frames[k]);
        outI, outQ, k := outI + i, outQ + q, k + 1;
      }
      assert frames[..k] == frames;
    }
  }

  /** One more frame of a list extends the stream and its outputs. */
  lemma NextFrame(d: Design, pastI: seq<int>, pastQ: seq<int>, frames: seq<seq<Raw>>, k: nat)
    requires k < |frames|
    ensures var before, after := Flatten(frames[..k]), Flatten(frames[..k + 1]);
            && ChannelI(after) == ChannelI(before) + ChannelI(frames[k])
            && ChannelQ(after) == ChannelQ(before) + ChannelQ(frames[k])
            && pastI + ChannelI(after) == pastI + ChannelI(before) + ChannelI(frames[k])
            && pastQ + ChannelQ(after) == pastQ + ChannelQ(before) + ChannelQ(frames[k])
            && (WellFormed(d) ==>
                && FrameOutput(d, pastI, ChannelI(after)) == FrameOutput(d, pastI, ChannelI(before)) +
                     FrameOutput(d, pastI + ChannelI(before), ChannelI(frames[k]))
                && FrameOutput(d, pastQ, ChannelQ(after)) == FrameOutput(d, pastQ, ChannelQ(before)) +
                     FrameOutput(d, pastQ + ChannelQ(before), ChannelQ(frames[k])))
  {
    var before := Flatten(frames[..k]);
    FlattenNext(frames, k);
    ChannelsJoin(before, frames[k]);
    if WellFormed(d) {
      FrameBoundary(d, pastI, ChannelI(before), ChannelI(frames[k]));
      FrameBoundary(d, pastQ, ChannelQ(before), ChannelQ(frames[k]));
    }
  }

  ghost predicate SameState(f: Decimator, g: Decimator)
    reads f, g, f.historyI, f.historyQ, g.historyI, g.historyQ
  {
    && f.taps == g.taps && f.position == g.position && f.phase == g.phase
    && f.taps <= f.historyI.Length && f.taps <= f.historyQ.Length
    && f.taps <= g.historyI.Length && f.taps <= g.historyQ.Length
    && forall p :: 0 <= p < f.taps ==> f.historyI[p] == g.historyI[p] && f.historyQ[p] == g.historyQ[p]
  }

  /** Two decimators that were fed the same stream are in the same state. */
  lemma StateIsStream(f: Decimator, g: Decimator)
    requires f.Valid() && g.Valid() && f.d == g.d && f.fedI == g.fedI && f.fedQ == g.fedQ
    ensures SameState(f, g)
  {
    forall p | 0 <= p < f.taps ensures f.historyI[p] == g.historyI[p] && f.historyQ[p] == g.historyQ[p] {
      CircularUnique(f.historyI[..], g.historyI[..], f.position, f.taps, f.fedI, 0, p);
      CircularUnique(f.historyQ[..], g.historyQ[..], f.position, f.taps, f.fedQ, 0, p);
    }
  }

  /**
   Frame-boundary independence of the decimator itself: two decimators in the same
   state, given the same samples in two lists of frames cut differently, put out the
   same samples and end in the same state. With factor one neither changes.
   */
  method CutAnywhere(f: Decimator, g: Decimator, frames: seq<seq<Raw>>, others: seq<seq<Raw>>)
    returns (outI: seq<int>, outQ: seq<int>, otherI: seq<int>, otherQ: seq<int>)
    requires f != g && f.d == g.d && f.fedI == g.fedI && f.fedQ == g.fedQ
    requires f.d.factor == 1 || (f.Valid() && g.Valid())
    requires {f.historyI, f.historyQ} !! {g.historyI, g.historyQ}
    requires Flatten(frames) == Flatten(others)
    modifies f, g, f.historyI, f.historyQ, g.historyI, g.historyQ
    ensures outI == otherI && outQ == otherQ
    ensures if f.d.factor != 1 then SameState(f, g)
            else f.Remembered() == old(f.Remembered()) && g.Remembered() == old(g.Remembered())
  {
    outI, outQ := f.ProcessFrames(frames);
    otherI, otherQ := g.ProcessFrames(others);
    if f.d.factor != 1 {
      StateIsStream(f, g);
    }
  }

  lemma AtReals(x: seq<int>, k: int)
    ensures At(Reals(x), k, 0.0) == At(x, k, 0) as real
  {
  }
}
