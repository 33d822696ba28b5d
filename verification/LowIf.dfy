/** Low-IF conversion: mix to zero, filter with a doubled history, and decimate in place. */
module LowIf {
  import opened Fir
  import opened Frames
  import opened Word32

  const MAX_TAPS: nat := 65

  datatype Oscillator = Oscillator(cosine: real, sine: real)

  /**
   A configured converter. `renormalise` stands for the division by the
   oscillator's magnitude every 4096 samples and `round` for `lround`.
   */
  datatype Converter = Converter(
    factor: nat,
    coefficients: seq<real>,
    cosineStep: real,
    sineStep: real,
    renormalise: Oscillator -> Oscillator,
    round: real -> int)

  ghost predicate WellFormed(p: Converter) {
    p.factor > 1 && 0 < |p.coefficients| <= MAX_TAPS
  }

  function Turn(p: Converter, o: Oscillator): Oscillator {
    Oscillator(o.cosine * p.cosineStep - o.sine * p.sineStep,
               o.sine * p.cosineStep + o.cosine * p.sineStep)
  }

  /** The oscillator for sample `n`: it does not depend on the samples. */
  function OscillatorAt(p: Converter, n: nat): Oscillator {
    if n == 0 then Oscillator(1.0, 0.0)
    else
      var turned := Turn(p, OscillatorAt(p, n - 1));
      if n % 4096 == 0 then p.renormalise(turned) else turned
  }

  /** A counter that wraps at 2^32 is a multiple of 4096 exactly when the count is. */
  lemma CounterWraps(n: nat)
    ensures Wrap(n) % 4096 == n % 4096
  {
  }

  function MixI(o: Oscillator, x: Raw): real {
    x.0 as real * o.cosine + x.1 as real * o.sine
  }

  function MixQ(o: Oscillator, x: Raw): real {
    x.1 as real * o.cosine - x.0 as real * o.sine
  }

  /** The squared magnitude. */
  function Power(o: Oscillator): real {
    o.cosine * o.cosine + o.sine * o.sine
  }

  /** The sample is the baseband signal turned by the oscillator. */
  predicate Carried(o: Oscillator, x: Raw, base: (real, real)) {
    && x.0 as real == base.0 * o.cosine - base.1 * o.sine
    && x.1 as real == base.0 * o.sine + base.1 * o.cosine
  }

  /**
   Mixing undoes the carrier: a signal (a, b) that was turned by the oscillator comes
   out as it was, scaled by the oscillator's power.
   */
  lemma MixingUndoesTurning(o: Oscillator, x: Raw, a: real, b: real)
    requires Carried(o, x, (a, b))
    ensures MixI(o, x) == a * Power(o) && MixQ(o, x) == b * Power(o)
  {
    var c, s := o.cosine, o.sine;
    assert a * Power(o) == a * (c * c) + a * (s * s);
    assert b * Power(o) == b * (c * c) + b * (s * s);
  }

  /** Turning multiplies the powers of oscillator and step. */
  lemma TurnMultipliesPower(p: Converter, o: Oscillator)
    ensures Power(Turn(p, o)) == Power(o) * Power(Oscillator(p.cosineStep, p.sineStep))
  {
    var c, s, u, v := o.cosine, o.sine, p.cosineStep, p.sineStep;
    assert (c * u) * (s * v) == (s * u) * (c * v);
    assert Power(o) * (u * u + v * v) == (c * c) * (u * u) + (c * c) * (v * v) + (s * s) * (u * u) + (s * s) * (v * v);
  }

  ghost predicate UnitPower(p: Converter) {
    && Power(Oscillator(p.cosineStep, p.sineStep)) == 1.0
    && forall o :: Power(o) == 1.0 ==> Power(p.renormalise(o)) == 1.0
  }

  lemma {:induction false} OscillatorKeepsPower(p: Converter, n: nat)
    requires UnitPower(p)
    ensures Power(OscillatorAt(p, n)) == 1.0
  {
    if n > 0 {
      OscillatorKeepsPower(p, n - 1);
      TurnMultipliesPower(p, OscillatorAt(p, n - 1));
    }
  }

  /** Over a whole stream: a baseband signal carried by the oscillator is mixed back exactly. */
  lemma StreamMixedBack(p: Converter, raw: seq<Raw>, base: seq<(real, real)>, k: nat)
    requires UnitPower(p) && |base| == |raw| && k < |raw|
    requires forall i :: 0 <= i < |raw| ==> Carried(OscillatorAt(p, i), raw[i], base[i])
    ensures MixedI(p, raw)[k] == base[k].0 && MixedQ(p, raw)[k] == base[k].1
  {
    OscillatorKeepsPower(p, k);
    MixingUndoesTurning(OscillatorAt(p, k), raw[k], base[k].0, base[k].1);
  }

  function MixerI(p: Converter): (nat, Raw) -> real {
    (n: nat, x: Raw) => MixI(OscillatorAt(p, n), x)
  }

  function MixerQ(p: Converter): (nat, Raw) -> real {
    (n: nat, x: Raw) => MixQ(OscillatorAt(p, n), x)
  }

  /** The stream after mixing, channel by channel. */
  function MixedI(p: Converter, raw: seq<Raw>): seq<real> {
    Mapped(MixerI(p), raw)
  }

  function MixedQ(p: Converter, raw: seq<Raw>): seq<real> {
    Mapped(MixerQ(p), raw)
  }

  function ClampSample(p: Converter, v: real): int {
    if v > 32767.0 then 32767 else if v < -32768.0 then -32768 else p.round(v)
  }

  function Distance(a: real, b: real): real {
    if a < b then b - a else a - b
  }

  lemma NearestInteger(n: int, v: real, y: int)
    requires Distance(n as real, v) <= 0.5
    ensures Distance(n as real, v) <= Distance(y as real, v)
  {
    if y < n {
      assert y as real <= (n - 1) as real == n as real - 1.0;
    } else if y > n {
      assert y as real >= (n + 1) as real == n as real + 1.0;
    }
  }

  /** With a rounding to the nearest integer, the result is the 16-bit value nearest to the sum. */
  lemma ClampNearest(p: Converter, v: real, y: int)
    requires Distance(p.round(v) as real, v) <= 0.5 && -32768 <= y <= 32767
    ensures -32768 <= ClampSample(p, v) <= 32767
    ensures Distance(ClampSample(p, v) as real, v) <= Distance(y as real, v)
  {
    var n := p.round(v);
    NearestInteger(n, v, y);
    if -32768.0 <= v <= 32767.0 {
      NearestInteger(n, v, -32768);
      NearestInteger(n, v, 32767);
    }
    assert -32768.0 <= y as real <= 32767.0;
  }

  /** The output for the newest sample: the convolution over the last taps mixed samples. */
  function OutputI(p: Converter, raw: seq<Raw>): int {
    ClampSample(p, Conv(p.coefficients, MixedI(p, raw), |raw| - 1, |p.coefficients|))
  }

  function OutputQ(p: Converter, raw: seq<Raw>): int {
    ClampSample(p, Conv(p.coefficients, MixedQ(p, raw), |raw| - 1, |p.coefficients|))
  }

  /** All outputs that a frame `input` gives after the stream `past`. */
  function FrameI(p: Converter, past: seq<Raw>, input: seq<Raw>): seq<int>
    requires p.factor > 0
  {
    Sampled(raw => OutputI(p, raw), past, input, p.factor)
  }

  function FrameQ(p: Converter, past: seq<Raw>, input: seq<Raw>): seq<int>
    requires p.factor > 0
  {
    Sampled(raw => OutputQ(p, raw), past, input, p.factor)
  }

  /** Cutting a stream into frames anywhere leaves the concatenated output unchanged. */
  lemma FrameBoundary(p: Converter, past: seq<Raw>, a: seq<Raw>, b: seq<Raw>)
    requires WellFormed(p)
    ensures FrameI(p, past, a + b) == FrameI(p, past, a) + FrameI(p, past + a, b)
    ensures FrameQ(p, past, a + b) == FrameQ(p, past, a) + FrameQ(p, past + a, b)
  {
    SampledSplit(raw => OutputI(p, raw), past, a, b, p.factor);
    SampledSplit(raw => OutputQ(p, raw), past, a, b, p.factor);
  }

  /** From a fresh state, n samples give ceil(n / factor) outputs: those of samples 0, f, 2f, ... */
  lemma FreshFrame(p: Converter, input: seq<Raw>, k: nat)
    requires WellFormed(p)
    ensures |FrameI(p, [], input)| == |FrameQ(p, [], input)| == CeilDiv(|input|, p.factor)
    ensures k < CeilDiv(|input|, p.factor) ==>
              && k * p.factor < |input|
              && FrameI(p, [], input)[k] == OutputI(p, input[..k * p.factor + 1])
              && FrameQ(p, [], input)[k] == OutputQ(p, input[..k * p.factor + 1])
  {
    SampledCount(raw => OutputI(p, raw), input, p.factor);
    SampledCount(raw => OutputQ(p, raw), input, p.factor);
    if k < CeilDiv(|input|, p.factor) {
      SampledAt(raw => OutputI(p, raw), input, p.factor, k, k * p.factor);
      SampledAt(raw => OutputQ(p, raw), input, p.factor, k, k * p.factor);
    }
  }

  /** What one more sample adds to a frame's outputs. */
  lemma FrameExtend(p: Converter, past: seq<Raw>, input: seq<Raw>, x: Raw)
    requires WellFormed(p)
    ensures var emit := Phase(|past| + |input|, p.factor) == 0;
            && FrameI(p, past, input + [x]) ==
               FrameI(p, past, input) + (if emit then [OutputI(p, past + input + [x])] else [])
            && FrameQ(p, past, input + [x]) ==
               FrameQ(p, past, input) + (if emit then [OutputQ(p, past + input + [x])] else [])
  {
    SampledExtend(raw => OutputI(p, raw), past, input, x, p.factor);
    SampledExtend(raw => OutputQ(p, raw), past, input, x, p.factor);
  }

  datatype Memory = Memory(
    position: nat, phase: nat, oscillator: Oscillator, oscillatorSamples: word,
    historyI: seq<real>, historyQ: seq<real>)

  class LowIf {
    const p: Converter
    const taps: nat
    const historyI: array<real>
    const historyQ: array<real>
    var position: nat
    var phase: nat
    var oscillator: Oscillator
    var oscillatorSamples: word
    ghost var raw: seq<Raw>

    ghost predicate Shape()
      reads this
    {
      && WellFormed(p) && taps == |p.coefficients|
      && historyI.Length == historyQ.Length == 2 * MAX_TAPS && historyI != historyQ
      && phase == Phase(|raw|, p.factor)
      && oscillatorSamples == Wrap(|raw|) && oscillator == OscillatorAt(p, |raw|)
    }

    ghost predicate Valid()
      reads this, historyI, historyQ
    {
      && Shape()
      && position == Phase(|raw|, taps)
      && Doubled(historyI[..], position, taps, MixedI(p, raw), 0.0)
      && Doubled(historyQ[..], position, taps, MixedQ(p, raw), 0.0)
    }

    /** All that the converter remembers. */
    ghost function Remembered(): Memory
      reads this, historyI, historyQ
    {
      Memory(position, phase, oscillator, oscillatorSamples, historyI[..], historyQ[..])
    }

    constructor (p: Converter)
      requires WellFormed(p)
      ensures Valid() && raw == [] && this.p == p && fresh(historyI) && fresh(historyQ)
    {
      this.p, this.taps := p, |p.coefficients|;
      historyI := new real[2 * MAX_TAPS](_ => 0.0);
      historyQ := new real[2 * MAX_TAPS](_ => 0.0);
      position, phase, oscillator, oscillatorSamples := 0, 0, Oscillator(1.0, 0.0), 0;
      raw := [];
      new;
      DoubledFresh(historyI[..], taps, 0.0);
      DoubledFresh(historyQ[..], taps, 0.0);
      assert MixedI(p, raw) == [] && MixedQ(p, raw) == [];
    }

    /** The 32-bit sample counter wraps; the renormalisation still falls on every 4096th sample. */
    method TurnOscillator(ghost n: nat)
      requires oscillatorSamples == Wrap(n) && oscillator == OscillatorAt(p, n)
      modifies this`oscillator, this`oscillatorSamples
      ensures oscillatorSamples == Wrap(n + 1) && oscillator == OscillatorAt(p, n + 1)
    {
      CounterWraps(n + 1);
      WrapSum(n, 1);
      oscillator := Turn(p, oscillator);
      oscillatorSamples := Wrap(oscillatorSamples + 1);
      if oscillatorSamples % 4096 == 0 {
        oscillator := p.renormalise(oscillator);
      }
    }

    /** Mix one sample, turn the oscillator and record the result; the phase advances too. */
    method Feed(x: Raw)
      requires Valid()
      modifies this`position, this`phase, this`oscillator, this`oscillatorSamples, this`raw,
               historyI, historyQ
      ensures Valid() && raw == old(raw) + [x]
    {
      MappedExtend(MixerI(p), raw, x);
      MappedExtend(MixerQ(p), raw, x);
      var mixedI, mixedQ := MixI(oscillator, x), MixQ(oscillator, x);
      TurnOscillator(|raw|);
      StoreDoubled(historyI, position, taps, mixedI, MixedI(p, raw), 0.0);
      StoreDoubled(historyQ, position, taps, mixedQ, MixedQ(p, raw), 0.0);
      position := NextPosition(position, taps);
      phase := NextPosition(phase, p.factor);
      raw := raw + [x];
    }

    /** The inner loop, newest sample first. */
    method Convolve(history: array<real>, ghost fed: seq<real>) returns (sum: real)
      requires taps == |p.coefficients| <= MAX_TAPS && history.Length == 2 * MAX_TAPS
      requires Doubled(history[..], position, taps, fed, 0.0)
      ensures sum == Conv(p.coefficients, fed, |fed| - 1, taps)
    {
      sum := 0.0;
      var newest := position + taps - 1;
      var tap := 0;
      while tap < taps
        invariant tap <= taps
        invariant sum == Conv(p.coefficients, fed, |fed| - 1, tap)
      {
        assert history[..][newest - tap] == At(fed, |fed| - 1 - tap, 0.0);
        sum := sum + p.coefficients[tap] * history[newest - tap];
        tap := tap + 1;
      }
    }

    /** Write the output for the sample just fed over element `output`. */
    method Emit(xi: array<int>, xq: array<int>, output: nat)
      requires Valid() && xi != xq && output < xi.Length && output < xq.Length
      modifies xi, xq
      ensures xi[..] == old(xi[..])[output := OutputI(p, raw)]
      ensures xq[..] == old(xq[..])[output := OutputQ(p, raw)]
    {
      var sumI := Convolve(historyI, MixedI(p, raw));
      var sumQ := Convolve(historyQ, MixedQ(p, raw));
      xi[output] := ClampSample(p, sumI);
      xq[output] := ClampSample(p, sumQ);
    }

    /** One turn of the loop: feed a sample, and write an output over an element already read. */
    method ProcessOne(xi: array<int>, xq: array<int>, x: Raw, output: nat) returns (next: nat)
      requires Valid() && xi != xq && output < xi.Length && output < xq.Length
      modifies this`position, this`phase, this`oscillator, this`oscillatorSamples, this`raw,
               historyI, historyQ, xi, xq
      ensures Valid() && raw == old(raw) + [x]
      ensures if Phase(|old(raw)|, p.factor) == 0 then
                && next == output + 1
                && xi[..] == old(xi[..])[output := OutputI(p, raw)]
                && xq[..] == old(xq[..])[output := OutputQ(p, raw)]
              else
                next == output && xi[..] == old(xi[..]) && xq[..] == old(xq[..])
    {
      var emit := phase == 0;
      Feed(x);
      next := output;
      if emit {
        Emit(xi, xq, output);
        next := output + 1;
      }
    }

    /** One turn of the loop inside a frame. */
    method Advance(xi: array<int>, xq: array<int>, input: nat, output: nat, ghost f: Frame) returns (next: nat)
      requires Valid() && xi != xq && InFrame(p, f, xi[..], xq[..], input, output)
      requires input < |f.wasI| && input < |f.wasQ| && raw == f.past + Zip(f.wasI, f.wasQ, input)
      modifies this`position, this`phase, this`oscillator, this`oscillatorSamples, this`raw,
               historyI, historyQ, xi, xq
      ensures Valid() && raw == f.past + Zip(f.wasI, f.wasQ, input + 1)
      ensures InFrame(p, f, xi[..], xq[..], input + 1, next)
    {
      FrameStep(p, f, xi[..], xq[..], input, output, raw);
      next := ProcessOne(xi, xq, (xi[input], xq[input]), output);
    }

    /**
     One frame, in place. Output k overwrites element k, which has been read; the
     elements from the output count on keep their values. Without a conversion
     the frame passes unchanged.
     */
    method Process(xi: array<int>, xq: array<int>, samples: nat) returns (output: nat)
      requires p.factor <= 1 || Valid()
      requires xi != xq && samples <= xi.Length && samples <= xq.Length
      modifies this`position, this`phase, this`oscillator, this`oscillatorSamples, this`raw,
               historyI, historyQ, xi, xq
      ensures p.factor <= 1 ==>
                && output == samples && xi[..] == old(xi[..]) && xq[..] == old(xq[..])
                && raw == old(raw) && Remembered() == old(Remembered())
      ensures p.factor > 1 ==>
                && Valid()
                && raw == old(raw) + Zip(old(xi[..]), old(xq[..]), samples)
                && InFrame(p, Frame(old(raw), old(xi[..]), old(xq[..])), xi[..], xq[..], samples, output)
    {
      if p.factor <= 1 {
        return samples;
      }
      ghost var f := Frame(raw, xi[..], xq[..]);
      output := 0;
      var input := 0;
      while input < samples
        invariant input <= samples
        invariant Valid() && raw == f.past + Zip(f.wasI, f.wasQ, input)
        invariant InFrame(p, f, xi[..], xq[..], input, output)
      {
        output := Advance(xi, xq, input, output, f);
        input := input + 1;
      }
    }

    /** One frame, handed over as a value. */
    method ProcessFrame(frame: seq<Raw>) returns (outI: seq<int>, outQ: seq<int>)
      requires p.factor <= 1 || Valid()
      modifies this`position, this`phase, this`oscillator, this`oscillatorSamples, this`raw, historyI, historyQ
      ensures if p.factor <= 1 then
                && raw == old(raw) && Remembered() == old(Remembered())
                && outI == ChannelI(frame) && outQ == ChannelQ(frame)
              else
                && Valid() && raw == old(raw) + frame
                && outI == FrameI(p, old(raw), frame) && outQ == FrameQ(p, old(raw), frame)
    {
      var xi, xq := Unpack(frame);
      assert Zip(ChannelI(frame), ChannelQ(frame), |frame|) == frame;
      var count := Process(xi, xq, |frame|);
      outI, outQ := xi[..count], xq[..count];
    }

    /** Any list of frames gives the outputs of the stream they carry. */
    method ProcessFrames(frames: seq<seq<Raw>>) returns (outI: seq<int>, outQ: seq<int>)
      requires p.factor <= 1 || Valid()
      modifies this`position, this`phase, this`oscillator, this`oscillatorSamples, this`raw, historyI, historyQ
      ensures var stream := Flatten(frames);
              if p.factor <= 1 then
                && raw == old(raw) && Remembered() == old(Remembered())
                && outI == ChannelI(stream) && outQ == ChannelQ(stream)
              else
                && Valid() && raw == old(raw) + stream
                && outI == FrameI(p, old(raw), stream) && outQ == FrameQ(p, old(raw), stream)
    {
      ghost var past := raw;
      outI, outQ := [], [];
      var k := 0;
      while k < |frames|
        invariant 0 <= k <= |frames|
        invariant var stream := Flatten(frames[..k]);
                  if p.factor <= 1 then
                    && raw == past && Remembered() == old(Remembered())
                    && outI == ChannelI(stream) && outQ == ChannelQ(stream)
                  else
                    && Valid() && raw == past + stream
                    && outI == FrameI(p, past, stream) && outQ == FrameQ(p, past, stream)
      {
        NextFrame(p, past, frames, k);
        var i, q := ProcessFrame(frames[k]);
        outI, outQ, k := outI + i, outQ + q, k + 1;
      }
      assert frames[..k] == frames;
    }
  }

  /** One more frame of a list extends the stream and its outputs. */
  lemma NextFrame(p: Converter, past: seq<Raw>, frames: seq<seq<Raw>>, k: nat)
    requires k < |frames|
    ensures var before, after := Flatten(frames[..k]), Flatten(frames[..k + 1]);
            && ChannelI(after) == ChannelI(before) + ChannelI(frames[k])
            && ChannelQ(after) == ChannelQ(before) + ChannelQ(frames[k])
            && past + after == past + before + frames[k]
            && (WellFormed(p) ==>
                && FrameI(p, past, after) == FrameI(p, past, before) + FrameI(p, past + before, frames[k])
                && FrameQ(p, past, after) == FrameQ(p, past, before) + FrameQ(p, past + before, frames[k]))
  {
    var before := Flatten(frames[..k]);
    FlattenNext(frames, k);
    ChannelsJoin(before, frames[k]);
    if WellFormed(p) {
      FrameBoundary(p, past, before, frames[k]);
    }
  }

  ghost predicate SameState(f: LowIf, g: LowIf)
    reads f, g, f.historyI, f.historyQ, g.historyI, g.historyQ
  {
    && f.taps == g.taps && f.position == g.position && f.phase == g.phase
    && f.oscillator == g.oscillator && f.oscillatorSamples == g.oscillatorSamples
    && 2 * f.taps <= f.historyI.Length && 2 * f.taps <= f.historyQ.Length
    && 2 * f.taps <= g.historyI.Length && 2 * f.taps <= g.historyQ.Length
    && forall p :: 0 <= p < 2 * f.taps ==> f.historyI[p] == g.historyI[p] && f.historyQ[p] == g.historyQ[p]
  }

  /** Two converters that were fed the same stream are in the same state. */
  lemma StateIsStream(f: LowIf, g: LowIf)
    requires f.Valid() && g.Valid() && f.p == g.p && f.raw == g.raw
    ensures SameState(f, g)
  {
    forall p | 0 <= p < 2 * f.taps ensures f.historyI[p] == g.historyI[p] && f.historyQ[p] == g.historyQ[p] {
      DoubledUnique(f.historyI[..], g.historyI[..], f.position, f.taps, MixedI(f.p, f.raw), 0.0, p);
      DoubledUnique(f.historyQ[..], g.historyQ[..], f.position, f.taps, MixedQ(f.p, f.raw), 0.0, p);
    }
  }

  /**
   Frame-boundary independence of the converter itself: two converters in the same
   state, given the same samples in two lists of frames cut differently, put out the
   same samples and end in the same state. Without a conversion neither changes.
   */
  method CutAnywhere(f: LowIf, g: LowIf, frames: seq<seq<Raw>>, others: seq<seq<Raw>>)
    returns (outI: seq<int>, outQ: seq<int>, otherI: seq<int>, otherQ: seq<int>)
    requires f != g && f.p == g.p && f.raw == g.raw && (f.p.factor <= 1 || (f.Valid() && g.Valid()))
    requires {f.historyI, f.historyQ} !! {g.historyI, g.historyQ}
    requires Flatten(frames) == Flatten(others)
    modifies f, g, f.historyI, f.historyQ, g.historyI, g.historyQ
    ensures outI == otherI && outQ == otherQ
    ensures if f.p.factor > 1 then SameState(f, g)
            else f.Remembered() == old(f.Remembered()) && g.Remembered() == old(g.Remembered())
  {
    outI, outQ := f.ProcessFrames(frames);
    otherI, otherQ := g.ProcessFrames(others);
    if f.p.factor > 1 {
      StateIsStream(f, g);
    }
  }

  /** A frame being processed: the stream before it and the two arrays on entry. */
  datatype Frame = Frame(past: seq<Raw>, wasI: seq<int>, wasQ: seq<int>)

  /** The first `input` samples of a frame gave `output` outputs, which stand at the front. */
  ghost predicate InFrame(
    p: Converter, f: Frame, nowI: seq<int>, nowQ: seq<int>, input: nat, output: nat)
  {
    && WellFormed(p) && input <= |f.wasI| && input <= |f.wasQ|
    && output <= input
    && InChannel(nowI, f.wasI, FrameI(p, f.past, Zip(f.wasI, f.wasQ, input)), output)
    && InChannel(nowQ, f.wasQ, FrameQ(p, f.past, Zip(f.wasI, f.wasQ, input)), output)
  }

  ghost predicate InChannel(now: seq<int>, was: seq<int>, outputs: seq<int>, output: nat) {
    output == |outputs| && Overwritten(now, was, outputs)
  }

  lemma ChannelStep(
    now: seq<int>, was: seq<int>, outputs: seq<int>, longer: seq<int>, v: int, emit: bool,
    input: nat, output: nat)
    requires InChannel(now, was, outputs, output) && output <= input < |was|
    requires longer == outputs + if emit then [v] else []
    ensures input < |now| && now[input] == was[input]
    ensures if emit then InChannel(now[output := v], was, longer, output + 1)
            else InChannel(now, was, longer, output)
  {
    UnreadIntact(now, was, outputs, input);
    OverwriteNext(now, was, outputs, v);
  }

  lemma StreamStep(f: Frame, input: nat, raw: seq<Raw>)
    requires input < |f.wasI| && input < |f.wasQ| && raw == f.past + Zip(f.wasI, f.wasQ, input)
    ensures var done, x := Zip(f.wasI, f.wasQ, input), (f.wasI[input], f.wasQ[input]);
            && Zip(f.wasI, f.wasQ, input + 1) == done + [x]
            && raw + [x] == f.past + (done + [x])
  {
    ZipExtend(f.wasI, f.wasQ, input);
  }

  /** The next sample is still unread, and the frame advances by it. */
  lemma FrameStep(
    p: Converter, f: Frame, nowI: seq<int>, nowQ: seq<int>, input: nat, output: nat, raw: seq<Raw>)
    requires InFrame(p, f, nowI, nowQ, input, output) && input < |f.wasI| && input < |f.wasQ|
    requires raw == f.past + Zip(f.wasI, f.wasQ, input)
    ensures input < |nowI| && input < |nowQ| && output < |nowI| && output < |nowQ|
    ensures var longer := raw + [(nowI[input], nowQ[input])];
            && longer == f.past + Zip(f.wasI, f.wasQ, input + 1)
            && if Phase(|raw|, p.factor) == 0 then
                 InFrame(p, f, nowI[output := OutputI(p, longer)], nowQ[output := OutputQ(p, longer)],
                         input + 1, output + 1)
               else
                 InFrame(p, f, nowI, nowQ, input + 1, output)
  {
    var done, more := Zip(f.wasI, f.wasQ, input), Zip(f.wasI, f.wasQ, input + 1);
    var x, emit := (f.wasI[input], f.wasQ[input]), Phase(|raw|, p.factor) == 0;
    StreamStep(f, input, raw);
    FrameExtend(p, f.past, done, x);
    ChannelStep(nowI, f.wasI, FrameI(p, f.past, done), FrameI(p, f.past, more),
                OutputI(p, raw + [x]), emit, input, output);
    ChannelStep(nowQ, f.wasQ, FrameQ(p, f.past, done), FrameQ(p, f.past, more),
                OutputQ(p, raw + [x]), emit, input, output);
  }

  /** The first `n` samples of two channels. */
  function Zip(a: seq<int>, b: seq<int>, n: nat): (r: seq<Raw>)
    requires n <= |a| && n <= |b|
    ensures |r| == n
  {
    seq(n, k requires 0 <= k < n => (a[k], b[k]))
  }

  lemma ZipExtend(a: seq<int>, b: seq<int>, n: nat)
    requires n < |a| && n < |b|
    ensures Zip(a, b, n + 1) == Zip(a, b, n) + [(a[n], b[n])]
  {
  }
}
