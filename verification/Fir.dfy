/** Sliding-window convolution over an unbounded stream, and the index arithmetic of decimation. */
module Fir {
  import opened Indices

  /** Sample `k` of a stream that is zero before its start. */
  function At<T>(stream: seq<T>, k: int, zero: T): T {
    if 0 <= k < |stream| then stream[k] else zero
  }

  /** The last `taps` samples stand twice in a buffer, so that a window never wraps. */
  ghost predicate Doubled<T>(h: seq<T>, position: nat, taps: nat, fed: seq<T>, zero: T) {
    && position < taps && 2 * taps <= |h|
    && (forall k :: position <= k < position + taps ==>
          h[k] == At(fed, |fed| - taps + (k - position), zero))
    && (forall p :: 0 <= p < taps ==> h[p + taps] == h[p])
  }

  function NextPosition(position: nat, taps: nat): nat
    requires position < taps
  {
    if position + 1 == taps then 0 else position + 1
  }

  /** Writing a sample at the position and one window later keeps the buffer doubled. */
  lemma DoubledRecord<T>(h: seq<T>, position: nat, taps: nat, fed: seq<T>, zero: T, x: T)
    requires Doubled(h, position, taps, fed, zero)
    ensures Doubled(h[position := x][position + taps := x], NextPosition(position, taps), taps,
                    fed + [x], zero)
  {
    var g, next := h[position := x][position + taps := x], NextPosition(position, taps);
    forall k | next <= k < next + taps
      ensures g[k] == At(fed + [x], |fed| + 1 - taps + (k - next), zero)
    {
      var source := position + 1 + (k - next);
      if source < position + taps {
        assert h[source] == At(fed, |fed| - taps + (source - position), zero);
        if next == 0 {
          assert h[k + taps] == h[k];
        }
      }
    }
  }

  /** A buffer of zeros is doubled for the empty stream. */
  lemma DoubledFresh<T>(h: seq<T>, taps: nat, zero: T)
    requires 0 < taps && 2 * taps <= |h| && forall p :: 0 <= p < |h| ==> h[p] == zero
    ensures Doubled(h, 0, taps, [], zero)
  {
  }

  /** A doubled buffer is determined by its stream. */
  lemma DoubledUnique<T>(a: seq<T>, b: seq<T>, position: nat, taps: nat, fed: seq<T>, zero: T, p: nat)
    requires Doubled(a, position, taps, fed, zero) && Doubled(b, position, taps, fed, zero)
    requires p < 2 * taps
    ensures a[p] == b[p]
  {
    if p < taps {
      assert a[p + taps] == a[p] && b[p + taps] == b[p];
    } else {
      assert a[p - taps + taps] == a[p - taps] && b[p - taps + taps] == b[p - taps];
    }
  }

  /** Record a sample in a doubled buffer: one write at the position, one a window later. */
  method StoreDoubled<T>(history: array<T>, position: nat, taps: nat, x: T, ghost fed: seq<T>, ghost zero: T)
    requires Doubled(history[..], position, taps, fed, zero)
    modifies history
    ensures Doubled(history[..], NextPosition(position, taps), taps, fed + [x], zero)
  {
    DoubledRecord(history[..], position, taps, fed, zero, x);
    history[position] := x;
    history[position + taps] := x;
    assert history[..] == old(history[..])[position := x][position + taps := x];
  }

  /** The last `taps` samples in a ring read with a modulo index. */
  ghost predicate Circular<T>(h: seq<T>, position: nat, taps: nat, fed: seq<T>, zero: T) {
    && position < taps && taps <= |h|
    && (forall j :: 0 <= j < taps ==>
          h[RingIndex(position, j, taps)] == At(fed, |fed| - taps + j, zero))
  }

  /** A ring is determined by its stream. */
  lemma CircularUnique<T>(a: seq<T>, b: seq<T>, position: nat, taps: nat, fed: seq<T>, zero: T, p: nat)
    requires Circular(a, position, taps, fed, zero) && Circular(b, position, taps, fed, zero)
    requires p < taps
    ensures a[p] == b[p]
  {
    var j := if p >= position then p - position else p + taps - position;
    assert RingIndex(position, j, taps) == p;
  }

  lemma CircularRecord<T>(h: seq<T>, position: nat, taps: nat, fed: seq<T>, zero: T, x: T)
    requires Circular(h, position, taps, fed, zero)
    ensures Circular(h[position := x], NextPosition(position, taps), taps, fed + [x], zero)
  {
    var g, next := h[position := x], NextPosition(position, taps);
    forall j | 0 <= j < taps
      ensures g[RingIndex(next, j, taps)] == At(fed + [x], |fed| + 1 - taps + j, zero)
    {
      if j < taps - 1 {
        assert h[RingIndex(position, j + 1, taps)] == At(fed, |fed| - taps + (j + 1), zero);
        assert RingIndex(next, j, taps) == RingIndex(position, j + 1, taps);
      }
    }
  }

  /** A counter that starts at 0 and wraps after m steps, n steps later. */
  function Phase(n: nat, m: nat): (r: nat)
    requires m > 0
    ensures r < m
  {
    if n == 0 then 0 else NextPosition(Phase(n - 1, m), m)
  }

  /** It is n modulo m. */
  lemma {:induction false} PhaseModulo(n: nat, m: nat)
    requires m > 0
    ensures Phase(n, m) == n % m
  {
    if n == 0 {
      ModuloUnique(0, 0, 0, m);
    } else {
      PhaseModulo(n - 1, m);
      var q, r := (n - 1) / m, (n - 1) % m;
      assert n - 1 == q * m + r;
      if r + 1 == m {
        assert n == (q + 1) * m + 0;
        ModuloUnique(n, q + 1, 0, m);
      } else {
        ModuloUnique(n, q, r + 1, m);
      }
    }
  }

  // -------------------------------------------------------------- convolutions

  /** The first `count` products of coefficients with consecutive samples from `start`. */
  function Dot(c: seq<int>, x: seq<int>, start: int, count: nat): int
    requires count <= |c|
  {
    if count == 0 then 0
    else Dot(c, x, start, count - 1) + c[count - 1] * At(x, start + count - 1, 0)
  }

  /** The first `count` products of coefficients with samples going back from `newest`. */
  function Conv(c: seq<real>, x: seq<real>, newest: int, count: nat): real
    requires count <= |c|
  {
    if count == 0 then 0.0
    else Conv(c, x, newest, count - 1) + c[count - 1] * At(x, newest - (count - 1), 0.0)
  }

  // ----------------------------------------------------------------- decimation

  function CeilDiv(n: nat, f: nat): nat
    requires f > 0
  {
    (n + f - 1) / f
  }

  /** ceil(n / f) grows by one exactly after a multiple of f. */
  lemma CeilStep(n: nat, f: nat)
    requires f > 0
    ensures CeilDiv(n + 1, f) == CeilDiv(n, f) + if n % f == 0 then 1 else 0
  {
    var q, r := n / f, n % f;
    assert n == q * f + r;
    assert n + 1 + f - 1 == (q + 1) * f + r;
    ModuloUnique(n + f, q + 1, r, f);
    if r == 0 {
      ModuloUnique(n + f - 1, q, f - 1, f);
    } else {
      assert n + f - 1 == (q + 1) * f + (r - 1);
      ModuloUnique(n + f - 1, q + 1, r - 1, f);
    }
  }

  /** ceil(n / f) is the least number of blocks of f that cover n. */
  lemma CeilBounds(n: nat, f: nat)
    requires f > 0
    ensures CeilDiv(n, f) * f >= n
    ensures CeilDiv(n, f) > 0 ==> (CeilDiv(n, f) - 1) * f < n
  {
    var m := n + f - 1;
    assert m == (m / f) * f + m % f;
    assert (CeilDiv(n, f) - 1) * f == CeilDiv(n, f) * f - f;
  }

  lemma CeilUnique(n: nat, f: nat, b: nat)
    requires f > 0 && b * f >= n && (b > 0 ==> (b - 1) * f < n)
    ensures CeilDiv(n, f) == b
  {
    if b == 0 {
      ModuloUnique(f - 1, 0, f - 1, f);
    } else {
      var r := n - 1 - (b - 1) * f;
      assert b * f == (b - 1) * f + f;
      assert n + f - 1 == b * f + r;
      ModuloUnique(n + f - 1, b, r, f);
    }
  }

  /** Scaling a block count by f: b blocks of f * d cover exactly what b blocks of d cover of f. */
  lemma BlocksCompose(b: int, f: nat, d: nat)
    ensures b * (f * d) == (b * d) * f
  {
  }

  lemma ScaleBound(x: int, y: int, f: nat)
    requires x <= y
    ensures x * f <= y * f
  {
  }

  /** Factor f followed by factor d gives ceil(n / (f * d)) outputs. */
  lemma CeilCompose(n: nat, f: nat, d: nat)
    requires f > 0 && d > 0
    ensures f * d > 0 && CeilDiv(CeilDiv(n, f), d) == CeilDiv(n, f * d)
  {
    assert f * d > 0;
    var a := CeilDiv(n, f);
    var b := CeilDiv(a, d);
    CeilBounds(n, f);
    CeilBounds(a, d);
    BlocksCompose(b, f, d);
    BlocksCompose(b - 1, f, d);
    ScaleBound(a, b * d, f);
    if b > 0 {
      ScaleBound((b - 1) * d, a - 1, f);
    }
    CeilUnique(n, f * d, b);
  }

  // ------------------------------------------------------- decimated filtering

  /**
   The outputs for `input` after `past`. Rule `g` gives the output for the newest
   sample of a stream; an output is made when that sample's index in the whole
   stream is a multiple of the factor.
   */
  function Sampled<R>(g: seq<R> -> int, past: seq<R>, input: seq<R>, f: nat): (r: seq<int>)
    requires f > 0
    ensures |r| <= |input|
    decreases |input|
  {
    if input == [] then []
    else
      var n := |input| - 1;
      Sampled(g, past, input[..n], f) + if Phase(|past| + n, f) == 0 then [g(past + input)] else []
  }

  /** One more input adds an output exactly when its index is a multiple of the factor. */
  lemma SampledExtend<R>(g: seq<R> -> int, past: seq<R>, input: seq<R>, x: R, f: nat)
    requires f > 0
    ensures Sampled(g, past, input + [x], f) == Sampled(g, past, input, f) +
            if Phase(|past| + |input|, f) == 0 then [g(past + input + [x])] else []
  {
    assert (input + [x])[..|input|] == input;
    assert past + (input + [x]) == past + input + [x];
  }

  /** Frame-boundary independence: cutting the input anywhere does not change the outputs. */
  lemma {:induction false} SampledSplit<R>(
    g: seq<R> -> int, past: seq<R>, a: seq<R>, b: seq<R>, f: nat)
    requires f > 0
    ensures Sampled(g, past, a + b, f) == Sampled(g, past, a, f) + Sampled(g, past + a, b, f)
    decreases |b|
  {
    if b == [] {
      assert a + b == a;
    } else {
      var n := |b| - 1;
      SampledSplit(g, past, a, b[..n], f);
      assert (a + b)[..|a| + n] == a + b[..n];
      assert past + (a + b) == (past + a) + b;
    }
  }

  /** Factor one makes an output for every input. */
  lemma {:induction false} SampledEvery<R>(g: seq<R> -> int, past: seq<R>, input: seq<R>)
    ensures |Sampled(g, past, input, 1)| == |input|
    ensures forall k :: 0 <= k < |input| ==> Sampled(g, past, input, 1)[k] == g(past + input[..k + 1])
    decreases |input|
  {
    if input != [] {
      var n := |input| - 1;
      SampledEvery(g, past, input[..n]);
      assert input[..n + 1] == input;
      forall k | 0 <= k < n ensures Sampled(g, past, input, 1)[k] == g(past + input[..k + 1]) {
        assert input[..n][..k + 1] == input[..k + 1];
      }
    }
  }

  /** From a fresh state, n inputs give ceil(n / f) outputs. */
  lemma {:induction false} SampledCount<R>(g: seq<R> -> int, input: seq<R>, f: nat)
    requires f > 0
    ensures |Sampled(g, [], input, f)| == CeilDiv(|input|, f)
    decreases |input|
  {
    if input == [] {
      ModuloUnique(f - 1, 0, f - 1, f);
    } else {
      var n := |input| - 1;
      SampledCount(g, input[..n], f);
      PhaseModulo(n, f);
      CeilStep(n, f);
    }
  }

  lemma CeilExact(n: nat, f: nat)
    requires f > 0 && Phase(n, f) == 0
    ensures CeilDiv(n, f) * f == n
  {
    PhaseModulo(n, f);
    var q := n / f;
    assert n == q * f;
    ModuloUnique(n + f - 1, q, f - 1, f);
  }

  /** From a fresh state, output k is the rule applied up to sample k * f. */
  lemma {:induction false} SampledAt<R>(g: seq<R> -> int, input: seq<R>, f: nat, k: nat, at: nat)
    requires f > 0 && k < |Sampled(g, [], input, f)| && at == k * f
    ensures at < |input| && Sampled(g, [], input, f)[k] == g(input[..at + 1])
    decreases |input|
  {
    var n := |input| - 1;
    if k < |Sampled(g, [], input[..n], f)| {
      SampledAt(g, input[..n], f, k, at);
      assert input[..n][..at + 1] == input[..at + 1];
    } else {
      SampledCount(g, input[..n], f);
      CeilExact(n, f);
      assert at == n && input[..n + 1] == input && [] + input == input;
    }
  }

  /** Apply an index-dependent rule to every sample. */
  function Mapped<A, B>(f: (nat, A) -> B, s: seq<A>): seq<B> {
    seq(|s|, k requires 0 <= k < |s| => f(k, s[k]))
  }

  lemma MappedExtend<A, B>(f: (nat, A) -> B, s: seq<A>, x: A)
    ensures Mapped(f, s + [x]) == Mapped(f, s) + [f(|s|, x)]
  {
  }

  /** An array whose front has been overwritten by outputs and whose rest is as it was. */
  ghost predicate Overwritten(now: seq<int>, was: seq<int>, outs: seq<int>) {
    |outs| <= |now| == |was| && now[..|outs|] == outs && now[|outs|..] == was[|outs|..]
  }

  lemma OverwriteNext(now: seq<int>, was: seq<int>, outs: seq<int>, v: int)
    requires Overwritten(now, was, outs) && |outs| < |now|
    ensures Overwritten(now[|outs| := v], was, outs + [v])
  {
    assert now[|outs| := v][|outs| + 1..] == now[|outs|..][1..];
    assert was[|outs| + 1..] == was[|outs|..][1..];
  }

  /** Elements that no output has reached can still be read. */
  lemma UnreadIntact(now: seq<int>, was: seq<int>, outs: seq<int>, k: nat)
    requires Overwritten(now, was, outs) && |outs| <= k < |now|
    ensures now[k] == was[k]
  {
    assert now[|outs|..][k - |outs|] == was[|outs|..][k - |outs|];
  }
}
