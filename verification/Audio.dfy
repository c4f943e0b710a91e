/** Voice data contracts: PCM frames and synthesized chunks. */
module Audio {

  type Byte = b: int | 0 <= b < 256
  type Positive = n: int | n > 0 witness 1

  /** A length of time in milliseconds. */
  type Duration = r: real | r >= 0.0

  datatype AudioFormat = AudioFormat(sampleRate: Positive, sampleWidth: Positive, channels: Positive)
  {
    function BytesPerMs(): (r: real)
      ensures r > 0.0
    {
      (sampleRate as real) * (sampleWidth as real) * (channels as real) / 1000.0
    }

    /** Bytes of one 20 ms synthesis frame, truncated to an integer. */
    function FrameBytes(): (n: int)
      ensures n >= 0
    {
      (BytesPerMs() * 20.0).Floor
    }
  }

  datatype AudioFrame = AudioFrame(pcm: seq<Byte>, format: AudioFormat)
  {
    function DurationMs(): Duration {
      |pcm| as real / format.BytesPerMs()
    }
  }

  datatype TtsChunk = TtsChunk(frame: AudioFrame, text: string)

  /** The i-th little-endian signed 16-bit sample. */
  function Sample(pcm: seq<Byte>, i: nat): int
    requires 2 * i + 1 < |pcm|
  {
    var low: int, high: int := pcm[2 * i], pcm[2 * i + 1];
    var u := low + 256 * high;
    if u < 0x8000 then u else u - 0x10000
  }

  function SumOfSquares(pcm: seq<Byte>, count: nat): nat
    requires 2 * count <= |pcm|
  {
    if count == 0 then 0
    else SumOfSquares(pcm, count - 1) + Sample(pcm, count - 1) * Sample(pcm, count - 1)
  }

  /**
   `rms(pcm) >= threshold`, with the square root cleared: a frame under one
   sample has energy 0, and a threshold that is not positive is always met.
   */
  predicate Loud(pcm: seq<Byte>, threshold: real) {
    || threshold <= 0.0
    || (|pcm| >= 2 &&
        var count := |pcm| / 2;
        Reaches(SumOfSquares(pcm, count) as real, threshold, count as real))
  }

  /** The mean of n squares that sum up to e reaches the square of t. */
  predicate Reaches(e: real, t: real, n: real) {
    e >= t * t * n
  }

  lemma ReachesIff(e: real, t: real, n: real)
    ensures Reaches(e, t, n) <==> e >= n * (t * t)
  {
    Commutes(t * t, n);
  }

  // ------------------------------------------------- what samples and loudness mean

  /** The values of a signed 16-bit sample. */
  type Level = s: int | -0x8000 <= s < 0x8000

  /** The two bytes of a sample, low byte first, in two's complement. */
  function SampleBytes(s: Level): (bytes: seq<Byte>)
    ensures |bytes| == 2
  {
    var u: int := s % 0x10000;
    [u % 256, u / 256]
  }

  function Pcm(samples: seq<Level>): (pcm: seq<Byte>)
    ensures |pcm| == 2 * |samples|
  {
    if samples == [] then [] else Pcm(samples[..|samples| - 1]) + SampleBytes(samples[|samples| - 1])
  }

  lemma BytesReadBack(pcm: seq<Byte>, i: nat, s: Level)
    requires 2 * i + 1 < |pcm| && pcm[2 * i..2 * i + 2] == SampleBytes(s)
    ensures Sample(pcm, i) == s
  {
    assert pcm[2 * i..2 * i + 2][0] == pcm[2 * i] && pcm[2 * i..2 * i + 2][1] == pcm[2 * i + 1];
  }

  /** Every sample of encoded audio is read back, whatever follows it. */
  lemma {:induction false} SamplesReadBack(samples: seq<Level>, more: seq<Byte>, i: nat)
    requires i < |samples|
    ensures Sample(Pcm(samples) + more, i) == samples[i]
  {
    var n := |samples| - 1;
    var last := SampleBytes(samples[n]);
    if i == n {
      BytesReadBack(Pcm(samples) + more, i, samples[n]);
    } else {
      SamplesReadBack(samples[..n], last + more, i);
      assert Pcm(samples[..n]) + last + more == Pcm(samples[..n]) + (last + more);
    }
  }

  function Magnitude(x: int): nat {
    if x < 0 then -x else x
  }

  /** All whole samples of a frame, each at least, or at most, as large as those of another. */
  ghost predicate NoLouder(p: seq<Byte>, q: seq<Byte>) {
    |p| / 2 == |q| / 2 && forall i | 0 <= i < |p| / 2 :: Magnitude(Sample(p, i)) <= Magnitude(Sample(q, i))
  }

  lemma SquaresGrow(x: int, y: int)
    requires Magnitude(x) <= Magnitude(y)
    ensures x * x <= y * y
  {
    var a, b := Magnitude(x), Magnitude(y);
    assert a * a <= a * b <= b * b;
    assert x * x == a * a && y * y == b * b;
  }

  lemma {:induction false} SumsGrow(p: seq<Byte>, q: seq<Byte>, count: nat)
    requires 2 * count <= |p| && 2 * count <= |q|
    requires forall i | 0 <= i < count :: Magnitude(Sample(p, i)) <= Magnitude(Sample(q, i))
    ensures SumOfSquares(p, count) <= SumOfSquares(q, count)
  {
    if count > 0 {
      SumsGrow(p, q, count - 1);
      SquaresGrow(Sample(p, count - 1), Sample(q, count - 1));
    }
  }

  /** Larger samples never make a loud frame quiet. */
  lemma LouderStaysLoud(p: seq<Byte>, q: seq<Byte>, threshold: real)
    requires NoLouder(p, q) && Loud(p, threshold)
    ensures Loud(q, threshold)
  {
    SumsGrow(p, q, |p| / 2);
  }

  /** How many samples of a frame are not zero. */
  function Peaks(pcm: seq<Byte>, count: nat): (n: nat)
    requires 2 * count <= |pcm|
    ensures n <= count
  {
    if count == 0 then 0 else Peaks(pcm, count - 1) + if Sample(pcm, count - 1) == 0 then 0 else 1
  }

  /** The samples of a frame are zero, or a in either direction. */
  predicate TwoLevels(pcm: seq<Byte>, a: int) {
    forall i | 0 <= i < |pcm| / 2 :: Sample(pcm, i) in {0, a, -a}
  }

  lemma {:induction false} PeaksAddUp(pcm: seq<Byte>, a: int, count: nat)
    requires 2 * count <= |pcm| && TwoLevels(pcm, a)
    ensures SumOfSquares(pcm, count) == Peaks(pcm, count) * (a * a)
  {
    if count > 0 {
      PeaksAddUp(pcm, a, count - 1);
      assert Sample(pcm, count - 1) in {0, a, -a};
      OneMorePeak(Peaks(pcm, count - 1), a);
    }
  }

  lemma OneMorePeak(n: nat, a: int)
    ensures (n + 1) * (a * a) == n * (a * a) + a * a
    ensures (-a) * (-a) == a * a
  {
  }

  /** k squares of size e reach n times the square of t. */
  predicate Outweighs(k: nat, e: int, t: real, n: nat) {
    k as real * e as real >= n as real * (t * t)
  }

  /**
   Loudness is root mean square: a frame of n samples, k of them a or -a and the others
   zero, is loud exactly if k times the square of a reaches n times that of the threshold.
   */
  lemma PeaksLoudIff(pcm: seq<Byte>, a: int, threshold: real)
    requires threshold > 0.0 && |pcm| >= 2 && TwoLevels(pcm, a)
    ensures var n := |pcm| / 2;
            Loud(pcm, threshold) <==> Outweighs(Peaks(pcm, n), a * a, threshold, n)
  {
    var n := |pcm| / 2;
    hide *;
    PeaksAddUp(pcm, a, n);
    SharesLoudIff(pcm, Peaks(pcm, n), a * a, threshold, n);
  }

  lemma SharesLoudIff(pcm: seq<Byte>, k: nat, e: int, threshold: real, n: nat)
    requires threshold > 0.0 && 1 <= n == |pcm| / 2 && SumOfSquares(pcm, n) == k * e
    ensures Loud(pcm, threshold) <==> Outweighs(k, e, threshold, n)
  {
    hide Loud, Reaches, SumOfSquares;
    LoudIff(pcm, threshold);
    ProductReaches(k, e, threshold, n);
  }

  lemma LoudIff(pcm: seq<Byte>, threshold: real)
    requires threshold > 0.0 && |pcm| >= 2
    ensures var n := |pcm| / 2; Loud(pcm, threshold) <==> Reaches(SumOfSquares(pcm, n) as real, threshold, n as real)
  {
  }

  lemma ProductReaches(k: nat, e: int, t: real, n: nat)
    ensures Reaches((k * e) as real, t, n as real) <==> Outweighs(k, e, t, n)
  {
    Casts(k, e);
    ReachesIff((k * e) as real, t, n as real);
  }

  lemma Commutes(x: real, y: real)
    ensures x * y == y * x
  {
  }

  lemma Casts(x: int, y: int)
    ensures (x * y) as real == x as real * y as real
  {
  }

  /** A frame of one level, in either direction, is loud exactly if the level reaches the threshold. */
  lemma LevelLoudIff(pcm: seq<Byte>, a: int, threshold: real)
    requires threshold > 0.0 && |pcm| >= 2
    requires forall i | 0 <= i < |pcm| / 2 :: Sample(pcm, i) == a || Sample(pcm, i) == -a
    ensures Loud(pcm, threshold) <==> Magnitude(a) as real >= threshold
  {
    if Magnitude(a) as real >= threshold {
      AboveIsLoud(pcm, threshold);
    } else {
      BelowIsQuiet(pcm, threshold);
    }
  }

  lemma {:induction false} SumsScale(p: seq<Byte>, q: seq<Byte>, k: int, count: nat)
    requires 2 * count <= |p| && 2 * count <= |q|
    requires forall i | 0 <= i < count :: Sample(q, i) == k * Sample(p, i)
    ensures SumOfSquares(q, count) == k * k * SumOfSquares(p, count)
  {
    if count > 0 {
      SumsScale(p, q, k, count - 1);
      var s, rest := Sample(p, count - 1), SumOfSquares(p, count - 1);
      ScaledSquare(k, s, rest);
    }
  }

  lemma ScaledSquare(k: int, s: int, rest: int)
    ensures k * k * (rest + s * s) == k * k * rest + (k * s) * (k * s)
  {
    assert k * k * (s * s) == (k * s) * (k * s);
  }

  /** Scaling the samples and the threshold together does not matter. */
  lemma LoudnessScales(p: seq<Byte>, q: seq<Byte>, k: int, threshold: real)
    requires k >= 1 && threshold > 0.0 && |p| == |q|
    requires forall i | 0 <= i < |p| / 2 :: Sample(q, i) == k * Sample(p, i)
    ensures Loud(p, threshold) <==> Loud(q, k as real * threshold)
  {
    var n := |p| / 2;
    SumsScale(p, q, k, n);
    ScaledSums(k, SumOfSquares(p, n), threshold, n);
    if n > 0 {
      LoudIff(p, threshold);
      LoudIff(q, k as real * threshold);
    }
  }

  lemma ScaledSums(k: int, e: nat, t: real, n: nat)
    requires k >= 1 && t > 0.0
    ensures k as real * t > 0.0
    ensures Reaches((k * k * e) as real, k as real * t, n as real) <==> Reaches(e as real, t, n as real)
  {
    Casts(k * k, e);
    Casts(k, k);
    ScaledReaches(k as real, e as real, t, n as real);
  }

  lemma ScaledReaches(k: real, e: real, t: real, n: real)
    requires k >= 1.0 && t > 0.0
    ensures k * t > 0.0
    ensures Reaches(k * k * e, k * t, n) <==> Reaches(e, t, n)
  {
    var x := t * t * n;
    assert (k * t) * (k * t) == k * k * (t * t);
    assert (k * t) * (k * t) * n == k * k * x;
    var f := k * k;
    assert f >= 1.0;
    assert f * e - f * x == f * (e - x);
  }

  function Energy(pcm: seq<Byte>, i: nat): real
    requires 2 * i + 1 < |pcm|
  {
    (Sample(pcm, i) * Sample(pcm, i)) as real
  }

  lemma EnergyReachesIff(pcm: seq<Byte>, i: nat, threshold: real)
    requires 2 * i + 1 < |pcm| && threshold > 0.0
    ensures Energy(pcm, i) >= threshold * threshold <==> Magnitude(Sample(pcm, i)) as real >= threshold
  {
    var m := Magnitude(Sample(pcm, i));
    assert Sample(pcm, i) * Sample(pcm, i) == m * m;
    Casts(m, m);
    SquaresCompare(m as real, threshold);
  }

  lemma SquaresCompare(x: real, y: real)
    requires x >= 0.0 && y > 0.0
    ensures x * x >= y * y <==> x >= y
  {
    assert x * x - y * y == (x - y) * (x + y);
    if x >= y {
      assert (x - y) * (x + y) >= 0.0;
    } else {
      PositiveProduct(y - x, x + y);
      assert (x - y) * (x + y) == -((y - x) * (x + y));
    }
  }

  lemma PositiveProduct(x: real, y: real)
    requires x > 0.0 && y > 0.0
    ensures x * y > 0.0
  {
  }

  /** Samples that all stay below the threshold are not loud. */
  lemma BelowIsQuiet(pcm: seq<Byte>, threshold: real)
    requires threshold > 0.0 && forall i | 0 <= i < |pcm| / 2 :: Magnitude(Sample(pcm, i)) as real < threshold
    ensures !Loud(pcm, threshold)
  {
    if |pcm| >= 2 {
      forall i | 0 <= i < |pcm| / 2 ensures Energy(pcm, i) < threshold * threshold {
        EnergyReachesIff(pcm, i, threshold);
      }
      SumStaysBelow(pcm, threshold * threshold, |pcm| / 2);
      ReachesIff(SumOfSquares(pcm, |pcm| / 2) as real, threshold, (|pcm| / 2) as real);
    }
  }

  lemma {:induction false} SumStaysBelow(pcm: seq<Byte>, cap: real, count: nat)
    requires 2 * count <= |pcm| && forall i | 0 <= i < count :: Energy(pcm, i) < cap
    ensures if count == 0 then SumOfSquares(pcm, count) == 0
            else (SumOfSquares(pcm, count) as real) < count as real * cap
  {
    if count > 0 {
      SumStaysBelow(pcm, cap, count - 1);
      assert Energy(pcm, count - 1) < cap;
      OneMoreShare(count, cap);
    }
  }

  lemma OneMoreShare(count: nat, x: real)
    requires count > 0
    ensures count as real * x == (count - 1) as real * x + x
  {
  }

  /** Samples that all reach the threshold are loud. */
  lemma AboveIsLoud(pcm: seq<Byte>, threshold: real)
    requires |pcm| >= 2 && forall i | 0 <= i < |pcm| / 2 :: Magnitude(Sample(pcm, i)) as real >= threshold
    ensures Loud(pcm, threshold)
  {
    if threshold > 0.0 {
      forall i | 0 <= i < |pcm| / 2 ensures Energy(pcm, i) >= threshold * threshold {
        EnergyReachesIff(pcm, i, threshold);
      }
      SumReaches(pcm, threshold * threshold, |pcm| / 2);
      ReachesIff(SumOfSquares(pcm, |pcm| / 2) as real, threshold, (|pcm| / 2) as real);
    }
  }

  lemma {:induction false} SumReaches(pcm: seq<Byte>, floor: real, count: nat)
    requires 2 * count <= |pcm| && forall i | 0 <= i < count :: Energy(pcm, i) >= floor
    ensures SumOfSquares(pcm, count) as real >= count as real * floor
  {
    if count > 0 {
      SumReaches(pcm, floor, count - 1);
      assert Energy(pcm, count - 1) >= floor;
      OneMoreShare(count, floor);
    }
  }

  // ------------------------------------------------------------- what lengths mean

  /** A frame of n samples for each channel lasts n sample times. */
  lemma DurationCountsSamples(frame: AudioFrame, n: nat)
    requires |frame.pcm| == n * (frame.format.sampleWidth * frame.format.channels)
    ensures frame.DurationMs() * frame.format.sampleRate as real == 1000.0 * n as real
  {
    var rate, width, channels := frame.format.sampleRate, frame.format.sampleWidth, frame.format.channels;
    Casts(n, width * channels);
    Casts(width, channels);
    var w := width as real * channels as real;
    assert w > 0.0;
    assert frame.format.BytesPerMs() == rate as real * w / 1000.0;
    PerSample(n as real, rate as real, w);
  }

  lemma PerSample(n: real, rate: real, w: real)
    requires rate > 0.0 && w > 0.0
    ensures rate * w / 1000.0 > 0.0
    ensures n * w / (rate * w / 1000.0) * rate == 1000.0 * n
  {
    var b := rate * w / 1000.0;
    assert rate * w > 0.0 && b * 1000.0 == rate * w;
    var d := n * w / b;
    assert d * b == n * w;
    assert d * (rate * w) == 1000.0 * (n * w);
    assert w * (d * rate - 1000.0 * n) == 0.0;
  }

  /** A synthesis frame is the longest that lasts no more than 20 milliseconds. */
  lemma FrameLastsTwentyMs(f: AudioFormat, pcm: seq<Byte>)
    ensures AudioFrame(pcm, f).DurationMs() <= 20.0 <==> |pcm| <= f.FrameBytes()
  {
    var b := f.BytesPerMs();
    QuotientAtMost(|pcm| as real, b, 20.0);
  }

  lemma QuotientAtMost(x: real, d: real, q: real)
    requires d > 0.0
    ensures x / d <= q <==> x <= d * q
  {
    assert x / d * d == x;
    assert (q - x / d) * d == d * q - x;
  }
}
