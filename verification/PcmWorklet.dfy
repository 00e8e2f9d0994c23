/** The microphone worklet of `frontend/public/audio-worklet/pcm-processor.js`:
    resampling, conversion to 16-bit samples and cutting the stream into chunks. */
module PcmWorklet {
  import opened Text

  newtype Sample = x: int | -0x8000 <= x < 0x8000

  // ------------------------------------------------------------------ chunking

  /** The samples of a stream as full chunks of `n`, leaving out an incomplete one. */
  function Chunks<T>(stream: seq<T>, n: nat): seq<seq<T>>
    requires n > 0
  {
    if |stream| < n then [] else [stream[..n]] + Chunks(stream[n..], n)
  }

  predicate AllOfLength<T>(chunks: seq<seq<T>>, n: nat) {
    forall i | 0 <= i < |chunks| :: |chunks[i]| == n
  }

  /** There is one way to cut a stream into chunks of `n` with less than `n` left over. */
  lemma {:induction false} ChunksUnique<T>(chunks: seq<seq<T>>, left: seq<T>, n: nat)
    requires n > 0 && AllOfLength(chunks, n) && |left| < n
    ensures chunks == Chunks(Flatten(chunks) + left, n)
  {
    if chunks != [] {
      var stream := Flatten(chunks) + left;
      assert stream == chunks[0] + (Flatten(chunks[1..]) + left);
      assert stream[..n] == chunks[0] && stream[n..] == Flatten(chunks[1..]) + left;
      ChunksUnique(chunks[1..], left, n);
    }
  }

  /** And full chunks of a stream are all of its samples but fewer than `n`, in order. */
  lemma {:induction false} ChunksCover<T>(stream: seq<T>, n: nat) returns (left: seq<T>)
    requires n > 0
    ensures AllOfLength(Chunks(stream, n), n) && |left| < n
    ensures Flatten(Chunks(stream, n)) + left == stream
  {
    if |stream| < n {
      left := stream;
    } else {
      left := ChunksCover(stream[n..], n);
      assert stream == stream[..n] + stream[n..];
      assert Chunks(stream, n)[1..] == Chunks(stream[n..], n);
    }
  }

  /** Chunks already posted are never taken back when the stream goes on. */
  lemma {:induction false} ChunksGrow<T>(a: seq<T>, b: seq<T>, n: nat)
    requires n > 0
    ensures Chunks(a, n) <= Chunks(a + b, n)
  {
    if |a| >= n {
      assert (a + b)[..n] == a[..n] && (a + b)[n..] == a[n..] + b;
      ChunksGrow(a[n..], b, n);
    }
  }

  // ------------------------------------------------------------------ resampling

  /** `Math.round`: to the nearest integer, halves up. */
  function Round(x: real): int {
    (x + 0.5).Floor
  }

  function OutputLength(inputLength: nat, ratio: real): nat
    requires ratio > 0.0
  {
    var rounded := Round(inputLength as real / ratio);
    if rounded < 1 then 1 else rounded
  }

  /** The nearest number of samples, but at least one. */
  predicate Nearest(n: int, exact: real) {
    n >= 1 && (exact >= 0.5 ==> n as real - 0.5 <= exact < n as real + 0.5) && (exact < 0.5 ==> n == 1)
  }

  /** The output is as long as the input lasts at the new rate, to the nearest sample,
      and never empty. */
  lemma OutputLengthNearest(inputLength: nat, ratio: real)
    requires ratio > 0.0
    ensures Nearest(OutputLength(inputLength, ratio), inputLength as real / ratio)
  {
  }

  /** The signal between the samples: the straight line through the two neighbours, and
      the last sample beyond it. */
  function Interpolated(input: seq<real>, at: real): real
    requires 0.0 <= at && at.Floor < |input|
  {
    var lower := at.Floor;
    var upper := if lower + 1 < |input| then lower + 1 else |input| - 1;
    input[lower] + (input[upper] - input[lower]) * (at - lower as real)
  }

  function Position(i: nat, ratio: real): real {
    i as real * ratio
  }

  /** No output position lies past the last input sample's interval. */
  lemma PositionInside(inputLength: nat, ratio: real, i: nat)
    requires inputLength > 0 && ratio > 0.0
    requires i < OutputLength(inputLength, ratio)
    ensures 0.0 <= Position(i, ratio) && Position(i, ratio).Floor < inputLength
  {
    if i > 0 {
      var x := inputLength as real / ratio;
      assert i as real <= x - 0.5;
      assert x * ratio == inputLength as real;
      ScaleStrict(i as real, x, ratio);
    }
  }

  lemma ScaleStrict(a: real, b: real, k: real)
    requires 0.0 <= a < b && k > 0.0
    ensures 0.0 <= a * k < b * k
  {
  }

  lemma Between(a: real, b: real, w: real, low: real, high: real)
    requires low <= a <= high && low <= b <= high && 0.0 <= w <= 1.0
    ensures low <= a + (b - a) * w <= high
  {
    assert a + (b - a) * w == low + (a - low) * (1.0 - w) + (b - low) * w;
    assert a + (b - a) * w == high - ((high - a) * (1.0 - w) + (high - b) * w);
    Nonnegative(a - low, 1.0 - w);
    Nonnegative(b - low, w);
    Nonnegative(high - a, 1.0 - w);
    Nonnegative(high - b, w);
  }

  lemma Nonnegative(a: real, b: real)
    requires a >= 0.0 && b >= 0.0
    ensures a * b >= 0.0
  {
  }

  /** Interpolation stays within the bounds of the samples. */
  lemma InterpolatedWithin(input: seq<real>, at: real, low: real, high: real)
    requires 0.0 <= at && at.Floor < |input|
    requires forall k | 0 <= k < |input| :: low <= input[k] <= high
    ensures low <= Interpolated(input, at) <= high
  {
    var lower := at.Floor;
    var upper := if lower + 1 < |input| then lower + 1 else |input| - 1;
    assert low <= input[lower] <= high && low <= input[upper] <= high;
    Between(input[lower], input[upper], at - lower as real, low, high);
    assert Interpolated(input, at) == input[lower] + (input[upper] - input[lower]) * (at - lower as real);
  }

  /** A straight line comes out as the same straight line, held at its last sample. */
  lemma InterpolatedLine(input: seq<real>, at: real, start: real, slope: real)
    requires 0.0 <= at && at.Floor < |input|
    requires forall k | 0 <= k < |input| :: input[k] == start + slope * k as real
    ensures var last := (|input| - 1) as real;
            Interpolated(input, at) == start + slope * (if at <= last then at else last)
  {
    var lower, last := at.Floor, |input| - 1;
    var a := input[lower];
    assert a == start + slope * lower as real;
    if lower < last {
      var b := input[lower + 1];
      assert b == start + slope * (lower + 1) as real;
      LineStep(slope, lower);
      OnLine(a, b, start, slope, lower as real, at);
      assert Interpolated(input, at) == a + (b - a) * (at - lower as real);
      assert at <= last as real;
    } else {
      HeldAtEnd(a, at - lower as real);
      assert Interpolated(input, at) == a;
      assert at >= last as real;
    }
  }

  lemma LineStep(slope: real, k: nat)
    ensures slope * (k + 1) as real - slope * k as real == slope
  {
  }

  lemma OnLine(a: real, b: real, start: real, slope: real, lower: real, at: real)
    requires a == start + slope * lower && b - a == slope
    ensures a + (b - a) * (at - lower) == start + slope * at
  {
    assert slope * (at - lower) == slope * at - slope * lower;
  }

  lemma HeldAtEnd(a: real, weight: real)
    ensures a + (a - a) * weight == a
  {
  }

  function OutputSample(input: seq<real>, ratio: real, i: nat): real
    requires input != [] && ratio > 0.0 && i < OutputLength(|input|, ratio)
  {
    PositionInside(|input|, ratio, i);
    Interpolated(input, Position(i, ratio))
  }

  /** The signal read at every `ratio`-th position. */
  function Resampled(input: seq<real>, sourceRate: real, targetRate: real): (r: seq<real>)
    requires input != [] && sourceRate > 0.0 && targetRate > 0.0
    ensures r != []
  {
    if sourceRate == targetRate then input
    else
      var ratio := sourceRate / targetRate;
      seq(OutputLength(|input|, ratio),
          i requires 0 <= i < OutputLength(|input|, ratio) => OutputSample(input, ratio, i))
  }

  lemma OutputSampleWithin(input: seq<real>, ratio: real, i: nat, low: real, high: real)
    requires input != [] && ratio > 0.0 && i < OutputLength(|input|, ratio)
    requires forall k | 0 <= k < |input| :: low <= input[k] <= high
    ensures low <= OutputSample(input, ratio, i) <= high
  {
    hide Position, Interpolated, OutputLength;
    PositionInside(|input|, ratio, i);
    InterpolatedWithin(input, Position(i, ratio), low, high);
  }

  /** Resampling invents no level louder or quieter than the samples it was given. */
  lemma ResampledWithin(input: seq<real>, sourceRate: real, targetRate: real, low: real, high: real)
    requires input != [] && sourceRate > 0.0 && targetRate > 0.0
    requires forall k | 0 <= k < |input| :: low <= input[k] <= high
    ensures forall i | 0 <= i < |Resampled(input, sourceRate, targetRate)| ::
      low <= Resampled(input, sourceRate, targetRate)[i] <= high
  {
    hide OutputSample, OutputLength;
    var output := Resampled(input, sourceRate, targetRate);
    if sourceRate != targetRate {
      forall i | 0 <= i < |output| ensures low <= output[i] <= high {
        OutputSampleWithin(input, sourceRate / targetRate, i, low, high);
      }
    }
  }

  lemma PositionIs(i: nat, sourceRate: real, targetRate: real)
    requires sourceRate > 0.0 && targetRate > 0.0
    ensures Position(i, sourceRate / targetRate) == i as real * sourceRate / targetRate
  {
    Divided(i as real, sourceRate, targetRate);
  }

  lemma Divided(a: real, b: real, c: real)
    requires c > 0.0
    ensures a * (b / c) == a * b / c
  {
    var q := b / c;
    assert q * c == b;
    assert (a * q) * c == a * b;
  }

  lemma UnitPosition(i: nat, rate: real)
    requires rate > 0.0
    ensures i as real * rate / rate == i as real
  {
  }

  /** A straight line in comes out as the same line at the new rate, held at its end. */
  lemma ResampledLine(input: seq<real>, sourceRate: real, targetRate: real, start: real, slope: real, i: nat)
    requires input != [] && sourceRate > 0.0 && targetRate > 0.0
    requires forall k | 0 <= k < |input| :: input[k] == start + slope * k as real
    requires i < |Resampled(input, sourceRate, targetRate)|
    ensures var at, last := i as real * sourceRate / targetRate, (|input| - 1) as real;
            Resampled(input, sourceRate, targetRate)[i] == start + slope * (if at <= last then at else last)
  {
    hide Position, OutputLength, Interpolated;
    if sourceRate == targetRate {
      UnitPosition(i, sourceRate);
    } else {
      PositionInside(|input|, sourceRate / targetRate, i);
      PositionIs(i, sourceRate, targetRate);
      InterpolatedLine(input, Position(i, sourceRate / targetRate), start, slope);
    }
  }

  /** Between two input samples an output sample is their mean, weighted by how near it is
      to them in time; behind the last one it is the last one. */
  lemma ResampledBetween(input: seq<real>, sourceRate: real, targetRate: real, i: nat, k: nat)
    requires sourceRate > 0.0 && targetRate > 0.0 && k < |input|
    requires i < |Resampled(input, sourceRate, targetRate)|
    requires k as real <= i as real * sourceRate / targetRate < (k + 1) as real
    ensures var weight := i as real * sourceRate / targetRate - k as real;
            Resampled(input, sourceRate, targetRate)[i]
            == if k + 1 < |input| then input[k] * (1.0 - weight) + input[k + 1] * weight else input[k]
  {
    hide Position, OutputLength;
    if sourceRate == targetRate {
      UnitPosition(i, sourceRate);
      assert i == k;
    } else {
      var at := Position(i, sourceRate / targetRate);
      PositionInside(|input|, sourceRate / targetRate, i);
      PositionIs(i, sourceRate, targetRate);
      assert at.Floor == k;
      if k + 1 < |input| {
        Blend(input[k], input[k + 1], at - k as real);
      } else {
        HeldAtEnd(input[k], at - k as real);
      }
    }
  }

  /** Where the two rates meet an output sample is the input sample of that moment. */
  lemma ResampledExact(input: seq<real>, sourceRate: real, targetRate: real, i: nat, k: nat)
    requires sourceRate > 0.0 && targetRate > 0.0 && k < |input|
    requires i < |Resampled(input, sourceRate, targetRate)|
    requires i as real * sourceRate == k as real * targetRate
    ensures Resampled(input, sourceRate, targetRate)[i] == input[k]
  {
    hide Resampled;
    UnitPosition(k, targetRate);
    ResampledBetween(input, sourceRate, targetRate, i, k);
  }

  /** The output lasts as long as the input, to the nearest sample: `n` samples at the new
      rate against `|input|` at the old one. */
  lemma ResampledLength(input: seq<real>, sourceRate: real, targetRate: real)
    requires input != [] && sourceRate > 0.0 && targetRate > 0.0
    ensures var n, given := |Resampled(input, sourceRate, targetRate)|, |input| as real * targetRate;
            && n >= 1
            && (given >= 0.5 * sourceRate ==>
                  -0.5 * sourceRate <= given - n as real * sourceRate < 0.5 * sourceRate)
            && (given < 0.5 * sourceRate ==> n == 1)
  {
    hide Resampled, OutputLength, Nearest;
    ResampledCount(input, sourceRate, targetRate);
    var n, length := |Resampled(input, sourceRate, targetRate)|, |input| as real;
    if sourceRate == targetRate {
      NearestItself(|input|);
      NearestScaled(n, length, sourceRate, length * targetRate);
    } else {
      var ratio := sourceRate / targetRate;
      var exact := length / ratio;
      OutputLengthNearest(|input|, ratio);
      Rescaled(length, ratio, exact, sourceRate, targetRate);
      NearestScaled(n, exact, sourceRate, length * targetRate);
    }
  }

  lemma Rescaled(length: real, ratio: real, exact: real, sourceRate: real, targetRate: real)
    requires exact * ratio == length && ratio * targetRate == sourceRate
    ensures exact * sourceRate == length * targetRate
  {
    assert exact * (ratio * targetRate) == (exact * ratio) * targetRate;
  }

  lemma NearestScaled(n: int, exact: real, rate: real, given: real)
    requires Nearest(n, exact) && rate > 0.0 && exact * rate == given
    ensures n >= 1
    ensures given >= 0.5 * rate ==> -0.5 * rate <= given - n as real * rate < 0.5 * rate
    ensures given < 0.5 * rate ==> n == 1
  {
    if exact < 0.5 {
      Longer(exact, 0.5, rate);
    } else {
      NoShorter(0.5, exact, rate);
      Apart(exact, n as real, rate);
      HalfApart(exact - n as real, rate, given - n as real * rate);
    }
  }

  lemma HalfApart(apart: real, rate: real, given: real)
    requires -0.5 <= apart < 0.5 && rate > 0.0 && apart * rate == given
    ensures -0.5 * rate <= given < 0.5 * rate
  {
    Longer(apart, 0.5, rate);
    NoShorter(-0.5, apart, rate);
  }

  lemma Apart(a: real, b: real, k: real)
    ensures (a - b) * k == a * k - b * k
  {
  }

  lemma Longer(a: real, b: real, k: real)
    requires a < b && k > 0.0
    ensures a * k < b * k
  {
  }

  lemma NoShorter(a: real, b: real, k: real)
    requires a <= b && k > 0.0
    ensures a * k <= b * k
  {
  }

  lemma NearestItself(n: nat)
    requires n >= 1
    ensures Nearest(n, n as real)
  {
  }

  lemma ResampledCount(input: seq<real>, sourceRate: real, targetRate: real)
    requires input != [] && sourceRate > 0.0 && targetRate > 0.0
    ensures |Resampled(input, sourceRate, targetRate)|
         == if sourceRate == targetRate then |input| else OutputLength(|input|, sourceRate / targetRate)
  {
    hide OutputSample, OutputLength;
  }

  /** And every output sample lies inside it. */
  lemma ResampledInside(input: seq<real>, sourceRate: real, targetRate: real, i: nat) returns (k: nat)
    requires input != [] && sourceRate > 0.0 && targetRate > 0.0 && i < |Resampled(input, sourceRate, targetRate)|
    ensures k < |input| && k as real <= i as real * sourceRate / targetRate < (k + 1) as real
  {
    hide OutputSample, OutputLength, Position;
    if sourceRate == targetRate {
      UnitPosition(i, sourceRate);
      k := i;
    } else {
      PositionInside(|input|, sourceRate / targetRate, i);
      PositionIs(i, sourceRate, targetRate);
      k := Position(i, sourceRate / targetRate).Floor;
    }
  }

  /** `resample`. */
  method Resample(input: array<real>, sourceRate: real, targetRate: real) returns (output: array<real>)
    requires input.Length > 0 && sourceRate > 0.0 && targetRate > 0.0
    ensures output[..] == Resampled(input[..], sourceRate, targetRate)
    ensures sourceRate == targetRate ==> output == input
    ensures sourceRate != targetRate ==> fresh(output)
  {
    if sourceRate == targetRate {
      return input;
    }
    hide OutputSample, OutputLength, Position, Interpolated;
    var ratio := sourceRate / targetRate;
    var outputLength := OutputLength(input.Length, ratio);
    output := new real[outputLength];
    ghost var samples := input[..];
    for i := 0 to outputLength
      invariant input[..] == samples
      invariant forall k: nat | k < i :: output[k] == OutputSample(samples, ratio, k)
    {
      PositionInside(input.Length, ratio, i);
      var sourceIndex := Position(i, ratio);
      var lower := sourceIndex.Floor;
      var upper := if lower + 1 < input.Length - 1 then lower + 1 else input.Length - 1;
      var weight := sourceIndex - lower as real;
      OutputSampleIs(samples, ratio, i, lower, upper);
      output[i] := input[lower] * (1.0 - weight) + input[upper] * weight;
    }
  }

  lemma OutputSampleIs(input: seq<real>, ratio: real, i: nat, lower: int, upper: int)
    requires input != [] && ratio > 0.0 && i < OutputLength(|input|, ratio)
    requires lower == Position(i, ratio).Floor
    requires upper == if lower + 1 < |input| - 1 then lower + 1 else |input| - 1
    ensures 0 <= lower < |input|
    ensures var weight := Position(i, ratio) - lower as real;
            OutputSample(input, ratio, i) == input[lower] * (1.0 - weight) + input[upper] * weight
  {
    hide Position, OutputLength;
    PositionInside(|input|, ratio, i);
    Blend(input[lower], input[upper], Position(i, ratio) - lower as real);
  }

  lemma Blend(a: real, b: real, w: real)
    ensures a * (1.0 - w) + b * w == a + (b - a) * w
  {
  }

  // -------------------------------------------------------- conversion to 16 bits

  function Clamp(x: real): real {
    if x < -1.0 then -1.0 else if x > 1.0 then 1.0 else x
  }

  /** How a number becomes an integer when it is stored in an integer array. */
  function Truncate(x: real): int {
    if x >= 0.0 then x.Floor else -((-x).Floor)
  }

  function Scaled(x: real): int {
    var s := Clamp(x);
    Truncate(if s < 0.0 then s * 32768.0 else s * 32767.0)
  }

  /** Storing modulo 2^16 as a two's complement 16-bit integer. */
  function WrapInt16(v: int): (r: int)
    ensures -0x8000 <= r < 0x8000
  {
    var m := v % 0x1_0000;
    if m < 0x8000 then m else m - 0x1_0000
  }

  /** The scaled value of any number fits, so storing it never wraps. */
  lemma ScaledFits(x: real)
    ensures -0x8000 <= Scaled(x) < 0x8000
    ensures WrapInt16(Scaled(x)) == Scaled(x)
  {
  }

  /** Louder in, no quieter out; and full scale reaches both ends of the range. */
  lemma ScaledMonotone(x: real, y: real)
    requires x <= y
    ensures Scaled(x) <= Scaled(y)
    ensures Scaled(-1.0) == -0x8000 && Scaled(0.0) == 0 && Scaled(1.0) == 0x7fff
  {
  }

  /** Numbers between the ends keep their size, up to the fraction that is dropped towards
      zero; beyond them they are clipped. */
  lemma ScaledIs(x: real)
    ensures x <= -1.0 ==> Scaled(x) == -32768
    ensures -1.0 < x < 0.0 ==> x * 32768.0 <= Scaled(x) as real < x * 32768.0 + 1.0
    ensures 0.0 <= x < 1.0 ==> x * 32767.0 - 1.0 < Scaled(x) as real <= x * 32767.0
    ensures x >= 1.0 ==> Scaled(x) == 32767
  {
  }

  function Quantized(input: seq<real>): seq<Sample> {
    seq(|input|, i requires 0 <= i < |input| => ScaledFits(input[i]); Scaled(input[i]) as Sample)
  }

  method Float32ToInt16(input: array<real>) returns (output: array<Sample>)
    ensures fresh(output) && output[..] == Quantized(input[..])
  {
    output := new Sample[input.Length];
    for i := 0 to input.Length
      invariant output[..i] == Quantized(input[..])[..i]
    {
      ScaledFits(input[i]);
      output[i] := WrapInt16(Scaled(input[i])) as Sample;
      assert output[..i + 1] == output[..i] + [output[i]];
    }
    assert output[..] == output[..input.Length];
  }

  /** The samples one block of input adds to the stream. */
  function Pcm(input: Option<seq<real>>, sourceRate: real, targetRate: real): seq<Sample>
    requires sourceRate > 0.0 && targetRate > 0.0
  {
    if input.None? || input.value == [] then []
    else Quantized(Resampled(input.value, sourceRate, targetRate))
  }

  /** A block adds one 16-bit sample for each resampled one, in order, and nothing if there is
      no input. */
  lemma PcmIs(input: seq<real>, sourceRate: real, targetRate: real)
    requires sourceRate > 0.0 && targetRate > 0.0
    ensures Pcm(None, sourceRate, targetRate) == [] && Pcm(Some([]), sourceRate, targetRate) == []
    ensures input != [] ==>
      var signal, samples := Resampled(input, sourceRate, targetRate), Pcm(Some(input), sourceRate, targetRate);
      && |samples| == |signal|
      && forall i | 0 <= i < |signal| ::
           var x, v := signal[i], samples[i] as int as real;
           && (x <= -1.0 ==> v == -32768.0) && (x >= 1.0 ==> v == 32767.0)
           && (-1.0 < x < 0.0 ==> x * 32768.0 <= v < x * 32768.0 + 1.0)
           && (0.0 <= x < 1.0 ==> x * 32767.0 - 1.0 < v <= x * 32767.0)
  {
    hide Resampled, Scaled;
    if input != [] {
      var signal := Resampled(input, sourceRate, targetRate);
      forall i | 0 <= i < |signal| ensures Quantized(signal)[i] as int == Scaled(signal[i]) {
        ScaledFits(signal[i]);
        ScaledIs(signal[i]);
      }
      forall i | 0 <= i < |signal| {
        ScaledIs(signal[i]);
      }
    }
  }

  // ---------------------------------------------------------------- the processor

  lemma QueueHead<T>(queue: seq<seq<T>>)
    requires queue != []
    ensures Flatten(queue) == queue[0] + Flatten(queue[1..])
  {
  }

  lemma TakeHead<T>(before: seq<T>, head: seq<T>, rest: seq<T>, take: nat)
    requires take <= |head|
    ensures before + (head + rest) == (before + head[..take]) + (head[take..] + rest)
  {
    assert head == head[..take] + head[take..];
  }

  lemma QueueRest<T>(head: seq<T>, rest: seq<seq<T>>, take: nat)
    requires take <= |head|
    ensures Flatten(if take == |head| then rest else [head[take..]] + rest) == head[take..] + Flatten(rest)
  {
    FlattenCons(head[take..], rest);
  }

  lemma QueueEmpty<T>(queue: seq<seq<T>>)
    ensures queue == [] ==> Flatten(queue) == []
  {
  }

  /** `chunk.set(part, offset)`. */
  method SetAt(chunk: array<Sample>, part: seq<Sample>, offset: nat)
    requires offset + |part| <= chunk.Length
    modifies chunk
    ensures chunk[..offset + |part|] == old(chunk[..offset]) + part
    ensures chunk[offset + |part|..] == old(chunk[offset + |part|..])
  {
    forall k | 0 <= k < |part| {
      chunk[offset + k] := part[k];
    }
  }

  class PcmProcessor {
    const targetSampleRate := 16000.0
    const samplesPerChunk: nat := 3200

    var pending: seq<seq<Sample>>
    var pendingLength: int
    /** What `port.postMessage` has sent. */
    var posted: seq<seq<Sample>>
    /** Every sample ever enqueued. */
    ghost var enqueued: seq<Sample>

    ghost predicate Valid()
      reads this
    {
      && pendingLength == |Flatten(pending)|
      && AllOfLength(posted, samplesPerChunk)
      && Flatten(posted) + Flatten(pending) == enqueued
    }

    constructor ()
      ensures Valid() && Settled() && posted == [] && enqueued == []
    {
      pending, pendingLength, posted, enqueued := [], 0, [], [];
    }

    /** Nothing that could be posted is still waiting. */
    ghost predicate Settled()
      reads this
    {
      pendingLength < samplesPerChunk
    }

    method Enqueue(pcm: seq<Sample>)
      requires Valid()
      modifies this
      ensures Valid() && posted == old(posted)
      ensures enqueued == old(enqueued) + pcm
    {
      FlattenSnoc(pending, pcm);
      pending := pending + [pcm];
      pendingLength := pendingLength + |pcm|;
      enqueued := enqueued + pcm;
    }

    /** One pass of the outer loop: a chunk is filled completely from the queue. */
    method FillChunk() returns (chunk: array<Sample>)
      requires Valid() && pendingLength >= samplesPerChunk
      modifies this`pending, this`pendingLength
      ensures fresh(chunk) && chunk.Length == samplesPerChunk
      ensures chunk[..] + Flatten(pending) == old(Flatten(pending))
      ensures pendingLength == |Flatten(pending)| == old(pendingLength) - samplesPerChunk
    {
      hide Flatten;
      chunk := new Sample[samplesPerChunk];
      var offset := 0;
      while offset < samplesPerChunk && |pending| > 0
        invariant 0 <= offset <= samplesPerChunk
        invariant chunk[..offset] + Flatten(pending) == old(Flatten(pending))
        invariant pendingLength == |Flatten(pending)|
        decreases |pending|, samplesPerChunk - offset
      {
        var head := pending[0];
        QueueHead(pending);
        if |head| == 0 {
          pending := pending[1..];
          continue;
        }
        var take := if |head| < samplesPerChunk - offset then |head| else samplesPerChunk - offset;
        ghost var rest, before := pending[1..], chunk[..offset];
        TakeHead(before, head, Flatten(rest), take);
        QueueRest(head, rest, take);
        SetAt(chunk, head[..take], offset);
        if take == |head| {
          pending := pending[1..];
        } else {
          pending := [head[take..]] + pending[1..];
        }
        assert chunk[..offset + take] == before + head[..take];
        offset := offset + take;
        pendingLength := pendingLength - take;
      }
      QueueEmpty(pending);
      assert chunk[..offset] == chunk[..];
    }

    method FlushChunks()
      requires Valid()
      modifies this
      ensures Valid() && Settled()
      ensures enqueued == old(enqueued) && old(posted) <= posted
      ensures posted == Chunks(enqueued, 3200)
    {
      while pendingLength >= samplesPerChunk && |pending| > 0
        invariant Valid() && enqueued == old(enqueued) && old(posted) <= posted
        decreases pendingLength
      {
        var chunk := FillChunk();
        FlattenSnoc(posted, chunk[..]);
        posted := posted + [chunk[..]];
      }
      if |pending| == 0 {
        assert pendingLength == 0;  // the source's reset never changes anything
        pendingLength := 0;
      }
      ChunksUnique(posted, Flatten(pending), samplesPerChunk);
    }

    /** `process`, given the first channel of the first input, if there is one. */
    method Process(input: Option<array<real>>, sampleRate: real) returns (keepAlive: bool)
      requires Valid() && Settled() && sampleRate > 0.0
      modifies this
      ensures keepAlive && Valid() && Settled() && old(posted) <= posted
      ensures var block := if input.Some? then Some(old(input.value[..])) else None;
              enqueued == old(enqueued) + Pcm(block, sampleRate, 16000.0)
      ensures posted == Chunks(enqueued, 3200)
    {
      if input.None? || input.value.Length == 0 {
        ChunksUnique(posted, Flatten(pending), samplesPerChunk);
        return true;
      }
      var resampled := Resample(input.value, sampleRate, targetSampleRate);
      var pcm := Float32ToInt16(resampled);
      Enqueue(pcm[..]);
      FlushChunks();
      return true;
    }
  }
}
