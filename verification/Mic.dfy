/** The microphone pipeline: mix the channels down, resample, skip the first samples, quantize
    and cut into frames, callback after callback. */
module MicPipeline {
  import opened Frames
  import opened Framing
  import opened Resampling

  // ---------------------------------------------------------------------------
  // Mixing down
  // ---------------------------------------------------------------------------

  function Sum(xs: seq<real>): real {
    if xs == [] then 0.0 else xs[0] + Sum(xs[1..])
  }

  /** The mean of every group of `channels` samples; an incomplete last group is divided by
      the full number of channels all the same. */
  function Downmix(input: seq<real>, channels: nat): seq<real> {
    if channels <= 1 then input
    else if input == [] then []
    else if |input| <= channels then [Sum(input) / channels as real]
    else [Sum(input[..channels]) / channels as real] + Downmix(input[channels..], channels)
  }

  /** The sum of a group is additive, and that of one sample is the sample. */
  lemma {:induction false} SumIs(xs: seq<real>, ys: seq<real>, x: real)
    ensures Sum([x]) == x && Sum(xs + ys) == Sum(xs) + Sum(ys)
  {
    assert [x][1..] == [];
    if xs == [] {
      assert xs + ys == ys;
    } else {
      assert (xs + ys)[1..] == xs[1..] + ys;
      SumIs(xs[1..], ys, x);
    }
  }

  /** Output k is there if and only if its group has begun, at `at`, and is the sum of what there
      is of it, divided by the number of channels. */
  ghost predicate MeanAt(input: seq<real>, channels: nat, k: nat, at: nat)
    requires channels > 1
  {
    var end := if at + channels < |input| then at + channels else |input|;
    && (k < |Downmix(input, channels)| <==> at < |input|)
    && (at < |input| ==> k < |Downmix(input, channels)|
                         && Downmix(input, channels)[k] == Sum(input[at..end]) / channels as real)
  }

  lemma SliceOfTail(s: seq<real>, n: nat, a: nat, e: nat)
    requires a <= e <= |s| - n
    ensures s[n..][a..e] == s[n + a..n + e]
  {
  }

  lemma MeanFirst(input: seq<real>, channels: nat)
    requires channels > 1
    ensures MeanAt(input, channels, 0, 0)
  {
    assert input[..|input|] == input;
  }

  lemma MeanLater(input: seq<real>, channels: nat, k: nat, at: nat)
    requires channels > 1 && (|input| > channels ==> MeanAt(input[channels..], channels, k, at))
    ensures MeanAt(input, channels, k + 1, at + channels)
  {
    if at + channels < |input| {
      SliceOfTail(input, channels, at, if at + channels < |input| - channels then at + channels else |input| - channels);
    }
  }

  /** Every output is the mean of its own group of the input. */
  lemma {:induction false} DownmixAt(input: seq<real>, channels: nat, k: nat)
    requires channels > 1
    ensures MeanAt(input, channels, k, k * channels)
    decreases k
  {
    if k == 0 {
      MeanFirst(input, channels);
    } else {
      var at: nat := Place(k - 1, channels);
      if |input| > channels {
        DownmixAt(input[channels..], channels, k - 1);
      }
      MeanLater(input, channels, k - 1, at);
    }
  }

  predicate Aligned(n: nat, channels: nat) {
    n == 0 || channels == 0 || (n >= channels && Aligned(n - channels, channels))
  }

  /** Mixing down callback by callback is mixing down the whole, if callbacks end on a group. */
  lemma {:induction false} DownmixAppend(a: seq<real>, b: seq<real>, channels: nat)
    requires Aligned(|a|, channels)
    ensures Downmix(a + b, channels) == Downmix(a, channels) + Downmix(b, channels)
    decreases |a|
  {
    if channels > 1 && a != [] {
      var t := a[channels..];
      assert (a + b)[channels..] == t + b && (a + b)[..channels] == a[..channels];
      DownmixAppend(t, b, channels);
      if |a| == channels {
        assert a[..channels] == a && t == [];
        assert Downmix(b, channels) == [] <==> b == [];
        if b == [] {
          assert a + b == a;
        }
      }
    } else if a == [] {
      assert a + b == b;
    }
  }

  lemma {:induction false} AlignedSum(n: nat, m: nat, channels: nat)
    requires Aligned(n, channels) && Aligned(m, channels)
    ensures Aligned(n + m, channels)
    decreases n
  {
    if n > 0 && channels > 0 {
      AlignedSum(n - channels, m, channels);
    }
  }

  method DownmixMono(input: seq<real>, channels: nat) returns (out: seq<real>)
    ensures out == Downmix(input, channels)
  {
    if channels <= 1 {
      return input;
    }
    out := [];
    var rest := input;
    while rest != []
      invariant Downmix(input, channels) == out + Downmix(rest, channels)
      decreases |rest|
    {
      var n := if channels < |rest| then channels else |rest|;
      var sum := 0.0;
      for k := 0 to n
        invariant sum + Sum(rest[k..n]) == Sum(rest[..n])
      {
        assert rest[k..n][1..] == rest[k + 1..n];
        sum := sum + rest[k];
      }
      assert rest[..n] == if |rest| <= channels then rest else rest[..channels];
      out := out + [sum / channels as real];
      rest := rest[n..];
    }
  }

  // ---------------------------------------------------------------------------
  // Samples as bytes
  // ---------------------------------------------------------------------------

  type Sample = x: int | -0x8000 <= x < 0x8000

  /** Clamps to full scale and rounds half away from zero. */
  function Quantize(x: real): (q: Sample)
    ensures -32767 <= q <= 32767
  {
    var v := (if x < -1.0 then -1.0 else if x > 1.0 then 1.0 else x) * 32767.0;
    if v >= 0.0 then (v + 0.5).Floor else -((-v + 0.5).Floor)
  }

  /** Full scale outside [-1, 1]; inside, the nearest step of 32767. */
  lemma {:induction false} QuantizeIsNearest(x: real)
    ensures x >= 1.0 ==> Quantize(x) == 32767
    ensures x <= -1.0 ==> Quantize(x) == -32767
    ensures -1.0 <= x <= 1.0 ==> -0.5 <= Quantize(x) as real - 32767.0 * x <= 0.5
  {
  }

  /** A louder sample never gets a smaller step, and the negative sample gets the negative step. */
  lemma {:induction false} QuantizeIsOrderly(x: real, y: real)
    ensures x <= y ==> Quantize(x) <= Quantize(y)
    ensures Quantize(-x) == -Quantize(x)
  {
  }

  function Quantized(xs: seq<real>): seq<Sample> {
    seq(|xs|, i requires 0 <= i < |xs| => Quantize(xs[i]))
  }

  function Le16(x: Sample): seq<Byte> {
    var u: int := if x < 0 then x + 0x1_0000 else x;
    [u % 0x100, u / 0x100]
  }

  function FromLe16(lo: Byte, hi: Byte): int {
    var u := (lo as int) + (hi as int) * 0x100;
    if u >= 0x8000 then u - 0x1_0000 else u
  }

  lemma Le16RoundTrip(x: Sample)
    ensures FromLe16(Le16(x)[0], Le16(x)[1]) == x
  {
  }

  function LeBytes(samples: seq<Sample>): seq<Byte>
  {
    if samples == [] then [] else Le16(samples[0]) + LeBytes(samples[1..])
  }

  method LeBytesOf(samples: seq<Sample>) returns (out: seq<Byte>)
    ensures out == LeBytes(samples)
  {
    out := [];
    assert samples[0..] == samples;
    for i := 0 to |samples|
      invariant out + LeBytes(samples[i..]) == LeBytes(samples)
    {
      assert samples[i..][1..] == samples[i + 1..];
      out := out + Le16(samples[i]);
    }
  }

  /** The samples can be read back from the bytes of a frame. */
  lemma {:induction false} LeBytesReadBack(samples: seq<Sample>, k: nat)
    requires k < |samples|
    ensures |LeBytes(samples)| == 2 * |samples|
    ensures FromLe16(LeBytes(samples)[2 * k], LeBytes(samples)[2 * k + 1]) == samples[k]
    ensures LeBytes(samples)[2 * k] as int == samples[k] % 0x100
    ensures LeBytes(samples)[2 * k + 1] as int == samples[k] / 0x100 % 0x100
  {
    Le16RoundTrip(samples[0]);
    if |samples| > 1 {
      LeBytesReadBack(samples[1..], if k == 0 then 0 else k - 1);
    } else {
      assert LeBytes(samples[1..]) == [];
    }
  }

  // ---------------------------------------------------------------------------
  // The pipeline
  // ---------------------------------------------------------------------------

  /** What is left of the resampled stream after the first `skip` samples. */
  function Skipped<T>(s: seq<T>, skip: nat): seq<T> {
    if skip <= |s| then s[skip..] else []
  }

  function Encoded(frames: seq<seq<Sample>>): seq<seq<Byte>> {
    if frames == [] then [] else [LeBytes(frames[0])] + Encoded(frames[1..])
  }

  lemma {:induction false} EncodedConcat(a: seq<seq<Sample>>, b: seq<seq<Sample>>)
    ensures Encoded(a + b) == Encoded(a) + Encoded(b)
  {
    if a == [] {
      assert a + b == b;
    } else {
      assert (a + b)[1..] == a[1..] + b;
      EncodedConcat(a[1..], b);
    }
  }

  lemma QuantizedConcat(a: seq<real>, b: seq<real>)
    ensures Quantized(a + b) == Quantized(a) + Quantized(b)
  {
  }

  /** Skipping goes on where the previous call left off. */
  lemma SkippedAppend(a: seq<real>, b: seq<real>, skip: nat)
    ensures Skipped(a + b, skip) == Skipped(a, skip) + Skipped(b, if skip <= |a| then 0 else skip - |a|)
  {
    if skip <= |a| {
      assert (a + b)[skip..] == a[skip..] + b;
    }
  }

  /** What new samples add to the speech, to its frames and to what is kept back. */
  lemma SpeechGrows(outs: seq<real>, more: seq<real>, skip: nat, n: nat)
    requires n > 0
    ensures var speech := Quantized(Skipped(outs, skip));
      var speech' := Quantized(Skipped(outs + more, skip));
      var pending := Rest(speech, n) + Quantized(Skipped(more, if skip <= |outs| then 0 else skip - |outs|));
      && Encoded(Whole(speech', n)) == Encoded(Whole(speech, n)) + Encoded(Whole(pending, n))
      && Rest(speech', n) == Rest(pending, n)
  {
    var rest := Skipped(more, if skip <= |outs| then 0 else skip - |outs|);
    var speech := Quantized(Skipped(outs, skip));
    SkippedAppend(outs, more, skip);
    QuantizedConcat(Skipped(outs, skip), rest);
    WholeAppend(speech, Quantized(rest), n);
    EncodedConcat(Whole(speech, n), Whole(Rest(speech, n) + Quantized(rest), n));
  }

  /** `mono` is the mix of everything fed in callbacks that ended on a group. */
  ghost predicate Mixed(mono: seq<real>, fed: seq<real>, channels: nat) {
    mono == Downmix(fed, channels) && Aligned(|fed|, channels)
  }

  lemma {:induction false} MixedGrows(mono: seq<real>, fed: seq<real>, input: seq<real>, channels: nat)
    ensures Mixed(mono, fed, channels) && Aligned(|input|, channels) ==>
      Mixed(mono + Downmix(input, channels), fed + input, channels)
  {
    if Mixed(mono, fed, channels) && Aligned(|input|, channels) {
      MixedMore(fed, input, channels);
    }
  }

  lemma {:induction false} MixedMore(fed: seq<real>, input: seq<real>, channels: nat)
    requires Aligned(|fed|, channels) && Aligned(|input|, channels)
    ensures Mixed(Downmix(fed, channels) + Downmix(input, channels), fed + input, channels)
  {
    DownmixAppend(fed, input, channels);
    AlignedSum(|fed|, |input|, channels);
  }

  class PcmPipeline {
    const channels: nat
    const frameSamples: nat
    const skip: nat
    const resampler: StreamResampler
    var skipRemaining: nat
    var pending: seq<Sample>
    /** Everything fed in and all frames given out so far; whether every call so far ended on
        a complete group of channels. */
    ghost var fed: seq<real>
    ghost var aligned: bool
    ghost var frames: seq<seq<Byte>>

    ghost predicate Valid()
      reads this, resampler, resampler.fir, resampler.fir.buf
    {
      && resampler.Valid()
      && (aligned ==> Mixed(resampler.fed, fed, channels))
      && skipRemaining == (if skip <= |resampler.outs| then 0 else skip - |resampler.outs|)
      && (if frameSamples == 0 then pending == [] && frames == []
          else pending == Rest(Speech(), frameSamples) && frames == Encoded(Whole(Speech(), frameSamples)))
    }

    /** The quantized samples after the skipped beginning. */
    ghost function Speech(): seq<Sample>
      reads this, resampler
    {
      Quantized(Skipped(resampler.outs, skip))
    }

    constructor (channels: nat, inRate: nat, outRate: nat, frameSamples: nat, skip: nat, taps: seq<real>)
      requires taps != []
      ensures Valid() && fed == [] && frames == [] && aligned
      ensures this.channels == (if channels < 1 then 1 else channels)
      ensures this.frameSamples == frameSamples && this.skip == skip
      ensures resampler.mode == ModeOf(inRate, outRate) && resampler.fir.taps == taps
      ensures fresh(resampler) && fresh(resampler.fir) && fresh(resampler.fir.buf)
    {
      this.channels := if channels < 1 then 1 else channels;
      this.frameSamples, this.skip := frameSamples, skip;
      resampler := new StreamResampler(inRate, outRate, taps);
      skipRemaining, pending := skip, [];
      fed, aligned, frames := [], true, [];
    }

    /** One callback. The frames given out in all are the framing of the whole speech, and
        less than one frame is kept back. Not `ended`: the framing loop goes on for good, as
        it does for any input if the frame size is 0. */
    method PushInterleaved(input: seq<real>) returns (ended: bool, out: seq<seq<Byte>>)
      requires Valid()
      modifies this, resampler, resampler.fir, resampler.fir.buf
      ensures ended <==> frameSamples > 0 || input == []
      ensures ended ==> Valid() && fed == old(fed) + input && frames == old(frames) + out
      ensures ended ==> aligned == (old(aligned) && Aligned(|input|, channels))
      ensures ended ==> resampler.fed == old(resampler.fed) + Downmix(input, channels)
      ensures ended && frameSamples > 0 ==> |pending| < frameSamples
    {
      ended, out := true, [];
      if input == [] {
        assert fed + input == fed && frames + [] == frames;
        assert Downmix(input, channels) == [] && resampler.fed + [] == resampler.fed;
        return;
      }
      ghost var outs := resampler.outs;
      var resampled := MixAndResample(input);
      if frameSamples == 0 {
        ended := false;
      } else {
        out := TakeSpeech(resampled, outs);
      }
    }

    /** Skips, quantizes and frames what the resampler has just given out behind `outs`. */
    method TakeSpeech(resampled: seq<real>, ghost outs: seq<real>) returns (out: seq<seq<Byte>>)
      requires frameSamples > 0 && skipRemaining == (if skip <= |outs| then 0 else skip - |outs|)
      requires pending == Rest(Quantized(Skipped(outs, skip)), frameSamples)
      requires frames == Encoded(Whole(Quantized(Skipped(outs, skip)), frameSamples))
      modifies `skipRemaining, `pending, `frames
      ensures skipRemaining == if skip <= |outs + resampled| then 0 else skip - |outs + resampled|
      ensures pending == Rest(Quantized(Skipped(outs + resampled, skip)), frameSamples)
      ensures frames == Encoded(Whole(Quantized(Skipped(outs + resampled, skip)), frameSamples))
      ensures frames == old(frames) + out
    {
      SpeechGrows(outs, resampled, skip, frameSamples);
      var rest := SkipFirst(resampled);
      pending := pending + Quantized(rest);
      out := CutFrames();
      frames := frames + out;
    }

    method MixAndResample(input: seq<real>) returns (out: seq<real>)
      requires resampler.Valid()
      requires aligned ==> Mixed(resampler.fed, fed, channels)
      modifies `fed, `aligned, resampler, resampler.fir, resampler.fir.buf
      ensures resampler.Valid() && resampler.outs == old(resampler.outs) + out
      ensures fed == old(fed) + input && aligned == (old(aligned) && Aligned(|input|, channels))
      ensures resampler.fed == old(resampler.fed) + Downmix(input, channels)
      ensures aligned ==> Mixed(resampler.fed, fed, channels)
    {
      var mono := DownmixMono(input, channels);
      MixedGrows(resampler.fed, fed, input, channels);
      out := resampler.Push(mono);
      fed, aligned := fed + input, aligned && Aligned(|input|, channels);
    }

    method SkipFirst(resampled: seq<real>) returns (rest: seq<real>)
      modifies `skipRemaining
      ensures rest == Skipped(resampled, old(skipRemaining))
      ensures skipRemaining == if old(skipRemaining) <= |resampled| then 0 else old(skipRemaining) - |resampled|
    {
      rest := resampled;
      if skipRemaining > 0 {
        var drop := if skipRemaining < |rest| then skipRemaining else |rest|;
        rest := rest[drop..];
        skipRemaining := skipRemaining - drop;
      }
    }

    /** Takes the complete frames out of what is pending. */
    method CutFrames() returns (out: seq<seq<Byte>>)
      requires frameSamples > 0
      modifies `pending
      ensures out == Encoded(Whole(old(pending), frameSamples)) && pending == Rest(old(pending), frameSamples)
    {
      out := [];
      while |pending| >= frameSamples
        invariant Encoded(Whole(old(pending), frameSamples)) == out + Encoded(Whole(pending, frameSamples))
        invariant Rest(old(pending), frameSamples) == Rest(pending, frameSamples)
        decreases |pending|
      {
        var frame := LeBytesOf(pending[..frameSamples]);
        ghost var w := Whole(pending[frameSamples..], frameSamples);
        assert ([pending[..frameSamples]] + w)[1..] == w;
        pending := pending[frameSamples..];
        out := out + [frame];
      }
    }
  }

  lemma {:induction false} EncodedAt(fs: seq<seq<Sample>>, k: nat)
    ensures |Encoded(fs)| == |fs|
    ensures k < |fs| ==> Encoded(fs)[k] == LeBytes(fs[k])
  {
    if fs != [] {
      EncodedAt(fs[1..], if k == 0 then 0 else k - 1);
    }
  }

  /** What the server receives, byte by byte: sample i of frame k is the little-endian step of
      resampled sample skip + k * n + i; frame k is there exactly if all its samples are. */
  lemma {:induction false} FrameBytes(p: PcmPipeline, k: nat, i: nat)
    requires p.Valid() && i < p.frameSamples
    ensures var at := p.skip + k * p.frameSamples; var outs := p.resampler.outs;
      && (k < |p.frames| <==> at + p.frameSamples <= |outs|)
      && (k < |p.frames| ==>
           var q := Quantize(outs[at + i]);
           && |p.frames[k]| == 2 * p.frameSamples
           && p.frames[k][2 * i] as int == q % 0x100 && p.frames[k][2 * i + 1] as int == q / 0x100 % 0x100)
  {
    var n, speech := p.frameSamples, p.Speech();
    WholeAt(speech, n, k);
    EncodedAt(Whole(speech, n), k);
    var at := k * n;
    SpeechAt(p.resampler.outs, p.skip, at, n, i);
    if k < |p.frames| {
      LeBytesReadBack(Whole(speech, n)[k], i);
    }
  }

  lemma SpeechAt(outs: seq<real>, skip: nat, at: nat, n: nat, i: nat)
    requires i < n
    ensures var speech := Quantized(Skipped(outs, skip));
      && (at + n <= |speech| <==> skip + at + n <= |outs|)
      && (at + n <= |speech| ==> speech[at..at + n][i] == Quantize(outs[skip + at + i]))
  {
  }

  /** What the pipeline gives out is a function of what it was fed: the frames of the mixed,
      resampled, clipped stream. Two pipelines fed the same samples in different aligned
      callbacks have given out the same frames and keep the same samples back. */
  lemma {:induction false} CallbacksDoNotMatter(a: PcmPipeline, b: PcmPipeline)
    requires a.Valid() && b.Valid() && a.aligned && b.aligned && a.fed == b.fed
    requires a.channels == b.channels && a.frameSamples == b.frameSamples && a.skip == b.skip
    requires a.resampler.mode == b.resampler.mode && a.resampler.fir.taps == b.resampler.fir.taps
    ensures a.frames == b.frames && a.pending == b.pending
  {
    PiecesDoNotMatter(a.resampler, b.resampler);
  }

  /** The frames and the samples kept back are the whole speech: nothing is lost or repeated. */
  lemma {:induction false} FramesAreTheSpeech(p: PcmPipeline)
    requires p.Valid() && p.frameSamples > 0
    ensures var cut := Whole(p.Speech(), p.frameSamples);
      && p.frames == Encoded(cut) && Flatten(cut) + p.pending == p.Speech()
      && forall f :: f in cut ==> |f| == p.frameSamples
    ensures |p.pending| < p.frameSamples
  {
    WholeIsAll(p.Speech(), p.frameSamples);
  }
}
