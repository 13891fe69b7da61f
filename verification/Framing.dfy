/** Cutting a stream into frames of one size, all at once or as it arrives. */
module Framing {
  import opened Frames

  /** The complete frames of a stream. */
  function Whole<T>(s: seq<T>, n: nat): seq<seq<T>>
    requires n > 0
  {
    if |s| < n then [] else [s[..n]] + Whole(s[n..], n)
  }

  /** What is left behind the last complete frame. */
  function Rest<T>(s: seq<T>, n: nat): (r: seq<T>)
    requires n > 0
    ensures |r| < n
  {
    if |s| < n then s else Rest(s[n..], n)
  }

  function Flatten<T>(fs: seq<seq<T>>): seq<T> {
    if fs == [] then [] else fs[0] + Flatten(fs[1..])
  }

  lemma {:induction false} FlattenConcat<T>(a: seq<seq<T>>, b: seq<seq<T>>)
    ensures Flatten(a + b) == Flatten(a) + Flatten(b)
  {
    if a == [] {
      assert a + b == b;
    } else {
      assert (a + b)[1..] == a[1..] + b;
      FlattenConcat(a[1..], b);
    }
  }

  /** Framing the head of a stream and keeping the rest for later loses nothing. */
  lemma {:induction false} WholeAppend<T>(a: seq<T>, b: seq<T>, n: nat)
    requires n > 0
    ensures Whole(a + b, n) == Whole(a, n) + Whole(Rest(a, n) + b, n)
    ensures Rest(a + b, n) == Rest(Rest(a, n) + b, n)
  {
    if |a| >= n {
      assert (a + b)[..n] == a[..n];
      assert (a + b)[n..] == a[n..] + b;
      WholeAppend(a[n..], b, n);
    }
  }

  /** The complete frames and the rest are the stream, and every frame is full. */
  lemma {:induction false} WholeIsAll<T>(s: seq<T>, n: nat)
    requires n > 0
    ensures Flatten(Whole(s, n)) + Rest(s, n) == s
    ensures forall f :: f in Whole(s, n) ==> |f| == n
    ensures |s| == |Whole(s, n)| * n + |Rest(s, n)|
  {
    if |s| >= n {
      var t, w, r := s[n..], Whole(s[n..], n), Rest(s[n..], n);
      WholeIsAll(t, n);
      assert ([s[..n]] + w)[1..] == w;
      assert s[..n] + (Flatten(w) + r) == (s[..n] + Flatten(w)) + r;
      assert s == s[..n] + t;
      OneMore(|w|, n);
    }
  }

  lemma OneMore(k: nat, n: nat)
    ensures (k + 1) * n == k * n + n
  {
  }

  // ---------------------------------------------------------------------------
  // Whether a framing loop ends
  // ---------------------------------------------------------------------------

  /** What is buffered after `rounds` rounds of the loop that takes frames of size n as long as
      the buffer holds one. */
  function AfterRounds<T>(buffer: seq<T>, n: nat, rounds: nat): seq<T> {
    if rounds == 0 || |buffer| < n then buffer else AfterRounds(buffer[n..], n, rounds - 1)
  }

  /** The loop gets to where its guard fails if and only if the frame size is positive. */
  lemma {:induction false} FramingEndsIff<T>(buffer: seq<T>, n: nat)
    ensures (exists rounds: nat :: |AfterRounds(buffer, n, rounds)| < n) <==> n > 0
  {
    if n > 0 {
      var rounds := RoundsNeeded(buffer, n);
    }
  }

  lemma {:induction false} RoundsNeeded<T>(buffer: seq<T>, n: nat) returns (rounds: nat)
    requires n > 0
    ensures |AfterRounds(buffer, n, rounds)| < n
    decreases |buffer|
  {
    rounds := 0;
    if |buffer| >= n {
      var rest := RoundsNeeded(buffer[n..], n);
      rounds := rest + 1;
    }
  }

  /** With frame size 0 every round leaves the buffer as it was. */
  lemma {:induction false} ZeroFramesGoOn<T>(buffer: seq<T>, rounds: nat)
    ensures AfterRounds(buffer, 0, rounds) == buffer
  {
    if rounds > 0 {
      assert buffer[0..] == buffer;
      ZeroFramesGoOn(buffer, rounds - 1);
    }
  }

  /** The framer of the voice client; its arithmetic is that of 32-bit unsigned numbers. */
  datatype PcmFramer = PcmFramer(sampleRate: nat, channels: nat, frameMs: nat) {
    function SamplesPerFrame(): nat { sampleRate * frameMs % 0x1_0000_0000 / 1000 }

    function BytesPerFrame(): nat { SamplesPerFrame() * channels * 2 }
  }

  function NewFramer(sampleRate: nat, channels: nat, frameMs: nat): Option<PcmFramer> {
    if sampleRate == 0 || frameMs == 0 || (channels != 1 && channels != 2) then None
    else Some(PcmFramer(sampleRate, channels, frameMs))
  }

  /** Exactly which accepted framers have empty frames. */
  lemma {:induction false} EmptyFramesIff(sampleRate: nat, channels: nat, frameMs: nat)
    requires NewFramer(sampleRate, channels, frameMs).Some?
    ensures NewFramer(sampleRate, channels, frameMs).value.BytesPerFrame() == 0
       <==> sampleRate * frameMs % 0x1_0000_0000 < 1000
  {
    var f := NewFramer(sampleRate, channels, frameMs).value;
    assert f.BytesPerFrame() == if f.channels == 1 then f.SamplesPerFrame() * 2 else f.SamplesPerFrame() * 4;
  }

  /** Without overflow a frame holds its duration of 16-bit samples of every channel, rounded
      down to a whole sample. */
  lemma {:induction false} FrameLasts(sampleRate: nat, channels: nat, frameMs: nat)
    requires NewFramer(sampleRate, channels, frameMs).Some? && sampleRate * frameMs < 0x1_0000_0000
    ensures var bytes := NewFramer(sampleRate, channels, frameMs).value.BytesPerFrame(); var n := bytes / (2 * channels);
      bytes == 2 * channels * n && n * 1000 <= sampleRate * frameMs < n * 1000 + 1000
  {
    var n := NewFramer(sampleRate, channels, frameMs).value.SamplesPerFrame();
    if channels == 1 {
      assert n * 1 * 2 / 2 == n;
    } else {
      assert n * 2 * 2 / 4 == n;
    }
  }

  // ---------------------------------------------------------------------------
  // PCM frames of the wire protocol
  // ---------------------------------------------------------------------------

  function Zeros(k: nat): seq<Byte> {
    seq(k, i => 0)
  }

  function Pad(s: seq<Byte>, n: nat): (r: seq<Byte>)
    ensures |s| <= n ==> |r| == n
  {
    if |s| <= n then s + Zeros(n - |s|) else s
  }

  /** A recording cut into frames, the last one filled up with silence. */
  function SplitPcm(pcm: seq<Byte>, n: nat): seq<seq<Byte>>
    requires n > 0
  {
    Whole(pcm, n) + if Rest(pcm, n) == [] then [] else [Pad(Rest(pcm, n), n)]
  }

  /** Frame k of the complete ones is the k-th block of the stream. */
  ghost predicate BlockAt<T>(s: seq<T>, n: nat, k: nat, at: nat)
    requires n > 0
  {
    && (k < |Whole(s, n)| <==> at + n <= |s|)
    && (at + n <= |s| ==> k < |Whole(s, n)| && Whole(s, n)[k] == s[at..at + n])
  }

  lemma BlockLater<T>(s: seq<T>, n: nat, k: nat, at: nat)
    requires n > 0 && (|s| >= n ==> BlockAt(s[n..], n, k, at))
    ensures BlockAt(s, n, k + 1, at + n)
  {
    if at + n + n <= |s| {
      assert s[n..][at..at + n] == s[at + n..at + n + n];
    }
  }

  lemma Place(k: nat, n: nat) returns (at: nat)
    ensures at == k * n && at + n == (k + 1) * n
  {
    at := k * n;
  }

  lemma BlockFirst<T>(s: seq<T>, n: nat)
    requires n > 0
    ensures BlockAt(s, n, 0, 0)
  {
  }

  /** The complete frames are the blocks of the stream, one behind the other. */
  lemma {:induction false} WholeAt<T>(s: seq<T>, n: nat, k: nat)
    requires n > 0
    ensures BlockAt(s, n, k, k * n)
    decreases k
  {
    if k == 0 {
      BlockFirst(s, n);
    } else {
      var at: nat := Place(k - 1, n);
      if |s| >= n {
        WholeAt(s[n..], n, k - 1);
      }
      BlockLater(s, n, k - 1, at);
    }
  }

  /** The frames carry the recording and nothing but silence behind it, less than one frame
      of it; each is full; there are none for an empty recording. */
  lemma {:induction false} SplitCarriesAll(pcm: seq<Byte>, n: nat) returns (k: nat)
    requires n > 0
    ensures k < n && Flatten(SplitPcm(pcm, n)) == pcm + seq(k, i => 0)
    ensures forall f :: f in SplitPcm(pcm, n) ==> |f| == n
    ensures |SplitPcm(pcm, n)| * n == |pcm| + k
    ensures SplitPcm(pcm, n) == [] <==> pcm == []
  {
    var w, r := Whole(pcm, n), Rest(pcm, n);
    WholeIsAll(pcm, n);
    if r == [] {
      k := 0;
      assert w + [] == w;
      assert Flatten(w) + [] == Flatten(w) && pcm + Zeros(0) == pcm;
    } else {
      k := n - |r|;
      FlattenConcat(w, [Pad(r, n)]);
      assert [Pad(r, n)][1..] == [];
      assert Flatten([Pad(r, n)]) == Pad(r, n);
      assert Flatten(w) + (r + Zeros(k)) == (Flatten(w) + r) + Zeros(k);
      OneMore(|w|, n);
    }
  }

  /** Cuts a recording: each frame is a block of zeros the samples are copied into. */
  method SplitPcmFrames(pcm: seq<Byte>, bytesPerFrame: nat) returns (frames: seq<seq<Byte>>)
    ensures frames == if bytesPerFrame == 0 then [] else SplitPcm(pcm, bytesPerFrame)
  {
    frames := [];
    if bytesPerFrame == 0 || pcm == [] {
      return;
    }
    var offset := 0;
    while offset < |pcm|
      invariant SplitPcm(pcm, bytesPerFrame) == frames + SplitPcm(From(pcm, offset), bytesPerFrame)
      decreases |pcm| - offset
    {
      var end := if offset + bytesPerFrame < |pcm| then offset + bytesPerFrame else |pcm|;
      var chunk := pcm[offset..end] + Zeros(bytesPerFrame - (end - offset));
      SplitStep(pcm, offset, bytesPerFrame);
      frames := frames + [chunk];
      offset := offset + bytesPerFrame;
    }
  }

  function From(pcm: seq<Byte>, offset: nat): seq<Byte> {
    if offset < |pcm| then pcm[offset..] else []
  }

  lemma SplitStep(pcm: seq<Byte>, offset: nat, n: nat)
    requires n > 0 && offset < |pcm|
    ensures var end := if offset + n < |pcm| then offset + n else |pcm|;
      SplitPcm(From(pcm, offset), n)
      == [pcm[offset..end] + Zeros(n - (end - offset))] + SplitPcm(From(pcm, offset + n), n)
  {
    var s := pcm[offset..];
    if offset + n <= |pcm| {
      assert s[..n] == pcm[offset..offset + n] + Zeros(0);
      assert s[n..] == From(pcm, offset + n);
    } else {
      assert pcm[offset..|pcm|] == s;
      assert SplitPcm([], n) == [];
    }
  }

  // ---------------------------------------------------------------------------
  // The upload loop
  // ---------------------------------------------------------------------------

  /** Sends the chunks of a live source as frames. `finished(i)`: the server has ended the
      session when the loop looks for the i-th time. Not `ended`: the framing loop goes on
      for good, as it does for the first chunk if the frame size is 0. */
  method Upload(chunks: seq<seq<Byte>>, finished: nat -> bool, n: nat) returns (ended: bool, frames: seq<seq<Byte>>)
    ensures ended <==> n > 0 || chunks == [] || finished(0)
    ensures n > 0 && (forall i :: 0 <= i <= |chunks| ==> !finished(i)) ==> frames == SplitPcm(Flatten(chunks), n)
    ensures n > 0 ==> frames <= SplitPcm(Flatten(chunks), n)
    ensures forall i :: 0 <= i <= |chunks| && n > 0 && finished(i) && (forall j :: 0 <= j < i ==> !finished(j)) ==>
      frames == Whole(Flatten(chunks[..i]), n)
    ensures ended && n == 0 ==> frames == []
  {
    frames := [];
    if n == 0 {
      return chunks == [] || finished(0), [];
    }
    ended := true;
    var buffer: seq<Byte>, i := [], 0;
    while i < |chunks|
      invariant forall j :: 0 <= j < i ==> !finished(j)
      invariant i <= |chunks| && frames == Whole(Flatten(chunks[..i]), n) && buffer == Rest(Flatten(chunks[..i]), n)
    {
      if finished(i) {
        Headstart(chunks, i, n);
        return;
      }
      WholeAppend(Flatten(chunks[..i]), chunks[i], n);
      FlattenSnoc(chunks, i);
      buffer := buffer + chunks[i];
      ghost var before, joined := frames, buffer;
      ghost var sent: seq<seq<Byte>> := [];
      while |buffer| >= n
        invariant Whole(joined, n) == sent + Whole(buffer, n) && Rest(joined, n) == Rest(buffer, n)
        invariant frames == before + sent
        decreases |buffer|
      {
        frames, sent := frames + [buffer[..n]], sent + [buffer[..n]];
        buffer := buffer[n..];
      }
      i := i + 1;
    }
    assert chunks[..i] == chunks;
    if !finished(i) {
      if buffer != [] {
        frames := frames + [Pad(buffer, n)];
      }
    }
  }

  lemma {:induction false} FlattenSnoc<T>(chunks: seq<seq<T>>, i: nat)
    requires i < |chunks|
    ensures Flatten(chunks[..i + 1]) == Flatten(chunks[..i]) + chunks[i]
  {
    assert chunks[..i + 1] == chunks[..i] + [chunks[i]];
    FlattenConcat(chunks[..i], [chunks[i]]);
    assert [chunks[i]][1..] == [];
    assert Flatten([chunks[i]]) == chunks[i] + [];
  }

  lemma Headstart(chunks: seq<seq<Byte>>, i: nat, n: nat)
    requires n > 0 && i <= |chunks|
    ensures Whole(Flatten(chunks[..i]), n) <= SplitPcm(Flatten(chunks), n)
  {
    assert chunks == chunks[..i] + chunks[i..];
    FlattenConcat(chunks[..i], chunks[i..]);
    WholeAppend(Flatten(chunks[..i]), Flatten(chunks[i..]), n);
  }
}
