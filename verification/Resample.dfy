/** The streaming resampler in exact arithmetic: a ring-buffer filter and an integer or
    fractional decimator that carry their state from call to call. */
module Resampling {
  import opened Framing

  // ---------------------------------------------------------------------------
  // The filter
  // ---------------------------------------------------------------------------

  function Silence(n: nat): seq<real> {
    seq(n, i => 0.0)
  }

  function Dot(w: seq<real>, taps: seq<real>, k: nat): real
    requires k <= |w| && k <= |taps|
  {
    if k == 0 then 0.0 else Dot(w, taps, k - 1) + w[k - 1] * taps[k - 1]
  }

  /** A window that is 1.0 at one place and silent elsewhere answers that place's tap. */
  lemma {:induction false} DotImpulse(taps: seq<real>, i: nat, k: nat)
    requires i < |taps| && k <= |taps|
    ensures Dot(seq(|taps|, j => if j == i then 1.0 else 0.0), taps, k) == if i < k then taps[i] else 0.0
  {
    if k > 0 {
      DotImpulse(taps, i, k - 1);
    }
  }

  function Mix(a: seq<real>, x: real, b: seq<real>, y: real): seq<real>
    requires |a| == |b|
  {
    seq(|a|, i requires 0 <= i < |a| => x * a[i] + y * b[i])
  }

  /** The answer is linear in the window; with `DotImpulse`, it is the weighted sum. */
  lemma {:induction false} DotIsLinear(a: seq<real>, x: real, b: seq<real>, y: real, taps: seq<real>, k: nat)
    requires |a| == |b| && k <= |a| && k <= |taps|
    ensures Dot(Mix(a, x, b, y), taps, k) == x * Dot(a, taps, k) + y * Dot(b, taps, k)
  {
    if k > 0 {
      DotIsLinear(a, x, b, y, taps, k - 1);
      TermIsLinear(x, a[k - 1], y, b[k - 1], taps[k - 1], Dot(a, taps, k - 1), Dot(b, taps, k - 1));
    }
  }

  lemma TermIsLinear(x: real, a: real, y: real, b: real, t: real, p: real, q: real)
    ensures (x * p + y * q) + (x * a + y * b) * t == x * (p + a * t) + y * (q + b * t)
  {
  }

  /** The last n samples, oldest first, silence before the first. */
  function Window(xs: seq<real>, n: nat): (w: seq<real>)
    ensures |w| == n
  {
    (Silence(n) + xs)[|xs|..]
  }

  /** What the filter answers to its latest sample: nothing before its window is full. */
  function FilterOut(taps: seq<real>, xs: seq<real>): real {
    if |xs| < |taps| then 0.0 else Dot(Window(xs, |taps|), taps, |taps|)
  }

  function Filtered(taps: seq<real>, xs: seq<real>): (ys: seq<real>)
    ensures |ys| == |xs|
  {
    if xs == [] then [] else Filtered(taps, xs[..|xs| - 1]) + [FilterOut(taps, xs)]
  }

  /** Once full, the window is exactly the last n samples. */
  lemma WindowIsLastSamples(xs: seq<real>, n: nat)
    requires n <= |xs|
    ensures Window(xs, n) == xs[|xs| - n..]
  {
  }

  lemma {:induction false} FilteredPrefix(taps: seq<real>, xs: seq<real>, k: nat)
    requires k <= |xs|
    ensures Filtered(taps, xs)[..k] == Filtered(taps, xs[..k])
  {
    if k < |xs| {
      FilteredPrefix(taps, xs[..|xs| - 1], k);
      assert xs[..|xs| - 1][..k] == xs[..k];
    } else {
      assert xs[..k] == xs;
    }
  }

  class Fir {
    const taps: seq<real>
    const buf: array<real>
    var idx: nat
    var filled: nat
    ghost var hist: seq<real>

    ghost predicate Valid()
      reads this, buf
    {
      && buf.Length == |taps| > 0 && idx < buf.Length
      && filled == (if |hist| < |taps| then |hist| else |taps|)
      && buf[idx..] + buf[..idx] == Window(hist, |taps|)
    }

    constructor (taps: seq<real>)
      requires taps != []
      ensures Valid() && this.taps == taps && hist == [] && fresh(buf)
    {
      this.taps := taps;
      buf := new real[|taps|](i => 0.0);
      idx, filled, hist := 0, 0, [];
      new;
      assert buf[0..] + buf[..0] == Silence(|taps|);
      assert Silence(|taps|) + [] == Silence(|taps|);
    }

    /** Overwrites the oldest sample with `x`. */
    method Store(x: real)
      requires Valid()
      modifies `idx, `hist, buf
      ensures buf.Length == |taps| && idx < buf.Length && hist == old(hist) + [x]
      ensures buf[idx..] + buf[..idx] == Window(hist, |taps|)
    {
      ghost var n, i, b := |taps|, idx, buf[..];
      ghost var w := Window(hist, n);
      assert b[i..] + b[..i] == w;
      buf[idx] := x;
      idx := if idx + 1 == buf.Length then 0 else idx + 1;
      assert buf[..] == b[..i] + [x] + b[i + 1..];
      assert w[1..] == b[i + 1..] + b[..i];
      assert Window(hist + [x], n) == w[1..] + [x] by {
        WindowPush(hist, x, n);
      }
      hist := hist + [x];
    }

    /** Takes a sample, answers the filtered one. */
    method Push(x: real) returns (y: real)
      requires Valid()
      modifies this, buf
      ensures Valid() && hist == old(hist) + [x]
      ensures y == FilterOut(taps, hist)
    {
      Store(x);
      if filled < buf.Length {
        filled := filled + 1;
        if filled < buf.Length {
          return 0.0;
        }
      }
      y := Answer();
    }

    /** The dot product of the taps with the ring, from the oldest sample on. */
    method Answer() returns (y: real)
      requires buf.Length == |taps| && idx < buf.Length
      ensures y == Dot(buf[idx..] + buf[..idx], taps, |taps|)
    {
      y := 0.0;
      ghost var w := buf[idx..] + buf[..idx];
      var j := idx;
      for k := 0 to |taps|
        invariant y == Dot(w, taps, k)
        invariant j == if idx + k < buf.Length then idx + k else idx + k - buf.Length
      {
        assert buf[j] == w[k];
        y := y + buf[j] * taps[k];
        j := j + 1;
        if j == buf.Length {
          j := 0;
        }
      }
    }
  }

  lemma WindowPush(xs: seq<real>, x: real, n: nat)
    requires n > 0
    ensures Window(xs + [x], n) == Window(xs, n)[1..] + [x]
  {
    assert Silence(n) + (xs + [x]) == (Silence(n) + xs) + [x];
  }

  // ---------------------------------------------------------------------------
  // Integer decimation
  // ---------------------------------------------------------------------------

  /** The middle sample of every complete group. */
  function Decimated(ys: seq<real>, factor: nat): seq<real>
    requires factor > 0
  {
    if |ys| < factor then [] else [ys[factor / 2]] + Decimated(ys[factor..], factor)
  }

  lemma {:induction false} DecimatedSnoc(ys: seq<real>, y: real, factor: nat)
    requires factor > 0
    ensures var r := Rest(ys, factor) + [y];
      && Decimated(ys + [y], factor) == Decimated(ys, factor) + (if |r| >= factor then [r[factor / 2]] else [])
      && Rest(ys + [y], factor) == if |r| >= factor then [] else r
  {
    if |ys| >= factor {
      assert (ys + [y])[factor..] == ys[factor..] + [y];
      DecimatedSnoc(ys[factor..], y, factor);
    } else if |ys| + 1 == factor {
      assert (ys + [y])[factor..] == [];
    }
  }

  /** Output k is there exactly if the group that begins at `at` is complete, and is its middle. */
  ghost predicate MiddleAt(ys: seq<real>, factor: nat, k: nat, at: nat)
    requires factor > 0
  {
    && (k < |Decimated(ys, factor)| <==> at + factor <= |ys|)
    && (at + factor <= |ys| ==> k < |Decimated(ys, factor)| && Decimated(ys, factor)[k] == ys[at + factor / 2])
  }

  lemma MiddleLater(ys: seq<real>, factor: nat, k: nat, at: nat)
    requires factor > 0 && (|ys| >= factor ==> MiddleAt(ys[factor..], factor, k, at))
    ensures MiddleAt(ys, factor, k + 1, at + factor)
  {
  }

  /** The k-th output is the middle of the k-th group. */
  lemma {:induction false} DecimatedAt(ys: seq<real>, factor: nat, k: nat)
    requires factor > 0
    ensures MiddleAt(ys, factor, k, k * factor)
    decreases k
  {
    if k == 0 {
      MiddleFirst(ys, factor);
    } else {
      var at: nat := Place(k - 1, factor);
      if |ys| >= factor {
        DecimatedAt(ys[factor..], factor, k - 1);
      }
      MiddleLater(ys, factor, k - 1, at);
    }
  }

  lemma MiddleFirst(ys: seq<real>, factor: nat)
    requires factor > 0
    ensures MiddleAt(ys, factor, 0, 0)
  {
  }

  // ---------------------------------------------------------------------------
  // Fractional positions
  // ---------------------------------------------------------------------------

  /** Where output k is taken: the ratio added up k times. */
  function Pos(k: nat, ratio: real): real {
    if k == 0 then 0.0 else Pos(k - 1, ratio) + ratio
  }

  function Interpolate(ys: seq<real>, p: real): real
    requires p >= 0.0 && p.Floor + 1 < |ys|
  {
    var i := p.Floor;
    ys[i] + (ys[i + 1] - ys[i]) * (p - i as real)
  }

  /** Adding up the ratio is multiplying it. */
  lemma {:induction false} PosIs(k: nat, ratio: real)
    ensures Pos(k, ratio) == k as real * ratio
  {
    if k > 0 {
      PosIs(k - 1, ratio);
      assert (k - 1) as real * ratio + ratio == k as real * ratio;
    }
  }

  /** Between two samples the output moves on the straight line from one to the other. */
  lemma {:induction false} InterpolateBetween(ys: seq<real>, i: nat, t: real)
    requires i + 1 < |ys| && 0.0 <= t < 1.0
    ensures (i as real + t).Floor == i
    ensures Interpolate(ys, i as real + t) == (1.0 - t) * ys[i] + t * ys[i + 1]
  {
    assert (i as real + t).Floor == i;
    assert (ys[i + 1] - ys[i]) * t == t * ys[i + 1] - t * ys[i];
  }

  lemma {:induction false} PosMonotone(j: nat, k: nat, ratio: real)
    requires j <= k && ratio > 0.0
    ensures 0.0 <= Pos(j, ratio) <= Pos(k, ratio)
    ensures j < k ==> Pos(j, ratio) < Pos(k, ratio)
  {
    if j < k {
      PosMonotone(j, k - 1, ratio);
    } else if j > 0 {
      PosMonotone(j - 1, j - 1, ratio);
    }
  }

  ghost predicate OutputAt(ys: seq<real>, ratio: real, outs: seq<real>, k: nat)
    requires k < |outs|
  {
    var p := Pos(k, ratio);
    p >= 0.0 && p.Floor + 1 < |ys| && outs[k] == Interpolate(ys, p)
  }

  /** `outs` are exactly the outputs the samples allow: output k is the interpolation at
      position k, and is there if and only if both neighbours of its position are. */
  ghost predicate Resampled(ys: seq<real>, ratio: real, outs: seq<real>) {
    && (forall k: nat {:trigger OutputAt(ys, ratio, outs, k)} :: k < |outs| ==> OutputAt(ys, ratio, outs, k))
    && Pos(|outs|, ratio).Floor + 1 >= |ys|
  }

  /** Output k exists if and only if both its neighbours have arrived. */
  lemma {:induction false} EmittedIffNeighbours(ys: seq<real>, ratio: real, outs: seq<real>, k: nat)
    requires ratio > 0.0 && Resampled(ys, ratio, outs)
    ensures k < |outs| <==> Pos(k, ratio).Floor + 1 < |ys|
    ensures k < |outs| ==> Pos(k, ratio) >= 0.0 && outs[k] == Interpolate(ys, Pos(k, ratio))
  {
    if k < |outs| {
      assert OutputAt(ys, ratio, outs, k);
    } else {
      PosMonotone(|outs|, k, ratio);
    }
  }

  /** There is only one such sequence. */
  lemma {:induction false} ResampledUnique(ys: seq<real>, ratio: real, a: seq<real>, b: seq<real>)
    requires ratio > 0.0 && Resampled(ys, ratio, a) && Resampled(ys, ratio, b)
    ensures a == b
  {
    EmittedIffNeighbours(ys, ratio, a, |a|);
    EmittedIffNeighbours(ys, ratio, b, |a|);
    EmittedIffNeighbours(ys, ratio, a, |b|);
    EmittedIffNeighbours(ys, ratio, b, |b|);
    forall k: nat | k < |a| ensures a[k] == b[k] {
      EmittedIffNeighbours(ys, ratio, a, k);
      EmittedIffNeighbours(ys, ratio, b, k);
    }
  }

  /** More samples leave the outputs already made as they are. */
  lemma OutputStays(ys: seq<real>, more: seq<real>, ratio: real, outs: seq<real>, k: nat)
    requires k < |outs| && OutputAt(ys, ratio, outs, k)
    ensures OutputAt(ys + more, ratio, outs, k)
  {
  }

  // ---------------------------------------------------------------------------
  // The resampler
  // ---------------------------------------------------------------------------

  datatype Mode = Identity | Integer(factor: nat) | Fractional(ratio: real)

  function ModeOf(inRate: nat, outRate: nat): Mode {
    if inRate == 0 || outRate == 0 || inRate == outRate then Identity
    else if inRate % outRate == 0 then Integer(inRate / outRate)
    else Fractional(inRate as real / outRate as real)
  }

  /** The mode resamples by exactly the ratio of the rates, group by group if that is whole. */
  lemma {:induction false} ModeIs(inRate: nat, outRate: nat)
    ensures var m := ModeOf(inRate, outRate);
      && (m.Identity? <==> inRate == 0 || outRate == 0 || inRate == outRate)
      && (m.Integer? ==> m.factor * outRate == inRate)
      && (m.Fractional? ==> m.ratio * outRate as real == inRate as real && inRate % outRate != 0)
  {
    if outRate > 0 {
      assert inRate == (inRate / outRate) * outRate + inRate % outRate;
    }
  }

  predicate Usable(m: Mode) {
    match m
    case Identity => true
    case Integer(factor) => factor > 0
    case Fractional(ratio) => ratio > 0.0
  }

  lemma ModesAreUsable(inRate: nat, outRate: nat)
    ensures Usable(ModeOf(inRate, outRate))
  {
    var m := ModeOf(inRate, outRate);
    if m.Integer? {
      assert inRate == (inRate / outRate) * outRate + inRate % outRate;
    }
  }

  /** The outputs a mode gives for everything fed to it. */
  ghost predicate Answers(m: Mode, taps: seq<real>, input: seq<real>, outs: seq<real>)
    requires Usable(m)
  {
    match m
    case Identity => outs == input
    case Integer(factor) => outs == Decimated(Filtered(taps, input), factor)
    case Fractional(ratio) => Resampled(Filtered(taps, input), ratio, outs)
  }

  /** The outputs depend on what was fed, not on how it was cut into calls. */
  lemma AnswersUnique(m: Mode, taps: seq<real>, input: seq<real>, a: seq<real>, b: seq<real>)
    requires Usable(m) && Answers(m, taps, input, a) && Answers(m, taps, input, b)
    ensures a == b
  {
    if m.Fractional? {
      ResampledUnique(Filtered(taps, input), m.ratio, a, b);
    }
  }

  /** An upper bound on how many steps of `r` fit into `a`. */
  ghost function Rounds(a: real, r: real): nat
    requires r > 0.0
  {
    if a > 0.0 then
      QuotientPositive(a, r);
      (a / r).Floor + 1
    else 0
  }

  lemma QuotientPositive(a: real, r: real)
    requires a > 0.0 && r > 0.0
    ensures a / r > 0.0
  {
  }

  lemma QuotientIs(x: real, r: real, z: real)
    requires r > 0.0 && z * r == x
    ensures x / r == z
  {
    var w := x / r;
    assert w * r == x;
    assert (w - z) * r == 0.0;
    if w - z > 0.0 {
      Positive(w - z, r);
    } else if z - w > 0.0 {
      Positive(z - w, r);
      assert (z - w) * r == -((w - z) * r);
    }
  }

  lemma Positive(x: real, r: real)
    requires x > 0.0 && r > 0.0
    ensures x * r > 0.0
  {
  }

  lemma RoundsDrop(a: real, r: real)
    requires a > 0.0 && r > 0.0
    ensures Rounds(a - r, r) < Rounds(a, r)
  {
    var q := a / r;
    assert q * r == a;
    assert (q - 1.0) * r == a - r;
    QuotientIs(a - r, r, q - 1.0);
    QuotientPositive(a, r);
  }

  class StreamResampler {
    const mode: Mode
    const fir: Fir
    var leftover: seq<real>
    var phase: real
    /** Everything fed in and given out so far, and how many filtered samples have left
        `leftover`. */
    ghost var fed: seq<real>
    ghost var outs: seq<real>
    ghost var base: nat

    ghost predicate Valid()
      reads this, fir, fir.buf
    {
      && Usable(mode) && fir.Valid()
      && Answers(mode, fir.taps, fed, outs)
      && (!mode.Identity? ==> fir.hist == fed)
      && (mode.Integer? ==> leftover == Rest(Filtered(fir.taps, fed), mode.factor))
      && (mode.Fractional? ==> Carries(Filtered(fir.taps, fed), mode.ratio, leftover, phase, base, |outs|))
    }

    constructor (inRate: nat, outRate: nat, taps: seq<real>)
      requires taps != []
      ensures Valid() && fed == [] && outs == [] && mode == ModeOf(inRate, outRate)
      ensures fir.taps == taps && fresh(fir) && fresh(fir.buf)
    {
      mode := ModeOf(inRate, outRate);
      fir := new Fir(taps);
      leftover, phase := [], 0.0;
      fed, outs, base := [], [], 0;
      new;
      ModesAreUsable(inRate, outRate);
    }

    /** Resamples the next samples. However the input is cut into calls, all outputs together
        are the answer to all inputs together. */
    method Push(input: seq<real>) returns (out: seq<real>)
      requires Valid()
      modifies this, fir, fir.buf
      ensures Valid() && fed == old(fed) + input && outs == old(outs) + out
    {
      if input == [] {
        assert fed + input == fed && outs + [] == outs;
        return [];
      }
      match mode
      case Identity =>
        fed, outs := fed + input, outs + input;
        out := input;
      case Integer(factor) => out := PushInteger(input, factor);
      case Fractional(ratio) => out := PushFractional(input, ratio);
    }

    method PushInteger(input: seq<real>, factor: nat) returns (out: seq<real>)
      requires Valid() && mode == Integer(factor)
      modifies this, fir, fir.buf
      ensures Valid() && fed == old(fed) + input && outs == old(outs) + out
    {
      out := [];
      for i := 0 to |input|
        invariant Valid() && fed == old(fed) + input[..i] && outs == old(outs) + out
      {
        var ys := GroupOne(input[i], factor);
        out := out + ys;
      }
      assert input[..|input|] == input;
    }

    /** Filters one sample; a complete group yields its middle. */
    method GroupOne(x: real, factor: nat) returns (out: seq<real>)
      requires Valid() && mode == Integer(factor)
      modifies this, fir, fir.buf
      ensures Valid() && fed == old(fed) + [x] && outs == old(outs) + out
    {
      FilteredSnoc(fir.taps, fed, x);
      ghost var before := Filtered(fir.taps, fed);
      var y := fir.Push(x);
      DecimatedSnoc(before, y, factor);
      leftover := leftover + [y];
      out := [];
      if |leftover| >= factor {
        out := [leftover[factor / 2]];
        leftover := [];
      }
      outs := outs + out;
      fed := fed + [x];
    }

    /** Filters the samples and appends them to what was left over. */
    method Refill(input: seq<real>)
      requires fir.Valid() && fir.hist == fed
      requires base <= |Filtered(fir.taps, fed)| && leftover == Filtered(fir.taps, fed)[base..]
      modifies `leftover, `fed, fir, fir.buf
      ensures fir.Valid() && fir.hist == fed == old(fed) + input
      ensures Filtered(fir.taps, old(fed)) <= Filtered(fir.taps, fed)
      ensures leftover == Filtered(fir.taps, fed)[base..]
    {
      for i := 0 to |input|
        invariant fir.Valid() && fir.hist == fed == old(fed) + input[..i]
        invariant Refilled(fir.taps, old(fed), fed, base, leftover)
      {
        RefillOne(fir.taps, old(fed), fed, base, leftover, input[i]);
        var y := fir.Push(input[i]);
        leftover := leftover + [y];
        fed := fed + [input[i]];
      }
      assert input[..|input|] == input;
    }

    method PushFractional(input: seq<real>, ratio: real) returns (out: seq<real>)
      requires Valid() && mode == Fractional(ratio)
      modifies this, fir, fir.buf
      ensures Valid() && fed == old(fed) + input && outs == old(outs) + out
    {
      ghost var ys0 := Filtered(fir.taps, fed);
      Refill(input);
      ghost var ys := Filtered(fir.taps, fed);
      Grown(ys0, ys, ratio, outs);
      if |leftover| < 2 {
        TooFew(ys, ratio, leftover, phase, base, outs);
        return [];
      }
      out := Emit(ratio, ys);
      DropUsed(ratio, ys);
    }

    /** All outputs whose neighbours have arrived. */
    method Emit(ratio: real, ghost ys: seq<real>) returns (out: seq<real>)
      requires ratio > 0.0 && Carries(ys, ratio, leftover, phase, base, |outs|) && AllOutputs(ys, ratio, outs)
      modifies `phase, `outs
      ensures outs == old(outs) + out && Resampled(ys, ratio, outs)
      ensures Carries(ys, ratio, leftover, phase, base, |outs|)
    {
      out := [];
      while true
        invariant AllOutputs(ys, ratio, outs) && outs == old(outs) + out
        invariant Carries(ys, ratio, leftover, phase, base, |outs|)
        decreases Rounds(|leftover| as real - phase, ratio)
      {
        var i0 := phase.Floor;
        var i1 := i0 + 1;
        if i1 >= |leftover| {
          break;
        }
        var frac := phase - i0 as real;
        var a, b := leftover[i0], leftover[i1];
        RoundsDrop(|leftover| as real - phase, ratio);
        NextOutput(ys, ratio, outs, a + (b - a) * frac, base, phase);
        out, outs := out + [a + (b - a) * frac], outs + [a + (b - a) * frac];
        phase := phase + ratio;
      }
    }

    /** Samples before the next position are no longer needed. */
    method DropUsed(ratio: real, ghost ys: seq<real>)
      requires Carries(ys, ratio, leftover, phase, base, |outs|)
      modifies `leftover, `phase, `base
      ensures Carries(ys, ratio, leftover, phase, base, |outs|)
    {
      var consumed := phase.Floor;
      if consumed > 0 {
        var drain := if consumed < |leftover| then consumed else |leftover|;
        leftover := leftover[drain..];
        phase := phase - drain as real;
        base := base + drain;
      }
    }
  }

  ghost predicate AllOutputs(ys: seq<real>, ratio: real, outs: seq<real>) {
    forall k: nat {:trigger OutputAt(ys, ratio, outs, k)} :: k < |outs| ==> OutputAt(ys, ratio, outs, k)
  }

  /** What is carried from call to call: the filtered samples from `base` on, and how far
      beyond `base` the next output lies. */
  ghost predicate Carries(ys: seq<real>, ratio: real, leftover: seq<real>, phase: real, base: nat, made: nat) {
    base <= |ys| && leftover == ys[base..] && phase >= 0.0 && phase + base as real == Pos(made, ratio)
  }

  /** The filtered samples begin as before, and those from `base` on are left over. */
  ghost predicate Refilled(taps: seq<real>, before: seq<real>, fed: seq<real>, base: nat, leftover: seq<real>) {
    var ys := Filtered(taps, fed);
    Filtered(taps, before) <= ys && base <= |ys| && leftover == ys[base..]
  }

  lemma RefillOne(taps: seq<real>, before: seq<real>, fed: seq<real>, base: nat, leftover: seq<real>, x: real)
    requires Refilled(taps, before, fed, base, leftover)
    ensures Refilled(taps, before, fed + [x], base, leftover + [FilterOut(taps, fed + [x])])
  {
    FilteredSnoc(taps, fed, x);
  }

  lemma TooFew(ys: seq<real>, ratio: real, leftover: seq<real>, phase: real, base: nat, outs: seq<real>)
    requires Carries(ys, ratio, leftover, phase, base, |outs|) && AllOutputs(ys, ratio, outs) && |leftover| < 2
    ensures Resampled(ys, ratio, outs) && outs + [] == outs
  {
  }

  lemma FilteredSnoc(taps: seq<real>, xs: seq<real>, x: real)
    ensures Filtered(taps, xs + [x]) == Filtered(taps, xs) + [FilterOut(taps, xs + [x])]
  {
    assert (xs + [x])[..|xs + [x]| - 1] == xs;
  }

  lemma Grown(ys0: seq<real>, ys: seq<real>, ratio: real, outs: seq<real>)
    requires Resampled(ys0, ratio, outs) && ys0 <= ys
    ensures AllOutputs(ys, ratio, outs)
  {
    forall k: nat | k < |outs| ensures OutputAt(ys, ratio, outs, k) {
      assert OutputAt(ys0, ratio, outs, k);
      OutputStays(ys0, ys[|ys0|..], ratio, outs, k);
      assert ys0 + ys[|ys0|..] == ys;
    }
  }

  lemma NextOutput(ys: seq<real>, ratio: real, outs: seq<real>, y: real, base: nat, phase: real)
    requires AllOutputs(ys, ratio, outs) && phase >= 0.0 && phase + base as real == Pos(|outs|, ratio)
    requires base + phase.Floor + 1 < |ys|
    requires var a, b := ys[base + phase.Floor], ys[base + phase.Floor + 1];
      y == a + (b - a) * (phase - phase.Floor as real)
    ensures AllOutputs(ys, ratio, outs + [y])
  {
    var outs' := outs + [y];
    var p := Pos(|outs|, ratio);
    assert p.Floor == base + phase.Floor;
    forall k: nat | k < |outs'| ensures OutputAt(ys, ratio, outs', k) {
      if k < |outs| {
        assert OutputAt(ys, ratio, outs, k);
      }
    }
  }

  /** Each filtered sample is zero while the window fills, then the dot product of the taps
      with the last n inputs. */
  lemma {:induction false} FilterIsSlidingDot(taps: seq<real>, xs: seq<real>, k: nat)
    requires k < |xs|
    ensures Filtered(taps, xs)[k]
         == if k + 1 < |taps| then 0.0 else Dot(xs[k + 1 - |taps|..k + 1], taps, |taps|)
  {
    var h := xs[..k + 1];
    FilteredPrefix(taps, xs, k + 1);
    assert Filtered(taps, xs)[k] == Filtered(taps, h)[k];
    assert h[..|h| - 1] == xs[..k];
    if k + 1 >= |taps| {
      WindowIsLastSamples(h, |taps|);
      assert h[|h| - |taps|..] == xs[k + 1 - |taps|..k + 1];
    }
  }

  /** Two resamplers of one kind that were fed the same samples, in whatever pieces, have
      given out the same samples. */
  lemma {:induction false} PiecesDoNotMatter(a: StreamResampler, b: StreamResampler)
    requires a.Valid() && b.Valid() && a.mode == b.mode && a.fir.taps == b.fir.taps
    requires a.fed == b.fed
    ensures a.outs == b.outs
  {
    AnswersUnique(a.mode, a.fir.taps, a.fed, a.outs, b.outs);
  }
}
