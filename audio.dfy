/**
 * fastdub/audio.py: audio clips and their concatenation, the cascade of
 * `atempo` stages a speed ratio is split into, `speed_change`, and `fit`,
 * which places one synthesized clip into its subtitle's time window.
 *
 * Durations are exact reals in milliseconds. The time-stretch itself is
 * opaque: a stretched clip remembers what it was made from and by which
 * ratio, and an ideal stretch by `ratio` divides the duration by `ratio`.
 */
module Audio {
  import opened Wrappers

  type PosReal = r: real | r > 0.0 witness 1.0
  type NonNegReal = r: real | r >= 0.0

  /** A piece of sample data: silence, synthesized speech, or a time-stretched sequence of pieces. */
  datatype Chunk =
    | Silence(ms: NonNegReal)
    | Speech(key: string, ms: NonNegReal)
    | Stretched(source: seq<Chunk>, ratio: PosReal)

  /** An `AudioSegment`: its sample data, in order. */
  datatype Clip = Clip(chunks: seq<Chunk>)

  datatype AudioError =
    | NonPositiveSpeed(ratio: real)  // ValueError raised by speed_change
    | MathDomain(ratio: real)        // ValueError raised by math.log
    | ZeroDivision                   // ZeroDivisionError of a float division

  /** Duration measured from the sample data, as `duration_ms` is. */
  function ChunksDuration(cs: seq<Chunk>): (d: real)
    ensures d >= 0.0
    decreases cs
  {
    if cs == [] then 0.0
    else
      var head := match cs[0]
        case Silence(ms) => ms
        case Speech(_, ms) => ms
        case Stretched(source, ratio) => ChunksDuration(source) / ratio;
      head + ChunksDuration(cs[1..])
  }

  function Duration(c: Clip): real {
    ChunksDuration(c.chunks)
  }

  lemma {:induction false} ChunksDurationConcat(a: seq<Chunk>, b: seq<Chunk>)
    ensures ChunksDuration(a + b) == ChunksDuration(a) + ChunksDuration(b)
    decreases |a|
  {
    if a == [] {
      assert a + b == b;
    } else {
      assert (a + b)[0] == a[0];
      assert (a + b)[1..] == a[1..] + b;
      ChunksDurationConcat(a[1..], b);
    }
  }

  lemma OneChunkDuration(c: Chunk)
    ensures ChunksDuration([c]) == match c
      case Silence(ms) => ms
      case Speech(_, ms) => ms
      case Stretched(source, ratio) => ChunksDuration(source) / ratio
  {
    assert [c][1..] == [];
  }

  /** `AudioSegment.append` / `+`: the two sample buffers joined with no cross-fade. */
  function Append(a: Clip, b: Clip): (r: Clip)
    ensures Duration(r) == Duration(a) + Duration(b)
    ensures |r.chunks| == |a.chunks| + |b.chunks|
    ensures r.chunks[..|a.chunks|] == a.chunks && r.chunks[|a.chunks|..] == b.chunks
  {
    ChunksDurationConcat(a.chunks, b.chunks);
    Clip(a.chunks + b.chunks)
  }

  /** `AudioSegment.empty()` */
  function Empty(): (r: Clip)
    ensures Duration(r) == 0.0
  {
    Clip([])
  }

  /** `AudioSegment.silent(ms)`: a negative length gives no frames at all. */
  function Silent(ms: real): (r: Clip)
    ensures Duration(r) == if ms > 0.0 then ms else 0.0
  {
    OneChunkDuration(Silence(if ms > 0.0 then ms else 0.0));
    Clip([Silence(if ms > 0.0 then ms else 0.0)])
  }

  function SumDurations(cs: seq<Clip>): real {
    if cs == [] then 0.0 else SumDurations(cs[..|cs| - 1]) + Duration(cs[|cs| - 1])
  }

  /** Joining clips one after another, as `audio += fit` in a loop or ffmpeg's concat demuxer does. */
  function Concat(cs: seq<Clip>): (r: Clip)
    ensures Duration(r) == SumDurations(cs)
  {
    if cs == [] then Empty() else Append(Concat(cs[..|cs| - 1]), cs[|cs| - 1])
  }

  // ---------------------------------------------------------------------
  // calc_speed_change_ffmpeg_arg

  function Pow(b: real, n: nat): real {
    if n == 0 then 1.0 else b * Pow(b, n - 1)
  }

  /** One `atempo` stage. Its factor is radicand^(1/degree): `atempo=r`, `atempo=sqrt(r)` or `atempo=r^(1/p)`. */
  datatype Stage = Stage(radicand: real, degree: nat)

  /** The stage's factor lies in [0.5, 100], the only ratios one `atempo` accepts. */
  predicate InAtempoRange(st: Stage) {
    st.degree >= 1 && Pow(0.5, st.degree) <= st.radicand <= Pow(100.0, st.degree)
  }

  /** `n` equal stages ratio^(1/n): their product is exactly `ratio`. */
  predicate EqualRootsOf(stages: seq<Stage>, ratio: real) {
    forall i :: 0 <= i < |stages| ==> stages[i] == Stage(ratio, |stages|)
  }

  lemma {:induction false} PowGrowth(b: real, n: nat)
    requires b >= 2.0
    ensures Pow(b, n) >= (n + 1) as real
    decreases n
  {
    if n > 0 { PowGrowth(b, n - 1); }
  }

  lemma {:induction false} PowAtLeastOne(b: real, n: nat)
    requires b >= 1.0
    ensures Pow(b, n) >= 1.0
    decreases n
  {
    if n > 0 { PowAtLeastOne(b, n - 1); }
  }

  lemma {:induction false} PowHalfOfPowTwo(n: nat)
    ensures Pow(0.5, n) * Pow(2.0, n) == 1.0
    ensures 0.0 < Pow(0.5, n) <= 1.0
    decreases n
  {
    if n > 0 {
      PowHalfOfPowTwo(n - 1);
      calc {
        Pow(0.5, n) * Pow(2.0, n);
        (0.5 * Pow(0.5, n - 1)) * (2.0 * Pow(2.0, n - 1));
        Pow(0.5, n - 1) * Pow(2.0, n - 1);
      }
    }
  }

  /** The least `k >= n` with b^k >= x: `ceil(log(x, b))` when started from 0. */
  function LeastPower(b: real, x: real, n: nat): (k: nat)
    requires b >= 2.0
    ensures k >= n && Pow(b, k) >= x
    ensures forall j :: n <= j < k ==> Pow(b, j) < x
    decreases x.Floor - n
  {
    if Pow(b, n) >= x then n
    else
      PowGrowth(b, n);
      LeastPower(b, x, n + 1)
  }

  /**
   * `calc_speed_change_ffmpeg_arg`: the chain of `atempo` stages for a ratio.
   * Whatever the ratio, the stages are equal roots of it (so their product is
   * the ratio) and each lies in atempo's range.
   */
  function SpeedStages(ratio: real): (r: Result<seq<Stage>, AudioError>)
    ensures r.Err? <==> ratio <= 0.0
    ensures r.Ok? ==> |r.value| >= 1 && EqualRootsOf(r.value, ratio)
    ensures r.Ok? ==> forall i :: 0 <= i < |r.value| ==> InAtempoRange(r.value[i])
  {
    if 0.5 <= ratio <= 100.0 then
      Ok([Stage(ratio, 1)])
    else if 0.25 <= ratio <= 10000.0 then
      Ok([Stage(ratio, 2), Stage(ratio, 2)])
    else if ratio <= 0.0 then
      Err(MathDomain(ratio))
    else
      var power := CascadePower(ratio);
      Ok(seq(power, _ => Stage(ratio, power)))
  }

  /**
   * `math.ceil(math.log(ratio, base))` with base 0.5 below 0.5 and 100 above:
   * the least p with 0.5^p <= ratio (that is, 2^p >= 1/ratio), or the least p
   * with 100^p >= ratio.
   */
  function CascadePower(ratio: real): (p: nat)
    requires 0.0 < ratio && !(0.25 <= ratio <= 10000.0)
    ensures p >= 3
    ensures InAtempoRange(Stage(ratio, p))
    ensures ratio < 0.5 ==> Pow(2.0, p - 1) < 1.0 / ratio
    ensures ratio > 100.0 ==> Pow(100.0, p - 1) < ratio
  {
    if ratio < 0.5 then
      var p := LeastPower(2.0, 1.0 / ratio, 0);
      PowHalfOfPowTwo(p);
      PowAtLeastOne(100.0, p);
      assert Pow(2.0, 2) == 4.0;
      assert p >= 3 by {
        if p < 3 {
          ReciprocalOfSmall(ratio);
          PowTwoMonotone(p, 2);
        }
      }
      assert Pow(0.5, p) <= ratio by {
        assert Pow(2.0, p) * ratio >= 1.0;
        assert Pow(0.5, p) * (Pow(2.0, p) * ratio) == ratio;
      }
      p
    else
      var p := LeastPower(100.0, ratio, 0);
      PowHalfOfPowTwo(p);
      assert Pow(100.0, 2) == 10000.0;
      assert p >= 3 by {
        if p < 3 { PowMonotone(100.0, p, 2); }
      }
      p
  }

  /** Below a quarter, the reciprocal exceeds four. */
  lemma ReciprocalOfSmall(r: real)
    requires 0.0 < r < 0.25
    ensures 1.0 / r > 4.0
  {
    var q := 1.0 / r;
    assert q * r == 1.0 && 4.0 * r < 1.0;
  }

  lemma {:induction false} PowMonotone(b: real, j: nat, k: nat)
    requires b >= 1.0 && j <= k
    ensures Pow(b, j) <= Pow(b, k)
    decreases k
  {
    if j < k {
      PowMonotone(b, j, k - 1);
      PowAtLeastOne(b, k - 1);
    }
  }

  lemma MulStrict(a: real, b: real, c: real)
    requires a < b && c > 0.0
    ensures a * c < b * c && c * a < c * b
  {
  }

  lemma PowTwoMonotone(j: nat, k: nat)
    requires j <= k
    ensures Pow(2.0, j) <= Pow(2.0, k)
  {
    PowMonotone(2.0, j, k);
  }

  /** A ratio in [0.5, 100] is one stage, the ratio itself. */
  lemma SpeedStagesSingle(ratio: real)
    requires 0.5 <= ratio <= 100.0
    ensures SpeedStages(ratio) == Ok([Stage(ratio, 1)])
  {
  }

  /** A ratio in [0.25, 10000] outside [0.5, 100] is two stages of sqrt(ratio). */
  lemma SpeedStagesTwo(ratio: real)
    requires 0.25 <= ratio <= 10000.0 && !(0.5 <= ratio <= 100.0)
    ensures SpeedStages(ratio) == Ok([Stage(ratio, 2), Stage(ratio, 2)])
  {
  }

  /**
   * Any other positive ratio is p >= 3 equal stages, p = ceil(log_base ratio):
   * 100^(p-1) < ratio <= 100^p above the range, 0.5^p <= ratio < 0.5^(p-1) below it.
   */
  lemma SpeedStagesCascade(ratio: real)
    requires 0.0 < ratio && !(0.25 <= ratio <= 10000.0)
    ensures SpeedStages(ratio).Ok?
    ensures var p := |SpeedStages(ratio).value|;
      && p >= 3
      && (ratio > 10000.0 ==> Pow(100.0, p - 1) < ratio <= Pow(100.0, p))
      && (ratio < 0.25 ==> Pow(0.5, p) <= ratio < Pow(0.5, p - 1))
  {
    var p := CascadePower(ratio);
    if ratio > 10000.0 {
      assert Pow(100.0, p - 1) < ratio;
    } else {
      PowHalfOfPowTwo(p - 1);
      BelowReciprocal(ratio, Pow(2.0, p - 1), Pow(0.5, p - 1));
    }
  }

  /** A ratio whose reciprocal exceeds `two` lies below the reciprocal `half` of `two`. */
  lemma BelowReciprocal(ratio: real, two: real, half: real)
    requires ratio > 0.0 && two < 1.0 / ratio && half * two == 1.0 && half > 0.0
    ensures ratio < half
  {
    var q := 1.0 / ratio;
    assert ratio * q == 1.0;
    MulStrict(two, q, ratio);
    assert ratio * two < ratio * q;
    MulStrict(ratio * two, 1.0, half);
    assert ratio * (two * half) < half;
  }

  // ---------------------------------------------------------------------
  // speed_change and fit

  /**
   * `speed_change`: ratio exactly 1 gives the clip back untouched (a value
   * has no identity, so "the same object" and "a copy" coincide), a ratio
   * <= 0 is a ValueError, anything else runs the stage chain, which stretches
   * by the product of its stages, the ratio.
   */
  function SpeedChange(clip: Clip, ratio: real): (r: Result<Clip, AudioError>)
    ensures ratio == 1.0 ==> r == Ok(clip)
    ensures r.Err? <==> ratio <= 0.0
    ensures r.Ok? ==> Duration(r.value) * ratio == Duration(clip)
  {
    if ratio == 1.0 then Ok(clip)
    else if ratio <= 0.0 then Err(NonPositiveSpeed(ratio))
    else
      assert SpeedStages(ratio).Ok?;
      OneChunkDuration(Stretched(clip.chunks, ratio));
      Ok(Clip([Stretched(clip.chunks, ratio)]))
  }

  /**
   * `fit(audio, left_border, need_duration, right_border, align)`. The window
   * is free = left + need + right. A clip longer than free is sped up by
   * duration/free; then the leading silence is (free - duration)/align when
   * the clip runs past need + right, and left_border otherwise.
   */
  function Fit(clip: Clip, left: real, need: real, right: real, align: real): Result<Clip, AudioError> {
    var free := left + need + right;
    var d := Duration(clip);
    var squeezed :=
      if d > free then (if free == 0.0 then Err(ZeroDivision) else SpeedChange(clip, d / free))
      else Ok(clip);
    match squeezed
    case Err(e) => Err(e)
    case Ok(a) =>
      var ad := Duration(a);
      if ad > need + right then
        if align == 0.0 then Err(ZeroDivision) else Ok(Append(Silent((free - ad) / align), a))
      else Ok(Append(Silent(left), a))
  }

  /** A clip no longer than its window (free) is never sped up: the result ends with the clip itself. */
  lemma FitNeverSqueezesWhatFits(clip: Clip, left: real, need: real, right: real, align: real)
    requires Duration(clip) <= left + need + right
    requires align != 0.0
    ensures Fit(clip, left, need, right, align).Ok?
    ensures var r := Fit(clip, left, need, right, align).value;
      |r.chunks| == 1 + |clip.chunks| && r.chunks[1..] == clip.chunks
  {
  }

  /**
   * A clip that fits within need + right (and the window) starts exactly
   * left_border after the previous one: the result is left + clip long.
   */
  lemma FitKeepsLeftBorder(clip: Clip, left: real, need: real, right: real, align: real)
    requires Duration(clip) <= need + right && 0.0 <= left
    ensures Fit(clip, left, need, right, align) == Ok(Append(Silent(left), clip))
    ensures Duration(Fit(clip, left, need, right, align).value) == left + Duration(clip)
  {
  }

  /**
   * A clip that spills past need + right but still fits in free gets
   * (free - duration)/align of silence: with align 1 it ends exactly at free,
   * and for align >= 1 its lead-in is shorter than left_border.
   */
  lemma FitSpillsIntoLeftGap(clip: Clip, left: real, need: real, right: real, align: real)
    requires need + right < Duration(clip) <= left + need + right
    requires align >= 1.0
    ensures Fit(clip, left, need, right, align)
         == Ok(Append(Silent((left + need + right - Duration(clip)) / align), clip))
    ensures (left + need + right - Duration(clip)) / align < left
    ensures align == 1.0 ==> Duration(Fit(clip, left, need, right, align).value) == left + need + right
  {
    var slack := left + need + right - Duration(clip);
    assert 0.0 <= slack < left;
    assert slack / align <= slack by {
      assert slack / align * align == slack;
    }
  }

  /**
   * A clip longer than a positive window is sped up by duration/free and
   * comes out exactly free long (ZeroDivisionError only if align is 0 and
   * the left border is positive).
   */
  lemma FitSqueezesToWindow(clip: Clip, left: real, need: real, right: real, align: real)
    requires Duration(clip) > left + need + right > 0.0
    requires align != 0.0 || left <= 0.0
    ensures Fit(clip, left, need, right, align).Ok?
    ensures Duration(Fit(clip, left, need, right, align).value) == left + need + right
  {
    var free := left + need + right;
    var d := Duration(clip);
    var s := SpeedChange(clip, d / free);
    assert Duration(s.value) * (d / free) == d;
    assert Duration(s.value) == free by {
      assert (d / free) * free == d;
    }
  }

  /** A clip longer than a window that is not positive cannot be sped up: fit raises. */
  lemma FitFailsOnNonPositiveWindow(clip: Clip, left: real, need: real, right: real, align: real)
    requires Duration(clip) > left + need + right && left + need + right <= 0.0
    ensures Fit(clip, left, need, right, align).Err?
  {
    var free := left + need + right;
    if free < 0.0 {
      assert Duration(clip) / free <= 0.0;
    }
  }

  /**
   * With align >= 1 and a window (free) of positive length, fit never fails
   * and the fitted clip never runs past the window.
   */
  lemma FitWithinWindow(clip: Clip, left: real, need: real, right: real, align: real)
    requires left + need + right > 0.0 && align >= 1.0
    ensures Fit(clip, left, need, right, align).Ok?
    ensures Duration(Fit(clip, left, need, right, align).value) <= left + need + right
  {
    var free := left + need + right;
    var d := Duration(clip);
    if d > free {
      FitSqueezesToWindow(clip, left, need, right, align);
    } else if d > need + right {
      FitSpillsIntoLeftGap(clip, left, need, right, align);
      ShrinkByAtLeastOne(free - d, align);
    }
  }

  /** Dividing a non-negative length by at least one never lengthens it. */
  lemma ShrinkByAtLeastOne(x: real, a: real)
    requires x >= 0.0 && a >= 1.0
    ensures x / a <= x
  {
    var q := x / a;
    assert q * a == x;
    assert q >= 0.0;
    assert q * a - q == q * (a - 1.0);
    assert q * (a - 1.0) >= 0.0;
  }

  /**
   * The `-af calc_speed_change_ffmpeg_arg(ratio)` filter run over a whole
   * track: the stage chain (`SpeedStages`) stretches by the ratio, and a
   * ratio <= 0 fails in `math.log` just as the chain does.
   */
  function StretchByStages(clip: Clip, ratio: real): (r: Result<Clip, AudioError>)
    ensures r.Err? <==> ratio <= 0.0
    ensures r.Err? ==> r.error == MathDomain(ratio)
    ensures r.Ok? ==> Duration(r.value) * ratio == Duration(clip)
  {
    if ratio <= 0.0 then Err(MathDomain(ratio))
    else
      assert SpeedStages(ratio).Ok?;
      OneChunkDuration(Stretched(clip.chunks, ratio));
      Ok(Clip([Stretched(clip.chunks, ratio)]))
  }

  /** The filter fails exactly when its stage chain cannot be built, with the same error. */
  lemma StretchFailsWithItsStages(clip: Clip, ratio: real)
    ensures StretchByStages(clip, ratio).Err? <==> SpeedStages(ratio).Err?
    ensures StretchByStages(clip, ratio).Err? ==> StretchByStages(clip, ratio).error == SpeedStages(ratio).error
  {
  }
}
