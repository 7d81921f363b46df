/**
 * The fitting loop shared by both dubbers (fastdub/dubber.py and
 * FastDub/Dubber.py): line after line, the voiced clip is fitted between
 * the line's start, measured from where the audio placed so far ends, and
 * the next line's start, and the position moves on by the fitted clip's
 * duration. The two dubbers differ only in the right border of the last line.
 */
module Placement {
  import opened Wrappers
  import opened Audio

  /** A subtitle's window in milliseconds. */
  datatype Slot = Slot(start: real, end: real)

  /** The right border of line `i`: the gap to the next line's start, or `lastRight` for the last line. */
  function RightBorder(slots: seq<Slot>, lastRight: real, i: nat): real
    requires i < |slots|
  {
    if i + 1 < |slots| then slots[i + 1].start - slots[i].end else lastRight
  }

  /** Where line `i`'s window closes: the next line's start, or the last end plus `lastRight`. */
  function WindowEnd(slots: seq<Slot>, lastRight: real, i: nat): (e: real)
    requires i < |slots|
    ensures i + 1 < |slots| ==> e == slots[i + 1].start
  {
    slots[i].end + RightBorder(slots, lastRight, i)
  }

  /**
   * `fit(clip, start - total, duration, right, align)` for line `i` when the
   * audio placed so far is `total` long.
   */
  function FitLine(slots: seq<Slot>, clips: seq<Clip>, lastRight: real, align: real, i: nat, total: real)
    : Result<Clip, AudioError>
    requires |clips| == |slots| && i < |slots|
  {
    Fit(clips[i], slots[i].start - total, slots[i].end - slots[i].start, RightBorder(slots, lastRight, i), align)
  }

  /** The window `fit` is given for line `i` runs from `total` to the line's window end. */
  lemma FitLineWindow(slots: seq<Slot>, lastRight: real, i: nat, total: real)
    requires i < |slots|
    ensures (slots[i].start - total) + (slots[i].end - slots[i].start) + RightBorder(slots, lastRight, i)
         == WindowEnd(slots, lastRight, i) - total
  {
  }

  /** A per-line fit: the clip line `i` gets when the audio placed so far is `total` long. */
  type LineFit = (nat, real) -> Result<Clip, AudioError>

  /**
   * The fitted clips of lines `i..n-1`, the first failing fit ending the run;
   * each line is fitted against the audio placed before it.
   */
  function Run(fit: LineFit, n: nat, i: nat, total: real): (r: Result<seq<Clip>, AudioError>)
    requires i <= n
    ensures r.Ok? ==> |r.value| == n - i
    decreases n - i
  {
    if i == n then Ok([])
    else
      match fit(i, total)
      case Err(e) => Err(e)
      case Ok(a) =>
        match Run(fit, n, i + 1, total + Duration(a))
        case Err(e) => Err(e)
        case Ok(rest) => Ok([a] + rest)
  }

  /** `fit` of `dub_one`, line by line, over the subtitle windows. */
  function LineFitOf(slots: seq<Slot>, clips: seq<Clip>, lastRight: real, align: real): LineFit
    requires |clips| == |slots|
  {
    (i: nat, total: real) =>
      if i < |slots| then FitLine(slots, clips, lastRight, align, i, total) else Ok(Empty())
  }

  /** The fitted clips of lines `i..` of a transcript. */
  function FitFrom(slots: seq<Slot>, clips: seq<Clip>, lastRight: real, align: real, i: nat, total: real)
    : (r: Result<seq<Clip>, AudioError>)
    requires |clips| == |slots| && i <= |slots|
    ensures r.Ok? ==> |r.value| == |slots| - i
  {
    Run(LineFitOf(slots, clips, lastRight, align), |slots|, i, total)
  }

  function Prepend(acc: seq<Clip>, r: Result<seq<Clip>, AudioError>): Result<seq<Clip>, AudioError> {
    match r
    case Err(e) => Err(e)
    case Ok(v) => Ok(acc + v)
  }

  /** One step of the loop: a failing fit ends the run, otherwise its clip goes after those placed so far. */
  lemma RunStep(fit: LineFit, n: nat, i: nat, total: real, acc: seq<Clip>)
    requires i < n
    ensures fit(i, total).Err? ==> Prepend(acc, Run(fit, n, i, total)) == Err(fit(i, total).error)
    ensures fit(i, total).Ok? ==>
      Prepend(acc, Run(fit, n, i, total))
        == Prepend(acc + [fit(i, total).value], Run(fit, n, i + 1, total + Duration(fit(i, total).value)))
  {
    var f := fit(i, total);
    if f.Ok? {
      var r := Run(fit, n, i + 1, total + Duration(f.value));
      if r.Ok? {
        assert acc + ([f.value] + r.value) == acc + [f.value] + r.value;
      }
    }
  }

  /**
   * The loop of `dub_one`: each line's clip is fitted against the audio
   * placed so far, and the position moves on by exactly the fitted clip's
   * duration. Returns the fitted clips and the total duration placed.
   */
  method FitAll(slots: seq<Slot>, clips: seq<Clip>, lastRight: real, align: real)
    returns (r: Result<seq<Clip>, AudioError>, total: real)
    requires |clips| == |slots|
    ensures r == FitFrom(slots, clips, lastRight, align, 0, 0.0)
    ensures r.Ok? ==> total == SumDurations(r.value)
  {
    r, total := RunLoop(LineFitOf(slots, clips, lastRight, align), |slots|);
  }

  /** The loop itself, for any per-line fit of `n` lines. */
  method RunLoop(fit: LineFit, n: nat) returns (r: Result<seq<Clip>, AudioError>, total: real)
    ensures r == Run(fit, n, 0, 0.0)
    ensures r.Ok? ==> total == SumDurations(r.value)
  {
    var parts: seq<Clip> := [];
    total := 0.0;
    var pos := 0;
    assert Run(fit, n, 0, 0.0) == Prepend([], Run(fit, n, 0, 0.0)) by {
      var w := Run(fit, n, 0, 0.0);
      if w.Ok? {
        assert [] + w.value == w.value;
      }
    }
    while pos < n
      invariant 0 <= pos <= n
      invariant Run(fit, n, 0, 0.0) == Prepend(parts, Run(fit, n, pos, total))
      invariant total == SumDurations(parts)
    {
      RunStep(fit, n, pos, total, parts);
      var newAudio := fit(pos, total);
      if newAudio.Err? {
        return Err(newAudio.error), total;
      }
      assert (parts + [newAudio.value])[..|parts|] == parts;
      parts := parts + [newAudio.value];
      total := total + Duration(newAudio.value);
      pos := pos + 1;
    }
    assert parts + [] == parts;
    r := Ok(parts);
  }

  // ---------------------------------------------------------------------
  // Properties of the fitting run

  lemma {:induction false} SumDurationsCons(a: Clip, cs: seq<Clip>)
    ensures SumDurations([a] + cs) == Duration(a) + SumDurations(cs)
    decreases |cs|
  {
    if cs != [] {
      var xs := [a] + cs;
      assert xs[..|xs| - 1] == [a] + cs[..|cs| - 1];
      SumDurationsCons(a, cs[..|cs| - 1]);
    } else {
      assert [a] + cs == [a];
      assert [a][..0] == [];
    }
  }

  /**
   * A run whose every fit is known in advance: if line `k`, placed after
   * `offsets[k]` of audio, gets `expected[k]` and the audio then reaches
   * `offsets[k + 1]`, the run yields exactly `expected[i..]`.
   */
  lemma {:induction false} RunAsPlanned(fit: LineFit, n: nat, i: nat, offsets: seq<real>, expected: seq<Clip>)
    requires i <= n && |offsets| == n + 1 && |expected| == n
    requires forall k :: i <= k < n ==> fit(k, offsets[k]) == Ok(expected[k])
    requires forall k :: i <= k < n ==> offsets[k] + Duration(expected[k]) == offsets[k + 1]
    ensures Run(fit, n, i, offsets[i]) == Ok(expected[i..])
    decreases n - i
  {
    if i < n {
      RunAsPlanned(fit, n, i + 1, offsets, expected);
      assert expected[i..] == [expected[i]] + expected[i + 1..];
    }
  }

  /**
   * A run whose fits each stay inside their window: if line `k`'s fit,
   * placed no later than `starts[k]`, succeeds and ends by `ends[k]`, and
   * each window closes by the next line's start, the run succeeds and the
   * first `k` placed clips end by `ends[i + k - 1]`.
   */
  lemma {:induction false} RunWithin(fit: LineFit, n: nat, i: nat, total: real, starts: seq<real>, ends: seq<real>)
    requires i <= n && |starts| == n && |ends| == n
    requires i < n ==> total <= starts[i]
    requires forall k, t :: i <= k < n && t <= starts[k] ==>
      fit(k, t).Ok? && t + Duration(fit(k, t).value) <= ends[k]
    requires forall k :: i <= k < n - 1 ==> ends[k] <= starts[k + 1]
    ensures Run(fit, n, i, total).Ok?
    ensures forall k :: 1 <= k <= |Run(fit, n, i, total).value| ==>
      total + SumDurations(Run(fit, n, i, total).value[..k]) <= ends[i + k - 1]
    decreases n - i
  {
    if i < n {
      var a := fit(i, total).value;
      var next := total + Duration(a);
      RunWithin(fit, n, i + 1, next, starts, ends);
      var rest := Run(fit, n, i + 1, next).value;
      var parts := Run(fit, n, i, total).value;
      assert parts == [a] + rest;
      forall k | 1 <= k <= |parts|
        ensures total + SumDurations(parts[..k]) <= ends[i + k - 1]
      {
        assert parts[..k] == [a] + rest[..k - 1];
        SumDurationsCons(a, rest[..k - 1]);
        if k == 1 {
          assert rest[..0] == [];
        } else {
          assert i + 1 + (k - 1) - 1 == i + k - 1;
        }
      }
    }
  }

  /**
   * Where the speech of line `k` starts when every line fits its window: at
   * its own start, after the previous line's speech has ended there.
   */
  function OnTimeOffset(slots: seq<Slot>, clips: seq<Clip>, k: nat): real
    requires |clips| == |slots| && k <= |slots|
  {
    if k == 0 then 0.0 else slots[k - 1].start + Duration(clips[k - 1])
  }

  /** The clip line `k` gets when it is heard at its start. */
  function OnTimeClip(slots: seq<Slot>, clips: seq<Clip>, k: nat): Clip
    requires |clips| == |slots| && k < |slots|
  {
    Append(Silent(slots[k].start - OnTimeOffset(slots, clips, k)), clips[k])
  }

  /** Every clip is no longer than the gap from its line's start to the close of its window. */
  ghost predicate AllFit(slots: seq<Slot>, clips: seq<Clip>, lastRight: real) {
    && |clips| == |slots|
    && (|slots| > 0 ==> 0.0 <= slots[0].start)
    && forall k {:trigger clips[k]} :: 0 <= k < |slots| ==> Duration(clips[k]) <= WindowEnd(slots, lastRight, k) - slots[k].start
  }

  /** One line that fits, placed no later than its start: silence up to the start, then the clip. */
  lemma FitLineOnTime(slots: seq<Slot>, clips: seq<Clip>, lastRight: real, align: real, i: nat, total: real)
    requires |clips| == |slots| && i < |slots|
    requires total <= slots[i].start
    requires Duration(clips[i]) <= WindowEnd(slots, lastRight, i) - slots[i].start
    ensures FitLine(slots, clips, lastRight, align, i, total)
         == Ok(Append(Silent(slots[i].start - total), clips[i]))
    ensures total + Duration(FitLine(slots, clips, lastRight, align, i, total).value)
         == slots[i].start + Duration(clips[i])
  {
    FitKeepsLeftBorder(clips[i], slots[i].start - total, slots[i].end - slots[i].start,
      RightBorder(slots, lastRight, i), align);
  }

  /** Each line, placed after the previous line's speech, gets its on-time clip. */
  lemma OnTimeSteps(slots: seq<Slot>, clips: seq<Clip>, lastRight: real, align: real,
                    offsets: seq<real>, expected: seq<Clip>)
    requires AllFit(slots, clips, lastRight)
    requires |offsets| == |slots| + 1 && forall k :: 0 <= k <= |slots| ==> offsets[k] == OnTimeOffset(slots, clips, k)
    requires |expected| == |slots| && forall k :: 0 <= k < |slots| ==> expected[k] == OnTimeClip(slots, clips, k)
    ensures forall k :: 0 <= k < |slots| ==> LineFitOf(slots, clips, lastRight, align)(k, offsets[k]) == Ok(expected[k])
    ensures forall k :: 0 <= k < |slots| ==> offsets[k] + Duration(expected[k]) == offsets[k + 1]
  {
    forall k | 0 <= k < |slots|
      ensures LineFitOf(slots, clips, lastRight, align)(k, offsets[k]) == Ok(expected[k])
      ensures offsets[k] + Duration(expected[k]) == offsets[k + 1]
    {
      assert offsets[k] <= slots[k].start by {
        if k > 0 {
          assert Duration(clips[k - 1]) <= WindowEnd(slots, lastRight, k - 1) - slots[k - 1].start;
        }
      }
      FitLineOnTime(slots, clips, lastRight, align, k, offsets[k]);
    }
  }

  /**
   * When every clip fits its window, fitting never fails and never speeds
   * anything up: line `k` gets silence from where line `k - 1`'s speech
   * ended up to its own start, then its clip, so every line is heard
   * exactly at its start.
   */
  lemma ClipsStartOnTime(slots: seq<Slot>, clips: seq<Clip>, lastRight: real, align: real)
    requires AllFit(slots, clips, lastRight)
    ensures FitFrom(slots, clips, lastRight, align, 0, 0.0)
         == Ok(seq(|slots|, k requires 0 <= k < |slots| => OnTimeClip(slots, clips, k)))
  {
    var offsets := seq(|slots| + 1, k requires 0 <= k <= |slots| => OnTimeOffset(slots, clips, k));
    var expected := seq(|slots|, k requires 0 <= k < |slots| => OnTimeClip(slots, clips, k));
    OnTimeSteps(slots, clips, lastRight, align, offsets, expected);
    RunAsPlanned(LineFitOf(slots, clips, lastRight, align), |slots|, 0, offsets, expected);
    assert expected[0..] == expected;
  }

  /** Every window is open after its line's start, and the first line does not start before zero. */
  ghost predicate OpenWindows(slots: seq<Slot>, lastRight: real) {
    && (|slots| > 0 ==> 0.0 <= slots[0].start)
    && forall k {:trigger WindowEnd(slots, lastRight, k)} :: 0 <= k < |slots| ==> slots[k].start < WindowEnd(slots, lastRight, k)
  }

  /** Each line's fit, placed no later than its start, succeeds and ends by the close of its window. */
  lemma FitsStayInWindows(slots: seq<Slot>, clips: seq<Clip>, lastRight: real, align: real,
                          starts: seq<real>, ends: seq<real>)
    requires |clips| == |slots| && align >= 1.0 && OpenWindows(slots, lastRight)
    requires |starts| == |slots| && forall k :: 0 <= k < |slots| ==> starts[k] == slots[k].start
    requires |ends| == |slots| && forall k :: 0 <= k < |slots| ==> ends[k] == WindowEnd(slots, lastRight, k)
    ensures forall k, t :: 0 <= k < |slots| && t <= starts[k] ==>
      LineFitOf(slots, clips, lastRight, align)(k, t).Ok?
      && t + Duration(LineFitOf(slots, clips, lastRight, align)(k, t).value) <= ends[k]
    ensures forall k :: 0 <= k < |slots| - 1 ==> ends[k] <= starts[k + 1]
  {
    forall k, t | 0 <= k < |slots| && t <= starts[k]
      ensures LineFitOf(slots, clips, lastRight, align)(k, t).Ok?
      ensures t + Duration(LineFitOf(slots, clips, lastRight, align)(k, t).value) <= ends[k]
    {
      assert WindowEnd(slots, lastRight, k) > slots[k].start;
      FitLineWindow(slots, lastRight, k, t);
      FitWithinWindow(clips[k], slots[k].start - t, slots[k].end - slots[k].start, RightBorder(slots, lastRight, k), align);
    }
  }

  /**
   * With align >= 1 and open windows, no fit fails and no line's audio runs
   * into the next line's start: once the first `k` fitted clips are placed,
   * the audio ends at or before the close of line `k - 1`'s window.
   */
  lemma NeverOverruns(slots: seq<Slot>, clips: seq<Clip>, lastRight: real, align: real)
    requires |clips| == |slots| && align >= 1.0 && OpenWindows(slots, lastRight)
    ensures FitFrom(slots, clips, lastRight, align, 0, 0.0).Ok?
    ensures var parts := FitFrom(slots, clips, lastRight, align, 0, 0.0).value;
      forall k :: 1 <= k <= |parts| ==> SumDurations(parts[..k]) <= WindowEnd(slots, lastRight, k - 1)
  {
    var starts := seq(|slots|, k requires 0 <= k < |slots| => slots[k].start);
    var ends := seq(|slots|, k requires 0 <= k < |slots| => WindowEnd(slots, lastRight, k));
    FitsStayInWindows(slots, clips, lastRight, align, starts, ends);
    RunWithin(LineFitOf(slots, clips, lastRight, align), |slots|, 0, 0.0, starts, ends);
  }
}
