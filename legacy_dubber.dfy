/**
 * FastDub/Dubber.py, the older dubber. It places the voiced lines the same
 * way as the newer one, with three differences kept apart here and compared
 * in lemmas at the end:
 *  - the default align is 1 (right-aligned), not 2;
 *  - the last line's right border is the video's end minus the last
 *    subtitle's end, possibly negative, and it exists only when there is a
 *    video;
 *  - the reconciliation is an `if`/`elif`: a sped-up track gets no lead-in.
 */
module LegacyDubbing {
  import opened Wrappers
  import opened Text
  import opened Audio
  import opened Paths
  import opened Placement
  import Subtitles
  import LegacySubtitles
  import Dubbing
  import Voicing

  const DefaultFitAlign: real := 1.0

  datatype LegacyError =
    | SubtitlePathMissing                             // `parse(None)`: os.path.isfile raises TypeError
    | ParseFailed(parseError: Subtitles.ParseError)
    | NoLines                                         // `subtitles[-1]` of an empty transcript: IndexError
    | VoiceFailed(voiceError: Voicing.VoiceError)     // UnknownVoice raised by `VOISER.voice`
    | RightBorderUnbound                              // the last line with no video: UnboundLocalError
    | AudioFailed(audioError: AudioError)
    | ExcludeIsNone                                   // `file in None`: TypeError

  /** The line windows, in real milliseconds. */
  function SlotsOf(subs: seq<LegacySubtitles.Line>): (r: seq<Slot>)
    ensures |r| == |subs|
    ensures forall i :: 0 <= i < |subs| ==> r[i] == Slot(subs[i].ms.start, subs[i].ms.end)
  {
    seq(|subs|, i requires 0 <= i < |subs| => Slot(subs[i].ms.start, subs[i].ms.end))
  }

  /** The texts `VOISER.voice` is called on, line by line. */
  function Texts(subs: seq<LegacySubtitles.Line>): (r: seq<string>)
    ensures |r| == |subs|
    ensures forall i :: 0 <= i < |subs| ==> r[i] == subs[i].text
  {
    seq(|subs|, i requires 0 <= i < |subs| => subs[i].text)
  }

  /**
   * `[self.VOISER.voice(line.text) for line in subtitles]`, `change_voice`
   * left at its default: the lines in order through the shared voicer,
   * ending at the first call that raises.
   */
  method VoiceLines(v: Voicing.LegacyVoicer, subs: seq<LegacySubtitles.Line>)
    returns (clips: seq<Clip>, failure: Option<Voicing.VoiceError>)
    requires v.Valid()
    modifies v
    ensures v.Valid()
    ensures Voicing.Voiced(v.State(), clips, failure) == Voicing.VoiceAll(v.Config(), old(v.State()), Texts(subs))
  {
    var texts := Texts(subs);
    ghost var start := v.State();
    Voicing.VoiceAllStart(v.Config(), start, texts);
    clips := [];
    for k := 0 to |subs|
      invariant v.Valid()
      invariant Voicing.VoiceAll(v.Config(), start, texts)
             == Voicing.Preceded(clips, Voicing.VoiceAll(v.Config(), v.State(), texts[k..]))
    {
      ghost var before := v.State();
      var c := v.Voice(subs[k].text);
      Voicing.VoiceAllNext(v.Config(), start, texts, k, clips, before, v.State(), c);
      if c.Err? {
        return clips, Some(c.error);
      }
      clips := clips + [c.value];
    }
    Voicing.VoiceAllDone(v.Config(), start, texts, clips, v.State());
    failure := None;
  }

  /**
   * `default_right_border`: bound only when a video is given, as the video's
   * end (seconds, times 1000) minus the last subtitle's end.
   */
  function LastRightBorder(videoSeconds: Option<real>, lastEnd: real): (b: Option<real>)
    ensures b.Some? <==> videoSeconds.Some?
    ensures b.Some? ==> lastEnd + b.value == videoSeconds.value * 1000.0
  {
    match videoSeconds
    case None => None
    case Some(s) => Some(s * 1000.0 - lastEnd)
  }

  // ---------------------------------------------------------------------
  // The fitting loop

  function Lift(r: Result<seq<Clip>, AudioError>): Result<seq<Clip>, LegacyError> {
    match r
    case Err(e) => Err(AudioFailed(e))
    case Ok(v) => Ok(v)
  }

  /**
   * The fitted clips of every line. With no video the loop fits every line
   * but the last, then fails looking up the unbound border (unless an
   * earlier fit failed first).
   */
  function Fits(slots: seq<Slot>, clips: seq<Clip>, lastRight: Option<real>, align: real)
    : (r: Result<seq<Clip>, LegacyError>)
    requires |clips| == |slots|
    ensures r.Ok? ==> |r.value| == |slots|
    ensures r.Ok? && slots != [] ==> lastRight.Some?
  {
    if lastRight.Some? || slots == [] then
      Lift(FitFrom(slots, clips, if lastRight.Some? then lastRight.value else 0.0, align, 0, 0.0))
    else
      match Run(LineFitOf(slots, clips, 0.0, align), |slots| - 1, 0, 0.0)
      case Err(e) => Err(AudioFailed(e))
      case Ok(_) => Err(RightBorderUnbound)
  }

  /** How many lines the loop fits before it ends, successfully or at the unbound border. */
  function Fitted(n: nat, lastRight: Option<real>): (k: nat)
    ensures k <= n
  {
    if lastRight.Some? || n == 0 then n else n - 1
  }

  /**
   * The loop of `dub_one`: line `pos` gets `fit(tts, start - total_dubbed,
   * duration, right, fit_align)`, where `right` is the gap to the next line
   * or, for the last line, `default_right_border`; `total_dubbed` grows by
   * each fitted clip's duration and the clips are appended in order.
   */
  method FitLines(slots: seq<Slot>, clips: seq<Clip>, lastRight: Option<real>, align: real)
    returns (r: Result<seq<Clip>, LegacyError>)
    requires |clips| == |slots|
    ensures r == Fits(slots, clips, lastRight, align)
  {
    ghost var fit := LineFitOf(slots, clips, if lastRight.Some? then lastRight.value else 0.0, align);
    ghost var n := Fitted(|slots|, lastRight);
    var fits: seq<Clip> := [];
    var totalDubbed := 0.0;
    var pos := 0;
    assert Run(fit, n, 0, 0.0) == Prepend([], Run(fit, n, 0, 0.0)) by {
      var w := Run(fit, n, 0, 0.0);
      if w.Ok? {
        assert [] + w.value == w.value;
      }
    }
    while pos < |slots|
      invariant 0 <= pos <= n
      invariant Run(fit, n, 0, 0.0) == Prepend(fits, Run(fit, n, pos, totalDubbed))
    {
      var right: real;
      if pos == |slots| - 1 {
        if lastRight.None? {
          assert Run(fit, n, pos, totalDubbed) == Ok([]);
          assert fits + [] == fits;
          return Err(RightBorderUnbound);
        }
        right := lastRight.value;
      } else {
        right := slots[pos + 1].start - slots[pos].end;
      }
      var oneFit := Fit(clips[pos], slots[pos].start - totalDubbed, slots[pos].end - slots[pos].start, right, align);
      FitLinesStep(slots, clips, lastRight, align, pos, totalDubbed, fits, right, oneFit);
      if oneFit.Err? {
        return Err(AudioFailed(oneFit.error));
      }
      totalDubbed := totalDubbed + Duration(oneFit.value);
      fits := fits + [oneFit.value];
      pos := pos + 1;
    }
    assert fits + [] == fits;
    r := Lift(Prepend(fits, Ok([])));
  }

  /** One round of that loop, line `pos` fitted with the border `right` the loop computes. */
  lemma FitLinesStep(slots: seq<Slot>, clips: seq<Clip>, lastRight: Option<real>, align: real, pos: nat, total: real,
                     fits: seq<Clip>, right: real, oneFit: Result<Clip, AudioError>)
    requires |clips| == |slots| && pos < Fitted(|slots|, lastRight)
    requires right == (if pos + 1 < |slots| then slots[pos + 1].start - slots[pos].end
                       else if lastRight.Some? then lastRight.value else 0.0)
    requires oneFit == Fit(clips[pos], slots[pos].start - total, slots[pos].end - slots[pos].start, right, align)
    ensures var fit := LineFitOf(slots, clips, if lastRight.Some? then lastRight.value else 0.0, align);
      var n := Fitted(|slots|, lastRight);
      && (oneFit.Err? ==> Prepend(fits, Run(fit, n, pos, total)) == Err(oneFit.error))
      && (oneFit.Ok? ==> Prepend(fits, Run(fit, n, pos, total))
                         == Prepend(fits + [oneFit.value], Run(fit, n, pos + 1, total + Duration(oneFit.value))))
  {
    var fit := LineFitOf(slots, clips, if lastRight.Some? then lastRight.value else 0.0, align);
    assert oneFit == fit(pos, total);
    RunStep(fit, Fitted(|slots|, lastRight), pos, total, fits);
  }

  /** The bonding loop: `audio += fit` for every fitted clip, in order. */
  method Bond(fits: seq<Clip>) returns (audio: Clip)
    ensures audio == Concat(fits)
  {
    audio := Empty();
    for k := 0 to |fits|
      invariant audio == Concat(fits[..k])
    {
      assert fits[..k + 1][..k] == fits[..k];
      audio := Append(audio, fits[k]);
    }
    assert fits[..|fits|] == fits;
  }

  // ---------------------------------------------------------------------
  // Reconciliation: `if` / `elif`

  /**
   * A track longer than the target is sped up by duration/target; otherwise
   * one shorter than it gets min(target - duration, first start) of leading
   * silence.
   */
  function LegacyReconcile(audio: Clip, target: real, firstStart: real): (r: Result<Clip, AudioError>)
    ensures Duration(audio) <= target && Duration(audio) != target ==>
      r == Ok(Append(Silent(Dubbing.Min(target - Duration(audio), firstStart)), audio))
    ensures Duration(audio) == target ==> r == Ok(audio)
  {
    var d := Duration(audio);
    if d > target then (if target == 0.0 then Err(ZeroDivision) else SpeedChange(audio, d / target))
    else if d != target then Ok(Append(Silent(Dubbing.Min(target - d, firstStart)), audio))
    else Ok(audio)
  }

  /** With a positive target, reconciliation never fails and never outlasts the target. */
  lemma LegacyReconcileBound(audio: Clip, target: real, firstStart: real)
    requires target > 0.0 && firstStart >= 0.0
    ensures LegacyReconcile(audio, target, firstStart).Ok?
    ensures Duration(LegacyReconcile(audio, target, firstStart).value) <= target
    ensures Duration(audio) >= target ==> Duration(LegacyReconcile(audio, target, firstStart).value) == target
  {
    var d := Duration(audio);
    if d > target {
      SpedBackToTarget(audio, target);
    }
  }

  lemma SpedBackToTarget(audio: Clip, target: real)
    requires Duration(audio) > target > 0.0
    ensures SpeedChange(audio, Duration(audio) / target).Ok?
    ensures Duration(SpeedChange(audio, Duration(audio) / target).value) == target
  {
    var ratio := Dubbing.SpeedUpRatio(Duration(audio), target);
    var sped := SpeedChange(audio, ratio);
    Dubbing.ScaledBack(Duration(sped.value), ratio, Duration(audio), target);
  }

  /** The statements after the bonding loop. */
  method ReconcileTrack(audio: Clip, maxDuration: real, firstStart: real) returns (r: Result<Clip, AudioError>)
    ensures r == LegacyReconcile(audio, maxDuration, firstStart)
  {
    var audioDuration := Duration(audio);
    if audioDuration > maxDuration {
      if maxDuration == 0.0 {
        return Err(ZeroDivision);
      }
      var changeSpeed := audioDuration / maxDuration;
      r := SpeedChange(audio, changeSpeed);
    } else if audioDuration != maxDuration {
      r := Ok(Append(Silent(Dubbing.Min(maxDuration - audioDuration, firstStart)), audio));
    } else {
      r := Ok(audio);
    }
  }

  /** Fitting, bonding and reconciliation together. */
  function LegacyTrack(slots: seq<Slot>, clips: seq<Clip>, lastRight: Option<real>, align: real, target: real,
                       firstStart: real): Result<Clip, LegacyError>
    requires |clips| == |slots|
  {
    match Fits(slots, clips, lastRight, align)
    case Err(e) => Err(e)
    case Ok(fits) =>
      match LegacyReconcile(Concat(fits), target, firstStart)
      case Err(e) => Err(AudioFailed(e))
      case Ok(audio) => Ok(audio)
  }

  method PlaceLines(slots: seq<Slot>, clips: seq<Clip>, lastRight: Option<real>, align: real, target: real,
                    firstStart: real) returns (r: Result<Clip, LegacyError>)
    requires |clips| == |slots|
    ensures r == LegacyTrack(slots, clips, lastRight, align, target, firstStart)
  {
    var fits := FitLines(slots, clips, lastRight, align);
    if fits.Err? {
      return Err(fits.error);
    }
    var audio := Bond(fits.value);
    var track := ReconcileTrack(audio, target, firstStart);
    if track.Err? {
      return Err(AudioFailed(track.error));
    }
    r := Ok(track.value);
  }

  // ---------------------------------------------------------------------
  // Outputs

  /**
   * What `dub_one` writes: with a video, the mixed `result.mp4`, removing by
   * `clean_up` level the extracted `video.mp3` (> 0), then `result.mp3`
   * (> 1), then the voicer's cache (> 2); without one, `result.mp3` only.
   */
  datatype LegacyOutput =
    | AudioOnly(resultAudio: string)
    | WithVideo(ducking: bool, videoAudio: string, resultAudio: string, resultVideo: string,
                removed: seq<string>, voicerCleared: bool)

  /** `_<fn>_result` beside the subtitle file. */
  function ResultDir(fn: string, targetSrt: string): string {
    PathJoin(Dirname(targetSrt), "_" + fn + "_result")
  }

  function Outputs(fn: string, targetSrt: string, withVideo: bool, ducking: bool, cleanUp: int): (o: LegacyOutput)
    ensures !withVideo ==> o == AudioOnly(PathJoin(ResultDir(fn, targetSrt), "result.mp3"))
    ensures withVideo ==>
      && o.WithVideo? && o.ducking == ducking
      && o.videoAudio == PathJoin(ResultDir(fn, targetSrt), "video.mp3")
      && o.resultAudio == PathJoin(ResultDir(fn, targetSrt), "result.mp3")
      && o.resultVideo == PathJoin(ResultDir(fn, targetSrt), "result.mp4")
      && (o.videoAudio in o.removed <==> cleanUp > 0)
      && (o.resultAudio in o.removed <==> cleanUp > 1)
      && (o.voicerCleared <==> cleanUp > 2)
      && (forall f :: f in o.removed ==> f == o.videoAudio || f == o.resultAudio)
  {
    var dir := ResultDir(fn, targetSrt);
    var videoAudio := PathJoin(dir, "video.mp3");
    var resultAudio := PathJoin(dir, "result.mp3");
    if !withVideo then AudioOnly(resultAudio)
    else
      JoinedNamesDiffer(dir);
      WithVideo(ducking, videoAudio, resultAudio, PathJoin(dir, "result.mp4"), Removed(videoAudio, resultAudio, cleanUp),
                cleanUp > 2)
  }

  /** The files the `clean_up` levels remove, in order. */
  function Removed(videoAudio: string, resultAudio: string, cleanUp: int): (r: seq<string>)
    requires videoAudio != resultAudio
    ensures videoAudio in r <==> cleanUp > 0
    ensures resultAudio in r <==> cleanUp > 1
    ensures forall f :: f in r ==> f == videoAudio || f == resultAudio
  {
    (if cleanUp > 0 then [videoAudio] else []) + (if cleanUp > 1 then [resultAudio] else [])
  }

  lemma JoinedNamesDiffer(dir: string)
    ensures PathJoin(dir, "video.mp3") != PathJoin(dir, "result.mp3")
  {
    var v := PathJoin(dir, "video.mp3");
    var r := PathJoin(dir, "result.mp3");
    assert v[|v| - 9..] == "video.mp3" && r[|r| - 9..] == "esult.mp3";
    assert v[|v| - 9] != r[|r| - 9];
  }

  datatype Dubbed = Dubbed(track: Clip, output: LegacyOutput)

  // ---------------------------------------------------------------------
  // The dubber

  class Dubber {
    const voicer: Voicing.LegacyVoicer
    const videoFormat: string
    const subtitlesFormat: string
    const fitAlign: real
    const ducking: bool
    const minSilenceLen: int
    const silenceThresh: real
    const gainDuringOverlay: int

    /**
     * `Dubber(voice, ducking, ...)`: the formats get their leading dot.
     * `voicer` is the class's shared `VOISER`; handing it the voice with
     * `set_voice` is not part of this class.
     */
    constructor(voicer: Voicing.LegacyVoicer, voice: string, ducking: bool, minSilenceLen: int, silenceThresh: real,
                gainDuringOverlay: int, videoFormat: string := ".mp4", subtitlesFormat: string := ".srt",
                fitAlign: real := DefaultFitAlign)
      ensures this.voicer == voicer
      ensures this.videoFormat == Dotted(videoFormat) && this.subtitlesFormat == Dotted(subtitlesFormat)
      ensures this.fitAlign == fitAlign && this.ducking == ducking && this.minSilenceLen == minSilenceLen
      ensures this.silenceThresh == silenceThresh && this.gainDuringOverlay == gainDuringOverlay
    {
      this.voicer := voicer;
      this.videoFormat := Dotted(videoFormat);
      this.subtitlesFormat := Dotted(subtitlesFormat);
      this.fitAlign := fitAlign;
      this.ducking := ducking;
      this.minSilenceLen := minSilenceLen;
      this.silenceThresh := silenceThresh;
      this.gainDuringOverlay := gainDuringOverlay;
    }

    /**
     * The track of a parsed transcript from its voiced clips,
     * `videoSeconds` being the video's length when one is given.
     */
    function Track(subs: seq<LegacySubtitles.Line>, videoSeconds: Option<real>, clips: seq<Clip>)
      : Result<Clip, LegacyError>
      requires |clips| == |subs|
    {
      if subs == [] then Err(NoLines)
      else
        var lastEnd := subs[|subs| - 1].ms.end;
        LegacyTrack(SlotsOf(subs), clips, LastRightBorder(videoSeconds, lastEnd), fitAlign, lastEnd,
                    subs[0].ms.start)
    }

    /** The voicer's state after a dub: its cache is gone when `clean_up > 2` removed it. */
    function StateAfter(st: Voicing.VoiceState, o: LegacyOutput): (r: Voicing.VoiceState)
      ensures r.voice == st.voice
      ensures r.cache == (if o.WithVideo? && o.voicerCleared then map[] else st.cache)
    {
      if o.WithVideo? && o.voicerCleared then Voicing.VoiceState(st.voice, map[]) else st
    }

    /**
     * `dub_one(fn, target_mp4, target_srt, clean_up)` with the voicer in
     * state `st`: the outcome and the voicer's state afterwards.
     * `subtitleText` is what `parse(target_srt)` reads, `videoSeconds` the
     * video clip's end.
     */
    function DubResult(fn: string, targetMp4: Option<string>, targetSrt: Option<string>, subtitleText: string,
                       videoSeconds: real, sp: Voicing.Speaker, st: Voicing.VoiceState, cleanUp: int)
      : (r: (Voicing.VoiceState, Result<Dubbed, LegacyError>))
      requires Voicing.Ready(sp, st)
      ensures Voicing.Ready(sp, r.0)
      ensures targetSrt.None? ==> r == (st, Err(SubtitlePathMissing))
      ensures LegacySubtitles.ParseSpec(subtitleText) == Ok([]) && targetSrt.Some? ==> r == (st, Err(NoLines))
    {
      if targetSrt.None? then (st, Err(SubtitlePathMissing))
      else
        match LegacySubtitles.ParseSpec(subtitleText)
        case Err(e) => (st, Err(ParseFailed(e)))
        case Ok(subs) =>
          if subs == [] then (st, Err(NoLines))
          else
            var v := Voicing.VoiceAll(sp, st, Texts(subs));
            if v.failure.Some? then (v.state, Err(VoiceFailed(v.failure.value)))
            else
              match Track(subs, if Dubbing.Given(targetMp4) then Some(videoSeconds) else None, v.clips)
              case Err(e) => (v.state, Err(e))
              case Ok(track) =>
                var o := Outputs(fn, targetSrt.value, Dubbing.Given(targetMp4), ducking, cleanUp);
                (StateAfter(v.state, o), Ok(Dubbed(track, o)))
    }

    method DubOne(fn: string, targetMp4: Option<string>, targetSrt: Option<string>, subtitleText: string,
                  videoSeconds: real, cleanUp: int) returns (r: Result<Dubbed, LegacyError>)
      requires voicer.Valid()
      modifies voicer
      ensures voicer.Valid()
      ensures (voicer.State(), r)
           == DubResult(fn, targetMp4, targetSrt, subtitleText, videoSeconds, voicer.Config(), old(voicer.State()), cleanUp)
    {
      if targetSrt.None? {
        return Err(SubtitlePathMissing);
      }
      var parsed := LegacySubtitles.Parse(subtitleText, false);
      if parsed.Err? {
        return Err(ParseFailed(parsed.error));
      }
      var subtitles := parsed.value;
      if subtitles == [] {
        return Err(NoLines);
      }
      var clips, failure := VoiceLines(voicer, subtitles);
      if failure.Some? {
        return Err(VoiceFailed(failure.value));
      }
      var track := PlaceTrack(subtitles, if Dubbing.Given(targetMp4) then Some(videoSeconds) else None, clips);
      if track.Err? {
        return Err(track.error);
      }
      var o := Outputs(fn, targetSrt.value, Dubbing.Given(targetMp4), ducking, cleanUp);
      if o.WithVideo? && o.voicerCleared {
        voicer.Cleanup();
      }
      r := Ok(Dubbed(track.value, o));
    }

    method PlaceTrack(subs: seq<LegacySubtitles.Line>, videoSeconds: Option<real>, clips: seq<Clip>)
      returns (r: Result<Clip, LegacyError>)
      requires |clips| == |subs|
      ensures r == Track(subs, videoSeconds, clips)
    {
      if subs == [] {
        return Err(NoLines);
      }
      var lastEnd := subs[|subs| - 1].ms.end;
      TrackSteps(subs, videoSeconds, clips);
      r := PlaceLines(SlotsOf(subs), clips, LastRightBorder(videoSeconds, lastEnd), fitAlign, lastEnd,
                      subs[0].ms.start);
    }

    lemma TrackSteps(subs: seq<LegacySubtitles.Line>, videoSeconds: Option<real>, clips: seq<Clip>)
      requires subs != [] && |clips| == |subs|
      ensures var lastEnd := subs[|subs| - 1].ms.end;
        Track(subs, videoSeconds, clips)
        == LegacyTrack(SlotsOf(subs), clips, LastRightBorder(videoSeconds, lastEnd), fitAlign, lastEnd,
                       subs[0].ms.start)
    {
    }

    /**
     * One call of `dub_dir`: the subtitle text is what `files` holds for the
     * subtitle path, the video's length what `lengths` gives for its path;
     * `clean_up` keeps its default 1.
     */
    function CallResult(c: Dubbing.DubCall, files: string -> string, lengths: string -> real,
                        sp: Voicing.Speaker, st: Voicing.VoiceState): (r: (Voicing.VoiceState, Result<Dubbed, LegacyError>))
      requires Voicing.Ready(sp, st)
      ensures Voicing.Ready(sp, r.0)
    {
      DubResult(c.fn, c.targetVid, c.targetSub, files(c.targetSub.GetOr("")),
                if Dubbing.Given(c.targetVid) then lengths(c.targetVid.value) else 0.0, sp, st, 1)
    }

    /** The calls of `dub_dir` in order, the voicer's state carried along, up to the first that raises. */
    function DirResult(calls: seq<Dubbing.DubCall>, files: string -> string, lengths: string -> real,
                       sp: Voicing.Speaker, st: Voicing.VoiceState): (r: (Voicing.VoiceState, Dubbing.DirRun<Dubbed, LegacyError>))
      requires Voicing.Ready(sp, st)
      ensures Voicing.Ready(sp, r.0)
      ensures |r.1.done| <= |calls|
      ensures r.1.failure.None? <==> |r.1.done| == |calls|
      decreases |calls|
    {
      if calls == [] then (st, Dubbing.DirRun([], None))
      else
        var first := CallResult(calls[0], files, lengths, sp, st);
        match first.1
        case Err(e) => (first.0, Dubbing.DirRun([], Some(e)))
        case Ok(o) => Dubbing.Ahead([o], DirResult(calls[1..], files, lengths, sp, first.0))
    }

    /** A run after its first call. */
    lemma DirResultFirst(calls: seq<Dubbing.DubCall>, files: string -> string, lengths: string -> real,
                         sp: Voicing.Speaker, st: Voicing.VoiceState, next: Voicing.VoiceState,
                         o: Result<Dubbed, LegacyError>)
      requires Voicing.Ready(sp, st) && calls != [] && (next, o) == CallResult(calls[0], files, lengths, sp, st)
      ensures Voicing.Ready(sp, next)
      ensures o.Err? ==> DirResult(calls, files, lengths, sp, st) == (next, Dubbing.DirRun([], Some(o.error)))
      ensures o.Ok? ==>
        DirResult(calls, files, lengths, sp, st) == Dubbing.Ahead([o.value], DirResult(calls[1..], files, lengths, sp, next))
    {
    }

    /** The step of the loop of `dub_dir`, `done` holding the outcomes of the calls before the `k`-th. */
    lemma DirResultNext(calls: seq<Dubbing.DubCall>, k: nat, done: seq<Dubbed>, files: string -> string, lengths: string -> real,
                        sp: Voicing.Speaker, start: Voicing.VoiceState, before: Voicing.VoiceState,
                        next: Voicing.VoiceState, o: Result<Dubbed, LegacyError>)
      requires Voicing.Ready(sp, start) && Voicing.Ready(sp, before) && k < |calls|
      requires DirResult(calls, files, lengths, sp, start) == Dubbing.Ahead(done, DirResult(calls[k..], files, lengths, sp, before))
      requires (next, o) == CallResult(calls[k], files, lengths, sp, before)
      ensures Voicing.Ready(sp, next)
      ensures o.Err? ==> DirResult(calls, files, lengths, sp, start) == (next, Dubbing.DirRun(done, Some(o.error)))
      ensures o.Ok? ==>
        DirResult(calls, files, lengths, sp, start) == Dubbing.Ahead(done + [o.value], DirResult(calls[k + 1..], files, lengths, sp, next))
    {
      assert calls[k..][0] == calls[k] && calls[k..][1..] == calls[k + 1..];
      DirResultFirst(calls[k..], files, lengths, sp, before, next, o);
      if o.Err? {
        assert done + [] == done;
      } else {
        Dubbing.AheadTwice(done, [o.value], DirResult(calls[k + 1..], files, lengths, sp, next));
      }
    }

    /** The start and the end of that loop. */
    lemma DirResultEnds(calls: seq<Dubbing.DubCall>, done: seq<Dubbed>, files: string -> string, lengths: string -> real,
                        sp: Voicing.Speaker, start: Voicing.VoiceState, last: Voicing.VoiceState)
      requires Voicing.Ready(sp, start) && Voicing.Ready(sp, last)
      ensures DirResult(calls, files, lengths, sp, start) == Dubbing.Ahead([], DirResult(calls[0..], files, lengths, sp, start))
      ensures DirResult(calls, files, lengths, sp, start) == Dubbing.Ahead(done, DirResult(calls[|calls|..], files, lengths, sp, last))
           ==> DirResult(calls, files, lengths, sp, start) == (last, Dubbing.DirRun(done, None))
    {
      assert calls[0..] == calls && calls[|calls|..] == [] && done + [] == done;
      Dubbing.AheadNothing(DirResult(calls, files, lengths, sp, start));
    }

    /**
     * Running `a + b` is running `a`, then `b` from the voicer state `a`
     * left; when a call of `a` raises, no call of `b` is made.
     */
    lemma {:induction false} DirResultSplit(a: seq<Dubbing.DubCall>, b: seq<Dubbing.DubCall>, files: string -> string,
                                            lengths: string -> real, sp: Voicing.Speaker, st: Voicing.VoiceState)
      requires Voicing.Ready(sp, st)
      ensures var ra := DirResult(a, files, lengths, sp, st);
        && (ra.1.failure.Some? ==> DirResult(a + b, files, lengths, sp, st) == ra)
        && (ra.1.failure.None? ==>
              DirResult(a + b, files, lengths, sp, st) == Dubbing.Ahead(ra.1.done, DirResult(b, files, lengths, sp, ra.0)))
      decreases |a|
    {
      if a == [] {
        assert a + b == b;
        Dubbing.AheadNothing(DirResult(b, files, lengths, sp, st));
      } else {
        var ab := a + b;
        assert ab[0] == a[0] && ab[1..] == a[1..] + b;
        var first := CallResult(a[0], files, lengths, sp, st);
        DirResultFirst(a, files, lengths, sp, st, first.0, first.1);
        DirResultFirst(ab, files, lengths, sp, st, first.0, first.1);
        if first.1.Ok? {
          var o := first.1.value;
          DirResultSplit(a[1..], b, files, lengths, sp, first.0);
          var ra := DirResult(a[1..], files, lengths, sp, first.0);
          var whole := DirResult(a, files, lengths, sp, st);
          assert whole == Dubbing.Ahead([o], ra);
          if ra.1.failure.None? {
            var rb := DirResult(b, files, lengths, sp, ra.0);
            Dubbing.AheadTwice([o], ra.1.done, rb);
            calc {
              DirResult(ab, files, lengths, sp, st);
              Dubbing.Ahead([o], DirResult(a[1..] + b, files, lengths, sp, first.0));
              Dubbing.Ahead([o], Dubbing.Ahead(ra.1.done, rb));
              Dubbing.Ahead([o] + ra.1.done, rb);
            }
            assert whole.1.done == [o] + ra.1.done && whole.0 == ra.0;
          }
        }
      }
    }

    /**
     * A stem without a subtitle file raises in `parse(None)`, whether or not
     * it has a video: the stems before it are dubbed, the ones after it are
     * never reached.
     */
    lemma StemWithoutSubtitlesEndsDir(a: seq<Dubbing.DubCall>, c: Dubbing.DubCall, b: seq<Dubbing.DubCall>,
                                      files: string -> string, lengths: string -> real,
                                      sp: Voicing.Speaker, st: Voicing.VoiceState)
      requires Voicing.Ready(sp, st)
      requires DirResult(a, files, lengths, sp, st).1.failure.None?
      requires c.targetSub.None?
      ensures DirResult(a + [c] + b, files, lengths, sp, st).1
           == Dubbing.DirRun(DirResult(a, files, lengths, sp, st).1.done, Some(SubtitlePathMissing))
    {
      var ra := DirResult(a, files, lengths, sp, st);
      Dubbing.Regroup(a, c, b);
      DirResultSplit(a, [c] + b, files, lengths, sp, st);
      var first := CallResult(c, files, lengths, sp, ra.0);
      DirResultFirst([c] + b, files, lengths, sp, ra.0, first.0, first.1);
      Dubbing.AheadFailure(ra.1.done, first.0, SubtitlePathMissing);
    }

    /**
     * `dub_dir(path_to_files, skip_starts_underscore, exclude_files)`:
     * `exclude_files` defaults to None, and `file in None` raises on the
     * first listed file; otherwise the grouping is the newer
     * `collect_videos`, and each stem gets one `dub_one` call, in the order
     * the stems were first seen, until one raises.
     */
    method DubDir(dir: string, entries: seq<Dubbing.Entry>, skipUnderscore: bool, exclude: Option<set<string>>,
                  files: string -> string, lengths: string -> real) returns (r: Dubbing.DirRun<Dubbed, LegacyError>)
      requires voicer.Valid()
      modifies voicer
      ensures voicer.Valid()
      ensures exclude.None? && entries != [] ==>
        r == Dubbing.DirRun([], Some(ExcludeIsNone)) && voicer.State() == old(voicer.State())
      ensures !(exclude.None? && entries != []) ==>
        var v := Dubbing.Collect(dir, entries, skipUnderscore, if exclude.Some? then exclude.value else {});
        && (forall s :: s in v.order ==> s in v.groups)
        && (voicer.State(), r)
           == DirResult(Dubbing.DirCalls(v, videoFormat, subtitlesFormat), files, lengths, voicer.Config(), old(voicer.State()))
    {
      if exclude.None? && entries != [] {
        return Dubbing.DirRun([], Some(ExcludeIsNone));
      }
      var excluded := if exclude.Some? then exclude.value else {};
      var videos := Dubbing.CollectVideos(dir, entries, skipUnderscore, excluded);
      Dubbing.CollectWellFormed(dir, entries, skipUnderscore, excluded);
      var calls := Dubbing.DirCalls(videos, videoFormat, subtitlesFormat);
      ghost var start := voicer.State();
      var done: seq<Dubbed> := [];
      DirResultEnds(calls, done, files, lengths, voicer.Config(), start, start);
      for k := 0 to |calls|
        invariant voicer.Valid()
        invariant DirResult(calls, files, lengths, voicer.Config(), start)
               == Dubbing.Ahead(done, DirResult(calls[k..], files, lengths, voicer.Config(), voicer.State()))
      {
        var c := calls[k];
        ghost var before := voicer.State();
        var o := DubOne(c.fn, c.targetVid, c.targetSub, files(c.targetSub.GetOr("")),
                        if Dubbing.Given(c.targetVid) then lengths(c.targetVid.value) else 0.0, 1);
        DirResultNext(calls, k, done, files, lengths, voicer.Config(), start, before, voicer.State(), o);
        if o.Err? {
          return Dubbing.DirRun(done, Some(o.error));
        }
        done := done + [o.value];
      }
      DirResultEnds(calls, done, files, lengths, voicer.Config(), start, voicer.State());
      r := Dubbing.DirRun(done, None);
    }
  }

  // ---------------------------------------------------------------------
  // The two dubbers compared

  /**
   * Default align: a clip that spills past need + right but fits its window
   * ends exactly at the window's end with the older default (1), and half
   * its slack earlier with the newer one (2).
   */
  lemma DefaultAlignsDiffer(clip: Clip, left: real, need: real, right: real)
    requires need + right < Duration(clip) <= left + need + right
    ensures Fit(clip, left, need, right, DefaultFitAlign).Ok?
    ensures Duration(Fit(clip, left, need, right, DefaultFitAlign).value) == left + need + right
    ensures Fit(clip, left, need, right, Dubbing.DefaultFitAlign).Ok?
    ensures Duration(Fit(clip, left, need, right, Dubbing.DefaultFitAlign).value)
         == left + need + right - (left + need + right - Duration(clip)) / 2.0
  {
    FitSpillsIntoLeftGap(clip, left, need, right, DefaultFitAlign);
    FitSpillsIntoLeftGap(clip, left, need, right, Dubbing.DefaultFitAlign);
  }

  /**
   * The last right border: with a video the newer dubber clamps the older
   * one's (video end - last end) at 0, by starting its boundary at the
   * later of the two ends.
   */
  lemma BorderClampedInNewer(videoSeconds: real, lastEnd: real)
    ensures Dubbing.TrailingBoundary(Some(videoSeconds * 1000.0), lastEnd) - lastEnd
         == Dubbing.Max(LastRightBorder(Some(videoSeconds), lastEnd).value, 0.0)
  {
  }

  /**
   * Without a video: on a transcript whose lines start at or after zero,
   * one after another, with align >= 1, the older dubber fails at the last
   * line's unbound border while the newer one dubs it.
   */
  lemma OnlyNewerDubsWithoutVideo(subs: seq<Subtitles.Line>, clips: seq<Clip>, align: real)
    requires subs != [] && |clips| == |subs| && align >= 1.0
    requires forall i :: 0 <= i < |subs| ==> subs[i].ms.start >= 0
    requires forall i :: 0 <= i < |subs| - 1 ==> subs[i].ms.start < subs[i + 1].ms.start
    requires subs[|subs| - 1].ms.start < subs[|subs| - 1].ms.end
    ensures Fits(Dubbing.SlotsOf(subs), clips, None, align) == Err(RightBorderUnbound)
    ensures FitFrom(Dubbing.SlotsOf(subs), clips, 0.0, align, 0, 0.0).Ok?
  {
    var slots := Dubbing.SlotsOf(subs);
    Dubbing.OrderedWindowsOpen(subs, 0.0);
    NeverOverruns(slots, clips, 0.0, align);
    RunPrefix(LineFitOf(slots, clips, 0.0, align), |slots|, 0, 0.0);
  }

  /** A run that succeeds over `n` lines also succeeds over the first `n - 1`. */
  lemma {:induction false} RunPrefix(fit: LineFit, n: nat, i: nat, total: real)
    requires i < n && Run(fit, n, i, total).Ok?
    ensures Run(fit, n - 1, i, total).Ok?
    ensures Run(fit, n - 1, i, total).value == Run(fit, n, i, total).value[..n - 1 - i]
    decreases n - i
  {
    var a := fit(i, total).value;
    if i + 1 < n {
      RunPrefix(fit, n, i + 1, total + Duration(a));
      var rest := Run(fit, n, i + 1, total + Duration(a)).value;
      assert ([a] + rest)[..n - 1 - i] == [a] + rest[..n - 1 - (i + 1)];
    }
  }

  /**
   * `if`/`elif` against two `if`s: a track no longer than the target is
   * reconciled alike by both dubbers.
   */
  lemma ReconcileAgreesWithoutSpeedUp(parts: seq<Clip>, target: real, firstStart: real)
    requires SumDurations(parts) <= target
    ensures Dubbing.Reconcile(parts, SumDurations(parts), target, firstStart)
         == LegacyReconcile(Concat(parts), target, firstStart)
  {
  }

  /**
   * After a speed-up the newer dubber's separate `if` still prepends a
   * (negative, hence empty) silence that the older `elif` never adds: the
   * same audio, one empty chunk longer, the same length.
   */
  lemma SpeedUpOnlyNewerLeadsIn(parts: seq<Clip>, target: real, firstStart: real)
    requires SumDurations(parts) > target > 0.0
    ensures LegacyReconcile(Concat(parts), target, firstStart).Ok?
    ensures Dubbing.Reconcile(parts, SumDurations(parts), target, firstStart).Ok?
    ensures Dubbing.Reconcile(parts, SumDurations(parts), target, firstStart).value.chunks
         == [Silence(0.0)] + LegacyReconcile(Concat(parts), target, firstStart).value.chunks
    ensures Duration(Dubbing.Reconcile(parts, SumDurations(parts), target, firstStart).value)
         == Duration(LegacyReconcile(Concat(parts), target, firstStart).value)
  {
    var total := SumDurations(parts);
    var c := Concat(parts);
    Dubbing.PositiveRatio(total, target);
    Dubbing.SpeedUpGetsEmptyLeadIn(parts, total, target, firstStart);
    BothStretchAlike(c, total / target);
    var sped := Dubbing.Reconcile(parts, total, target, firstStart).value;
    assert sped.chunks == [sped.chunks[0]] + sped.chunks[1..];
    EmptyLeadIn(sped);
  }

  /** Above ratio 1 the track filter and `speed_change` stretch a clip alike. */
  lemma BothStretchAlike(c: Clip, ratio: real)
    requires ratio > 1.0
    ensures StretchByStages(c, ratio) == SpeedChange(c, ratio)
  {
  }

  /** A leading empty silence adds nothing to a clip's length. */
  lemma EmptyLeadIn(c: Clip)
    requires c.chunks != [] && c.chunks[0] == Silence(0.0)
    ensures Duration(c) == Duration(Clip(c.chunks[1..]))
  {
    assert c == Append(Clip([Silence(0.0)]), Clip(c.chunks[1..]));
    OneChunkDuration(Silence(0.0));
  }
}
