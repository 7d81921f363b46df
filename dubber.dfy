/**
 * fastdub/dubber.py: grouping the files of a directory by stem, and
 * `Dubber.dub_one`, which voices every subtitle line, fits the clips one
 * after another against the audio already placed, and reconciles the
 * whole track with the last subtitle's end.
 */
module Dubbing {
  import opened Wrappers
  import opened Text
  import opened Audio
  import opened Paths
  import Subtitles
  import opened Placement
  import Voicing

  /** The default `fit_align` of the constructor. */
  const DefaultFitAlign: real := 2.0

  datatype DubError =
    | NoSubtitlePath                               // TypeError of `Path(None)`
    | ParseFailed(parseError: Subtitles.ParseError) // raised by `subtitles.parse`
    | EmptyTranscript                              // IndexError of `subs[-1]`
    | VoiceFailed(voiceError: Voicing.VoiceError)  // UnknownVoice raised by `VOICER.voice`
    | AudioFailed(audioError: AudioError)          // raised while fitting or speeding up

  /** What is written next to the transcript, in its `_result` directory. */
  datatype Output =
    | AudioOnly(audio: string)
    | Mixed(ducking: bool, audio: string, video: Option<string>, keepAudio: bool)

  datatype Outcome = Skipped | Dubbed(track: Clip, output: Output)

  /** A path argument that is given and non-empty (Python truthiness). */
  predicate Given(path: Option<string>) {
    path.Some? && path.value != ""
  }

  function Min(a: real, b: real): real {
    if a <= b then a else b
  }

  function Max(a: real, b: real): real {
    if a >= b then a else b
  }

  /** The subtitle windows, in milliseconds. */
  function SlotsOf(subs: seq<Subtitles.Line>): (r: seq<Slot>)
    ensures |r| == |subs|
    ensures forall i :: 0 <= i < |subs| ==> r[i] == Slot(subs[i].ms.start as real, subs[i].ms.end as real)
  {
    seq(|subs|, i requires 0 <= i < |subs| => Slot(subs[i].ms.start as real, subs[i].ms.end as real))
  }

  /** The texts `VOICER.voice` is called on, line by line. */
  function Texts(subs: seq<Subtitles.Line>): (r: seq<string>)
    ensures |r| == |subs|
    ensures forall i :: 0 <= i < |subs| ==> r[i] == subs[i].text
  {
    seq(|subs|, i requires 0 <= i < |subs| => subs[i].text)
  }

  /**
   * `[VOICER.voice(line.text) for ... line in subs]`: the lines in order
   * through the shared voicer, ending at the first call that raises.
   */
  method VoiceLines(v: Voicing.Voicer, subs: seq<Subtitles.Line>) returns (clips: seq<Clip>, failure: Option<Voicing.VoiceError>)
    requires v.Valid()
    modifies v
    ensures v.Valid()
    ensures Voicing.Voiced(v.State(), clips, failure) == Voicing.VoiceAll(v.Config(), old(v.State()), Texts(subs))
  {
    var texts := Texts(subs);
    ghost var start := v.State();
    Voicing.VoiceAllStart(v.Config(), start, texts);
    clips := [];
    for k := 0 to |subs|
      invariant v.Valid()
      invariant Voicing.VoiceAll(v.Config(), start, texts)
             == Voicing.Preceded(clips, Voicing.VoiceAll(v.Config(), v.State(), texts[k..]))
    {
      ghost var before := v.State();
      var c := v.Voice(subs[k].text);
      Voicing.VoiceAllNext(v.Config(), start, texts, k, clips, before, v.State(), c);
      if c.Err? {
        return clips, Some(c.error);
      }
      clips := clips + [c.value];
    }
    Voicing.VoiceAllDone(v.Config(), start, texts, clips, v.State());
    failure := None;
  }

  // ---------------------------------------------------------------------
  // The trailing boundary

  /**
   * The start of the boundary line put after the last subtitle: the video's
   * length when there is a video, but never before the last subtitle's end.
   */
  function TrailingBoundary(video: Option<real>, lastEnd: real): (b: real)
    ensures b >= lastEnd
    ensures video.Some? ==> b >= video.value
    ensures b == lastEnd || (video.Some? && b == video.value) || (video.None? && b == 0.0)
  {
    Max(if video.Some? then video.value else 0.0, lastEnd)
  }

  datatype CallError = ArityMismatch(callee: string, takes: nat, given: nat)

  /** Calling `TimeLabel(start, end)` with `args`: anything but two arguments is a TypeError. */
  function CallTimeLabel(args: seq<real>): (r: Result<Slot, CallError>)
    ensures r.Ok? <==> |args| == 2
    ensures r.Ok? ==> r.value == Slot(args[0], args[1])
    ensures r.Err? ==> r.error == ArityMismatch("TimeLabel", 2, |args|)
  {
    if |args| == 2 then Ok(Slot(args[0], args[1])) else Err(ArityMismatch("TimeLabel", 2, |args|))
  }

  /**
   * The boundary line as written: `TimeLabel(border, end, end - border)`
   * passes three arguments to a two-argument constructor, so it raises for
   * every border and end (and the `Line` built from it would also lack its
   * text). Every transcript that parses to at least one line fails here.
   */
  function BoundaryLineAsWritten(border: real, lastEnd: real): (r: Result<Slot, CallError>)
    ensures r == Err(ArityMismatch("TimeLabel", 2, 3))
  {
    CallTimeLabel([border, lastEnd, lastEnd - border])
  }

  /** The boundary line as intended: it starts at the border and ends with the last subtitle. */
  function BoundaryLine(border: real, lastEnd: real): (s: Slot)
    ensures CallTimeLabel([border, lastEnd]) == Ok(s)
  {
    Slot(border, lastEnd)
  }

  /**
   * With the boundary line appended, `subs[pos].ms.start - ms.end` is the
   * right border `RightBorder` gives with lastRight = border - last end,
   * which is never negative, and the last line of the extended list ends
   * where the last subtitle does.
   */
  lemma BoundaryLineBorders(slots: seq<Slot>, border: real)
    requires slots != [] && border >= slots[|slots| - 1].end
    ensures var lastEnd := slots[|slots| - 1].end;
      var ext := slots + [BoundaryLine(border, lastEnd)];
      && (forall i :: 0 <= i < |slots| ==> ext[i + 1].start - slots[i].end == RightBorder(slots, border - lastEnd, i))
      && RightBorder(slots, border - lastEnd, |slots| - 1) >= 0.0
      && ext[|ext| - 1].end == lastEnd
  {
    var lastEnd := slots[|slots| - 1].end;
    var ext := slots + [BoundaryLine(border, lastEnd)];
    forall i | 0 <= i < |slots|
      ensures ext[i + 1].start - slots[i].end == RightBorder(slots, border - lastEnd, i)
    {
      if i + 1 < |slots| {
        assert ext[i + 1] == slots[i + 1];
      }
    }
  }

  // ---------------------------------------------------------------------
  // Reconciliation with the last subtitle's end

  /**
   * The concat step: the parts joined in order, sped up as a whole by
   * total/target (the `-af` filter) when the placed total exceeds the
   * target, copied otherwise.
   */
  function Joined(parts: seq<Clip>, total: real, target: real): Result<Clip, AudioError> {
    if total > target then
      if target == 0.0 then Err(ZeroDivision) else StretchByStages(Concat(parts), total / target)
    else Ok(Concat(parts))
  }

  /** Then, in a separate `if`, a total different from the target gets min(target - total, first start) of leading silence. */
  function LeadIn(track: Clip, total: real, target: real, firstStart: real): (r: Clip)
    ensures total == target ==> r == track
    ensures total != target ==> r == Append(Silent(Min(target - total, firstStart)), track)
  {
    if total != target then Append(Silent(Min(target - total, firstStart)), track) else track
  }

  /** Reconciling the placed parts with the target (the last subtitle's end). */
  function Reconcile(parts: seq<Clip>, total: real, target: real, firstStart: real): Result<Clip, AudioError> {
    match Joined(parts, total, target)
    case Err(e) => Err(e)
    case Ok(track) => Ok(LeadIn(track, total, target, firstStart))
  }

  /** Reconciliation fails exactly when a speed-up is needed and the target is not positive. */
  lemma ReconcileFails(parts: seq<Clip>, total: real, target: real, firstStart: real)
    requires total >= 0.0
    ensures Reconcile(parts, total, target, firstStart).Err? <==> total > target && target <= 0.0
  {
    if total > target {
      if target > 0.0 {
        PositiveRatio(total, target);
      } else if target < 0.0 {
        NonPositiveRatio(total, target);
      }
    }
  }

  lemma PositiveRatio(total: real, target: real)
    requires total > target > 0.0
    ensures total / target > 1.0
  {
    assert total / target * target == total;
  }

  lemma NonPositiveRatio(total: real, target: real)
    requires total >= 0.0 > target
    ensures total / target <= 0.0
  {
    assert total / target * target == total;
  }

  /**
   * The reconciled track never outlasts the target: a total at or above it
   * comes out exactly target long, and a shorter one keeps its audio and
   * gains at most the first start of lead-in.
   */
  lemma ReconcileBound(parts: seq<Clip>, total: real, target: real, firstStart: real)
    requires total == SumDurations(parts) && firstStart >= 0.0 && (total <= target || target > 0.0)
    ensures Reconcile(parts, total, target, firstStart).Ok?
    ensures Duration(Reconcile(parts, total, target, firstStart).value) <= target
    ensures total >= target ==> Duration(Reconcile(parts, total, target, firstStart).value) == target
    ensures total < target ==>
      Duration(Reconcile(parts, total, target, firstStart).value) == total + Min(target - total, firstStart)
  {
    if total > target {
      SpedToTarget(parts, total, target);
    }
  }

  /** A total above a positive target is sped up to exactly the target's length. */
  lemma SpedToTarget(parts: seq<Clip>, total: real, target: real)
    requires total == SumDurations(parts) && total > target > 0.0
    ensures Joined(parts, total, target).Ok?
    ensures Duration(Joined(parts, total, target).value) == target
  {
    StretchToTarget(Concat(parts), total, target);
  }

  lemma StretchToTarget(c: Clip, total: real, target: real)
    requires Duration(c) == total && total > target > 0.0
    ensures StretchByStages(c, total / target).Ok?
    ensures Duration(StretchByStages(c, total / target).value) == target
  {
    var ratio := SpeedUpRatio(total, target);
    var sped := StretchByStages(c, ratio);
    assert Duration(sped.value) * ratio == total;
    ScaledBack(Duration(sped.value), ratio, total, target);
  }

  lemma SpeedUpRatio(total: real, target: real) returns (ratio: real)
    requires total > target > 0.0
    ensures ratio == total / target && ratio > 0.0 && ratio * target == total
  {
    ratio := total / target;
    assert ratio * target == total;
  }

  lemma ScaledBack(d: real, ratio: real, total: real, target: real)
    requires target > 0.0 && ratio * target == total && d * ratio == total && ratio > 0.0
    ensures d == target
  {
    assert (d - target) * ratio == 0.0;
  }

  /** The statements after the fitting loop of `dub_one`. */
  method ReconcileParts(parts: seq<Clip>, total: real, maxDuration: real, firstStart: real)
    returns (r: Result<Clip, AudioError>)
    ensures r == Reconcile(parts, total, maxDuration, firstStart)
  {
    var track: Clip;
    if total > maxDuration {
      if maxDuration == 0.0 {
        return Err(ZeroDivision);
      }
      var sped := StretchByStages(Concat(parts), total / maxDuration);
      if sped.Err? {
        return Err(sped.error);
      }
      track := sped.value;
      assert Joined(parts, total, maxDuration) == sped;
    } else {
      track := Concat(parts);
      assert Joined(parts, total, maxDuration) == Ok(track);
    }
    if total != maxDuration {
      track := Append(Silent(Min(maxDuration - total, firstStart)), track);
    }
    r := Ok(track);
  }

  /**
   * The lead-in `if` also runs after a speed-up: min(target - total, ...) is
   * then negative and the prepended silence is empty.
   */
  lemma SpeedUpGetsEmptyLeadIn(parts: seq<Clip>, total: real, target: real, firstStart: real)
    requires total > target > 0.0
    ensures var r := Reconcile(parts, total, target, firstStart);
      r.Ok? && r.value.chunks[0] == Silence(0.0)
      && r.value.chunks[1..] == StretchByStages(Concat(parts), total / target).value.chunks
  {
    PositiveRatio(total, target);
  }

  // ---------------------------------------------------------------------
  // Outputs

  function AudioName(fn: string, language: string, audioFormat: string): string {
    fn + "_" + language + "." + audioFormat
  }

  function VideoName(fn: string, language: string): string {
    fn + "_" + language + ".mkv"
  }

  /**
   * With a video, the track is mixed into the video's sound (side-chained
   * when ducking); with `export_video` the video is saved, and with
   * `cleanup_audio` as well the mixed audio is then removed. Without a video
   * the track itself is exported.
   */
  function Outputs(fn: string, language: string, audioFormat: string, withVideo: bool, ducking: bool,
                   cleanup: bool, saveVideo: bool): (o: Output)
    ensures o.AudioOnly? <==> !withVideo
    ensures o.audio == AudioName(fn, language, audioFormat)
    ensures o.Mixed? ==> o.ducking == ducking && (o.video.Some? <==> saveVideo) && (o.keepAudio <==> !(saveVideo && cleanup))
  {
    if withVideo then
      Mixed(ducking, AudioName(fn, language, audioFormat), if saveVideo then Some(VideoName(fn, language)) else None,
            !(saveVideo && cleanup))
    else AudioOnly(AudioName(fn, language, audioFormat))
  }

  // ---------------------------------------------------------------------
  // Grouping the files of a directory

  /** A directory entry: its name and whether it is a regular file. */
  datatype Entry = Entry(name: string, isFile: bool)

  /** The `videos` dict: its keys in insertion order, and stem -> extension -> path. */
  datatype Videos = Videos(order: seq<string>, groups: map<string, map<string, string>>)

  /** An entry that is not excluded, is a file, and (with the flag) does not start with `_`. */
  predicate Kept(e: Entry, skipUnderscore: bool, exclude: set<string>) {
    e.name !in exclude && e.isFile && !(skipUnderscore && StartsWith(e.name, "_"))
  }

  /** Record one file: into its stem's inner map if the stem is known, else as a new stem. */
  function AddFile(v: Videos, dir: string, name: string): Videos {
    Insert(v, SplitExt(name).0, SplitExt(name).1, PathJoin(dir, name))
  }

  /** `videos[stem][ext] = path`, creating the stem's inner map when it is new. */
  function Insert(v: Videos, stem: string, ext: string, path: string): Videos {
    if stem in v.groups then Videos(v.order, v.groups[stem := v.groups[stem][ext := path]])
    else Videos(v.order + [stem], v.groups[stem := map[ext := path]])
  }

  /** The grouping of `entries`, entry by entry. */
  function Collect(dir: string, entries: seq<Entry>, skipUnderscore: bool, exclude: set<string>): Videos
    decreases |entries|
  {
    if entries == [] then Videos([], map[])
    else
      var v := Collect(dir, entries[..|entries| - 1], skipUnderscore, exclude);
      var e := entries[|entries| - 1];
      if Kept(e, skipUnderscore, exclude) then AddFile(v, dir, e.name) else v
  }

  /** Keys in order, each once, each with a non-empty inner map (so `videos.get(stem)` is truthy exactly for known stems). */
  ghost predicate WellFormed(v: Videos) {
    && (forall i, j :: 0 <= i < j < |v.order| ==> v.order[i] != v.order[j])
    && (forall s :: s in v.groups <==> s in v.order)
    && (forall s :: s in v.groups ==> v.groups[s] != map[])
  }

  lemma AddFileWellFormed(v: Videos, dir: string, name: string)
    requires WellFormed(v)
    ensures WellFormed(AddFile(v, dir, name))
  {
    InsertWellFormed(v, SplitExt(name).0, SplitExt(name).1, PathJoin(dir, name));
  }

  lemma InsertWellFormed(v: Videos, stem: string, ext: string, path: string)
    requires WellFormed(v)
    ensures WellFormed(Insert(v, stem, ext, path))
  {
    var w := Insert(v, stem, ext, path);
    assert ext in w.groups[stem];
    if stem !in v.groups {
      var o := v.order + [stem];
      forall i, j | 0 <= i < j < |o|
        ensures o[i] != o[j]
      {
        if j == |v.order| {
          assert o[i] in v.order;
        }
      }
    }
  }

  /** The grouping keeps its keys in first-seen order, once each, all with some file. */
  lemma {:induction false} CollectWellFormed(dir: string, entries: seq<Entry>, skipUnderscore: bool, exclude: set<string>)
    ensures WellFormed(Collect(dir, entries, skipUnderscore, exclude))
    decreases |entries|
  {
    if entries != [] {
      CollectWellFormed(dir, entries[..|entries| - 1], skipUnderscore, exclude);
      var e := entries[|entries| - 1];
      if Kept(e, skipUnderscore, exclude) {
        AddFileWellFormed(Collect(dir, entries[..|entries| - 1], skipUnderscore, exclude), dir, e.name);
      }
    }
  }

  /** Some kept entry splits into `stem` and `ext`. */
  ghost predicate Listed(entries: seq<Entry>, skipUnderscore: bool, exclude: set<string>, stem: string, ext: string) {
    exists i :: 0 <= i < |entries| && Kept(entries[i], skipUnderscore, exclude) && SplitExt(entries[i].name) == (stem, ext)
  }

  /** Recording one file adds exactly its own stem and extension, with its path, and keeps the others. */
  lemma AddFileFinds(v: Videos, dir: string, name: string, stem: string, ext: string)
    ensures var w := AddFile(v, dir, name);
      (stem in w.groups && ext in w.groups[stem])
        <==> (stem in v.groups && ext in v.groups[stem]) || SplitExt(name) == (stem, ext)
    ensures var w := AddFile(v, dir, name);
      SplitExt(name) == (stem, ext) ==> w.groups[stem][ext] == PathJoin(dir, stem + ext)
    ensures var w := AddFile(v, dir, name);
      SplitExt(name) != (stem, ext) && stem in v.groups && ext in v.groups[stem] ==> w.groups[stem][ext] == v.groups[stem][ext]
  {
    var (s, e) := SplitExt(name);
    InsertFinds(v, s, e, PathJoin(dir, name), stem, ext);
  }

  /** Inserting `path` under `s` and `e` adds exactly that key pair and keeps the others. */
  lemma InsertFinds(v: Videos, s: string, e: string, path: string, stem: string, ext: string)
    ensures var w := Insert(v, s, e, path);
      (stem in w.groups && ext in w.groups[stem])
        <==> (stem in v.groups && ext in v.groups[stem]) || (s, e) == (stem, ext)
    ensures var w := Insert(v, s, e, path);
      (s, e) == (stem, ext) ==> w.groups[stem][ext] == path
    ensures var w := Insert(v, s, e, path);
      (s, e) != (stem, ext) && stem in v.groups && ext in v.groups[stem] ==> w.groups[stem][ext] == v.groups[stem][ext]
  {
  }

  lemma ListedStep(entries: seq<Entry>, skipUnderscore: bool, exclude: set<string>, stem: string, ext: string)
    requires entries != []
    ensures var e := entries[|entries| - 1];
      Listed(entries, skipUnderscore, exclude, stem, ext) <==>
        (Listed(entries[..|entries| - 1], skipUnderscore, exclude, stem, ext)
         || (Kept(e, skipUnderscore, exclude) && SplitExt(e.name) == (stem, ext)))
  {
    var init := entries[..|entries| - 1];
    if Listed(init, skipUnderscore, exclude, stem, ext) {
      var i :| 0 <= i < |init| && Kept(init[i], skipUnderscore, exclude) && SplitExt(init[i].name) == (stem, ext);
      assert entries[i] == init[i];
    }
    if Listed(entries, skipUnderscore, exclude, stem, ext) {
      var i :| 0 <= i < |entries| && Kept(entries[i], skipUnderscore, exclude) && SplitExt(entries[i].name) == (stem, ext);
      if i < |init| {
        assert init[i] == entries[i];
      }
    }
  }

  /**
   * `videos[stem][ext]` exists exactly when some kept entry splits into
   * `stem` and `ext`, and it is that file's path in the directory: a
   * repeated stem adds to its inner map instead of replacing it.
   */
  lemma {:induction false} CollectFinds(dir: string, entries: seq<Entry>, skipUnderscore: bool, exclude: set<string>,
                                        stem: string, ext: string)
    ensures var v := Collect(dir, entries, skipUnderscore, exclude);
      (stem in v.groups && ext in v.groups[stem]) <==> Listed(entries, skipUnderscore, exclude, stem, ext)
    ensures var v := Collect(dir, entries, skipUnderscore, exclude);
      stem in v.groups && ext in v.groups[stem] ==> v.groups[stem][ext] == PathJoin(dir, stem + ext)
    decreases |entries|
  {
    if entries != [] {
      var init := entries[..|entries| - 1];
      var e := entries[|entries| - 1];
      CollectFinds(dir, init, skipUnderscore, exclude, stem, ext);
      ListedStep(entries, skipUnderscore, exclude, stem, ext);
      if Kept(e, skipUnderscore, exclude) {
        AddFileFinds(Collect(dir, init, skipUnderscore, exclude), dir, e.name, stem, ext);
      }
    }
  }

  /** `collect_videos`, over the names `os.listdir` gives and whether each is a file. */
  method CollectVideos(dir: string, entries: seq<Entry>, skipUnderscore: bool, exclude: set<string>)
    returns (videos: Videos)
    ensures videos == Collect(dir, entries, skipUnderscore, exclude)
  {
    videos := Videos([], map[]);
    var k := 0;
    while k < |entries|
      invariant 0 <= k <= |entries|
      invariant videos == Collect(dir, entries[..k], skipUnderscore, exclude)
    {
      assert entries[..k + 1][..k] == entries[..k];
      var file := entries[k];
      if Kept(file, skipUnderscore, exclude) {
        videos := AddFile(videos, dir, file.name);
      }
      k := k + 1;
    }
    assert entries[..k] == entries;
  }

  function Lookup(m: map<string, string>, key: string): (r: Option<string>)
    ensures r.Some? <==> key in m
    ensures r.Some? ==> r.value == m[key]
  {
    if key in m then Some(m[key]) else None
  }

  /** One `dub_one(fn, video, subtitles)` call. */
  datatype DubCall = DubCall(fn: string, targetVid: Option<string>, targetSub: Option<string>)

  // ---------------------------------------------------------------------
  // The dubber

  /** The fitted clips of every line, joined and reconciled with `lastEnd`. */
  function PlacedTrack(slots: seq<Slot>, clips: seq<Clip>, lastRight: real, align: real, lastEnd: real,
                       firstStart: real): Result<Clip, AudioError>
    requires |clips| == |slots|
  {
    match FitFrom(slots, clips, lastRight, align, 0, 0.0)
    case Err(e) => Err(e)
    case Ok(parts) => Reconcile(parts, SumDurations(parts), lastEnd, firstStart)
  }

  /** The fitting loop of `dub_one` followed by the reconciliation. */
  method PlaceClips(slots: seq<Slot>, clips: seq<Clip>, lastRight: real, align: real, lastEnd: real,
                    firstStart: real) returns (r: Result<Clip, AudioError>)
    requires |clips| == |slots|
    ensures r == PlacedTrack(slots, clips, lastRight, align, lastEnd, firstStart)
  {
    var fitted, total := FitAll(slots, clips, lastRight, align);
    if fitted.Err? {
      return Err(fitted.error);
    }
    r := ReconcileParts(fitted.value, total, lastEnd, firstStart);
  }

  /** With open windows, align >= 1 and a positive end, placing never fails and the track ends by `lastEnd`. */
  lemma PlacedTrackBound(slots: seq<Slot>, clips: seq<Clip>, lastRight: real, align: real, lastEnd: real,
                         firstStart: real)
    requires |clips| == |slots| && align >= 1.0 && OpenWindows(slots, lastRight)
    requires lastEnd > 0.0 && firstStart >= 0.0
    ensures PlacedTrack(slots, clips, lastRight, align, lastEnd, firstStart).Ok?
    ensures Duration(PlacedTrack(slots, clips, lastRight, align, lastEnd, firstStart).value) <= lastEnd
  {
    NeverOverruns(slots, clips, lastRight, align);
    var parts := FitFrom(slots, clips, lastRight, align, 0, 0.0).value;
    ReconcileBound(parts, SumDurations(parts), lastEnd, firstStart);
  }

  /** Lines that start at or after zero, one after another, the last before its end, leave every window open. */
  lemma OrderedWindowsOpen(subs: seq<Subtitles.Line>, lastRight: real)
    requires subs != [] && lastRight >= 0.0
    requires forall i :: 0 <= i < |subs| ==> subs[i].ms.start >= 0
    requires forall i :: 0 <= i < |subs| - 1 ==> subs[i].ms.start < subs[i + 1].ms.start
    requires subs[|subs| - 1].ms.start < subs[|subs| - 1].ms.end
    ensures OpenWindows(SlotsOf(subs), lastRight)
  {
    var slots := SlotsOf(subs);
    forall k | 0 <= k < |slots|
      ensures slots[k].start < WindowEnd(slots, lastRight, k)
    {
      if k + 1 < |slots| {
        assert subs[k].ms.start < subs[k + 1].ms.start;
      }
    }
  }

  /** The fitted and reconciled track of a non-empty transcript, given the last line's right border. */
  function TranscriptTrack(subs: seq<Subtitles.Line>, clips: seq<Clip>, lastRight: real, align: real)
    : Result<Clip, AudioError>
    requires subs != [] && |clips| == |subs|
  {
    PlacedTrack(SlotsOf(subs), clips, lastRight, align, subs[|subs| - 1].ms.end as real, subs[0].ms.start as real)
  }

  /** An ordered transcript is placed without failure, within its last subtitle's end, whatever its clips. */
  lemma OrderedPlacement(subs: seq<Subtitles.Line>, clips: seq<Clip>, lastRight: real, align: real)
    requires subs != [] && |clips| == |subs| && align >= 1.0 && lastRight >= 0.0
    requires forall i :: 0 <= i < |subs| ==> subs[i].ms.start >= 0
    requires forall i :: 0 <= i < |subs| - 1 ==> subs[i].ms.start < subs[i + 1].ms.start
    requires subs[|subs| - 1].ms.start < subs[|subs| - 1].ms.end
    ensures TranscriptTrack(subs, clips, lastRight, align).Ok?
    ensures Duration(TranscriptTrack(subs, clips, lastRight, align).value) <= subs[|subs| - 1].ms.end as real
  {
    OrderedWindowsOpen(subs, lastRight);
    PlacedTrackBound(SlotsOf(subs), clips, lastRight, align, subs[|subs| - 1].ms.end as real,
                     subs[0].ms.start as real);
  }

  /** Line `i` is the first whose text names an unknown voice. */
  ghost predicate FirstRejected(sp: Voicing.Speaker, subs: seq<Subtitles.Line>, i: int) {
    0 <= i < |subs| && Voicing.Rejected(sp, subs[i].text)
    && forall j :: 0 <= j < i ==> !Voicing.Rejected(sp, subs[j].text)
  }

  /** Voicing the lines fails exactly when one names an unknown voice, and then at the first such line. */
  lemma LinesFailAtFirstRejected(sp: Voicing.Speaker, st: Voicing.VoiceState, subs: seq<Subtitles.Line>)
    requires Voicing.Ready(sp, st)
    ensures var v := Voicing.VoiceAll(sp, st, Texts(subs));
      && (v.failure.Some? <==> exists i :: 0 <= i < |subs| && Voicing.Rejected(sp, subs[i].text))
      && (v.failure.Some? ==> FirstRejected(sp, subs, |v.clips|)
                              && v.failure.value == Voicing.Rejection(sp, subs[|v.clips|].text))
  {
    var texts := Texts(subs);
    Voicing.VoiceAllFailsIffRejected(sp, st, texts);
    Voicing.VoicedNotRejected(sp, st, texts);
    Voicing.StopsAtRejected(sp, st, texts);
    if exists i :: 0 <= i < |subs| && Voicing.Rejected(sp, subs[i].text) {
      var i :| 0 <= i < |subs| && Voicing.Rejected(sp, subs[i].text);
      assert Voicing.Rejected(sp, texts[i]);
    }
  }

  /** The `dub_one` arguments of `dub_dir`: one call per stem, in the order the stems were first seen. */
  function DirCalls(videos: Videos, videoFormat: string, subtitlesFormat: string): (calls: seq<DubCall>)
    requires forall s :: s in videos.order ==> s in videos.groups
    ensures |calls| == |videos.order|
    ensures forall i :: 0 <= i < |calls| ==>
      calls[i] == DubCall(videos.order[i], Lookup(videos.groups[videos.order[i]], videoFormat),
                          Lookup(videos.groups[videos.order[i]], subtitlesFormat))
  {
    seq(|videos.order|, i requires 0 <= i < |videos.order| =>
      DubCall(videos.order[i], Lookup(videos.groups[videos.order[i]], videoFormat),
              Lookup(videos.groups[videos.order[i]], subtitlesFormat)))
  }

  /** What `dub_dir` got done: the outcome of every call before the first that raised, and that error. */
  datatype DirRun<O, E> = DirRun(done: seq<O>, failure: Option<E>)

  /** `done` finished before the run `r`. */
  function Ahead<O, E>(done: seq<O>, r: (Voicing.VoiceState, DirRun<O, E>)): (Voicing.VoiceState, DirRun<O, E>) {
    (r.0, DirRun(done + r.1.done, r.1.failure))
  }

  /** `done` finished before a run that failed at once. */
  lemma AheadFailure<O, E>(done: seq<O>, st: Voicing.VoiceState, e: E)
    ensures Ahead(done, (st, DirRun([], Some(e)))) == (st, DirRun(done, Some(e)))
  {
    assert done + [] == done;
  }

  /** The call `c` between `a` and `b`, seen as the head of the rest. */
  lemma Regroup<T>(a: seq<T>, c: T, b: seq<T>)
    ensures a + [c] + b == a + ([c] + b)
    ensures ([c] + b)[0] == c
  {
  }

  lemma AheadNothing<O, E>(r: (Voicing.VoiceState, DirRun<O, E>))
    ensures Ahead([], r) == r
  {
    assert [] + r.1.done == r.1.done;
  }

  lemma AheadTwice<O, E>(x: seq<O>, y: seq<O>, r: (Voicing.VoiceState, DirRun<O, E>))
    ensures Ahead(x, Ahead(y, r)) == Ahead(x + y, r)
  {
    assert x + (y + r.1.done) == (x + y) + r.1.done;
  }

  class Dubber {
    const voicer: Voicing.Voicer
    const fitAlign: real
    const language: string
    const audioFormat: string
    const ducking: bool
    const sidechainLevelSc: real
    const sidechainFfmpegParams: string
    const cleanupAudio: bool
    const exportVideo: bool

    /**
     * `voicer` is the module's shared `VOICER`. The voice is handed to it
     * with `set_voice`; that call is not part of this class.
     */
    constructor(voicer: Voicing.Voicer, voice: string, language: string, audioFormat: string, ducking: bool,
                sidechainLevelSc: real, sidechainFfmpegParams: string, fitAlign: real := DefaultFitAlign,
                cleanupAudio: bool := true, exportVideo: bool := true)
      ensures this.voicer == voicer
      ensures this.fitAlign == fitAlign && this.language == language && this.audioFormat == audioFormat
      ensures this.ducking == ducking && this.sidechainLevelSc == sidechainLevelSc
      ensures this.sidechainFfmpegParams == sidechainFfmpegParams
      ensures this.cleanupAudio == cleanupAudio && this.exportVideo == exportVideo
    {
      this.voicer := voicer;
      this.language := language;
      this.audioFormat := audioFormat;
      this.fitAlign := fitAlign;
      this.ducking := ducking;
      this.sidechainLevelSc := sidechainLevelSc;
      this.sidechainFfmpegParams := sidechainFfmpegParams;
      this.cleanupAudio := cleanupAudio;
      this.exportVideo := exportVideo;
    }

    /**
     * The dubbed track of a parsed, non-empty transcript from its voiced
     * clips: the trailing boundary, one fitted clip per line, then the
     * reconciliation with the last subtitle's end.
     */
    function Track(subs: seq<Subtitles.Line>, withVideo: bool, videoMs: real, clips: seq<Clip>)
      : Result<Clip, AudioError>
      requires subs != [] && |clips| == |subs|
    {
      var lastEnd := subs[|subs| - 1].ms.end as real;
      TranscriptTrack(subs, clips, TrailingBoundary(if withVideo then Some(videoMs) else None, lastEnd) - lastEnd, fitAlign)
    }

    /** Dubbing a parsed, non-empty, voiced transcript: the track, then the outputs. */
    function DubLines(fn: string, subs: seq<Subtitles.Line>, withVideo: bool, videoMs: real, clips: seq<Clip>,
                      cleanup: bool, saveVideo: bool): (r: Result<Outcome, DubError>)
      requires subs != [] && |clips| == |subs|
      ensures r.Ok? ==> r.value.Dubbed?
      ensures r.Err? <==> Track(subs, withVideo, videoMs, clips).Err?
      ensures r.Err? ==> r.error.AudioFailed?
    {
      match Track(subs, withVideo, videoMs, clips)
      case Err(e) => Err(AudioFailed(e))
      case Ok(track) => Ok(Dubbed(track, Outputs(fn, language, audioFormat, withVideo, ducking, cleanup, saveVideo)))
    }

    /**
     * `dub_one(fn, target_vid, target_sub, cleanup_audio, export_video)`
     * with the voicer in state `st`: the outcome and the voicer's state
     * afterwards. `subtitleText` is the text `parse(target_sub)` reads and
     * `videoMs` the length ffmpeg reports for the video. Only voicing changes
     * the voicer, and a call that raises before voicing leaves it alone.
     */
    function DubResult(fn: string, targetVid: Option<string>, targetSub: Option<string>, subtitleText: string,
                       videoMs: real, sp: Voicing.Speaker, st: Voicing.VoiceState,
                       cleanupAudio: Option<bool>, exportVideo: Option<bool>)
      : (r: (Voicing.VoiceState, Result<Outcome, DubError>))
      requires Voicing.Ready(sp, st)
      ensures Voicing.Ready(sp, r.0)
      ensures (r.1.Ok? && r.1.value.Skipped?) || (r.1.Err? && !r.1.error.VoiceFailed? && !r.1.error.AudioFailed?)
              ==> r.0 == st
    {
      if targetVid.None? && targetSub.None? then (st, Ok(Skipped))
      else if targetSub.None? then (st, Err(NoSubtitlePath))
      else
        match Subtitles.ParseSpec(subtitleText)
        case Err(e) => (st, Err(ParseFailed(e)))
        case Ok(subs) =>
          if subs == [] then (st, Err(EmptyTranscript))
          else
            var v := Voicing.VoiceAll(sp, st, Texts(subs));
            if v.failure.Some? then (v.state, Err(VoiceFailed(v.failure.value)))
            else (v.state, DubLines(fn, subs, Given(targetVid), videoMs, v.clips,
                                    cleanupAudio.GetOr(this.cleanupAudio), exportVideo.GetOr(this.exportVideo)))
    }

    method DubOne(fn: string, targetVid: Option<string>, targetSub: Option<string>, subtitleText: string,
                  videoMs: real, cleanupAudio: Option<bool>, exportVideo: Option<bool>)
      returns (r: Result<Outcome, DubError>)
      requires voicer.Valid()
      modifies voicer
      ensures voicer.Valid()
      ensures (voicer.State(), r)
           == DubResult(fn, targetVid, targetSub, subtitleText, videoMs, voicer.Config(), old(voicer.State()),
                        cleanupAudio, exportVideo)
    {
      if targetVid.None? && targetSub.None? {
        return Ok(Skipped);
      }
      var cleanup := if cleanupAudio.None? then this.cleanupAudio else cleanupAudio.value;
      var saveVideo := if exportVideo.None? then this.exportVideo else exportVideo.value;
      if targetSub.None? {
        return Err(NoSubtitlePath);
      }
      var parsed := Subtitles.Parse(subtitleText, false);
      if parsed.Err? {
        return Err(ParseFailed(parsed.error));
      }
      var subs := parsed.value;
      if subs == [] {
        return Err(EmptyTranscript);
      }
      var clips, failure := VoiceLines(voicer, subs);
      if failure.Some? {
        return Err(VoiceFailed(failure.value));
      }
      r := DubParsed(fn, subs, Given(targetVid), videoMs, clips, cleanup, saveVideo);
    }

    /** The part of `dub_one` after voicing, as statements. */
    method DubParsed(fn: string, subs: seq<Subtitles.Line>, withVideo: bool, videoMs: real, clips: seq<Clip>,
                     cleanup: bool, saveVideo: bool) returns (r: Result<Outcome, DubError>)
      requires subs != [] && |clips| == |subs|
      ensures r == DubLines(fn, subs, withVideo, videoMs, clips, cleanup, saveVideo)
    {
      var track := PlaceTrack(subs, withVideo, videoMs, clips);
      if track.Err? {
        return Err(AudioFailed(track.error));
      }
      r := Ok(Dubbed(track.value, Outputs(fn, language, audioFormat, withVideo, ducking, cleanup, saveVideo)));
    }

    /** The boundary, the fitting loop and the reconciliation of `dub_one`, step by step. */
    method PlaceTrack(subs: seq<Subtitles.Line>, withVideo: bool, videoMs: real, clips: seq<Clip>)
      returns (r: Result<Clip, AudioError>)
      requires subs != [] && |clips| == |subs|
      ensures r == Track(subs, withVideo, videoMs, clips)
    {
      var lastEnd := subs[|subs| - 1].ms.end as real;
      var border := TrailingBoundary(if withVideo then Some(videoMs) else None, lastEnd);
      var slots := SlotsOf(subs);
      r := PlaceClips(slots, clips, border - lastEnd, fitAlign, lastEnd, subs[0].ms.start as real);
      TrackSteps(subs, withVideo, videoMs, clips);
    }

    /** `Track` in terms of the boundary, the slots and the voiced clips. */
    lemma TrackSteps(subs: seq<Subtitles.Line>, withVideo: bool, videoMs: real, clips: seq<Clip>)
      requires subs != [] && |clips| == |subs|
      ensures var lastEnd := subs[|subs| - 1].ms.end as real;
        Track(subs, withVideo, videoMs, clips)
        == PlacedTrack(SlotsOf(subs), clips,
                       TrailingBoundary(if withVideo then Some(videoMs) else None, lastEnd) - lastEnd,
                       fitAlign, lastEnd, subs[0].ms.start as real)
    {
    }

    /** Nothing is done exactly when neither a video nor a subtitle path is given. */
    lemma SkipsOnlyWithoutPaths(fn: string, targetVid: Option<string>, targetSub: Option<string>, subtitleText: string,
                                videoMs: real, sp: Voicing.Speaker, st: Voicing.VoiceState,
                                cleanupAudio: Option<bool>, exportVideo: Option<bool>)
      requires Voicing.Ready(sp, st)
      ensures DubResult(fn, targetVid, targetSub, subtitleText, videoMs, sp, st, cleanupAudio, exportVideo).1 == Ok(Skipped)
          <==> targetVid.None? && targetSub.None?
    {
      var o := DubResult(fn, targetVid, targetSub, subtitleText, videoMs, sp, st, cleanupAudio, exportVideo);
      if targetSub.Some? && Subtitles.ParseSpec(subtitleText).Ok? {
        var subs := Subtitles.ParseSpec(subtitleText).value;
        if subs != [] {
          var v := Voicing.VoiceAll(sp, st, Texts(subs));
          if v.failure.None? {
            var d := DubLines(fn, subs, Given(targetVid), videoMs, v.clips,
                              cleanupAudio.GetOr(this.cleanupAudio), exportVideo.GetOr(this.exportVideo));
            assert o.1 == d;
          }
        }
      }
    }

    /** A transcript without a single line fails before any voicing or fitting. */
    lemma EmptyTranscriptFails(fn: string, targetVid: Option<string>, targetSub: Option<string>, subtitleText: string,
                               videoMs: real, sp: Voicing.Speaker, st: Voicing.VoiceState,
                               cleanupAudio: Option<bool>, exportVideo: Option<bool>)
      requires Voicing.Ready(sp, st)
      requires targetSub.Some? && Subtitles.ParseSpec(subtitleText) == Ok([])
      ensures DubResult(fn, targetVid, targetSub, subtitleText, videoMs, sp, st, cleanupAudio, exportVideo)
           == (st, Err(EmptyTranscript))
    {
    }

    /**
     * A transcript fails in voicing exactly when one of its lines opens with
     * a directive naming an unknown voice, and then with the first such
     * line's voice.
     */
    lemma UnknownVoiceFails(fn: string, targetVid: Option<string>, targetSub: Option<string>, subtitleText: string,
                            videoMs: real, sp: Voicing.Speaker, st: Voicing.VoiceState,
                            cleanupAudio: Option<bool>, exportVideo: Option<bool>, subs: seq<Subtitles.Line>)
      requires Voicing.Ready(sp, st)
      requires targetSub.Some? && Subtitles.ParseSpec(subtitleText) == Ok(subs) && subs != []
      ensures var r := DubResult(fn, targetVid, targetSub, subtitleText, videoMs, sp, st, cleanupAudio, exportVideo).1;
        && (r.Err? && r.error.VoiceFailed? <==> exists i :: 0 <= i < |subs| && Voicing.Rejected(sp, subs[i].text))
        && (r.Err? && r.error.VoiceFailed? ==>
              exists i :: 0 <= i < |subs| && FirstRejected(sp, subs, i)
                && r.error.voiceError == Voicing.Rejection(sp, subs[i].text))
    {
      var v := Voicing.VoiceAll(sp, st, Texts(subs));
      LinesFailAtFirstRejected(sp, st, subs);
      var r := DubResult(fn, targetVid, targetSub, subtitleText, videoMs, sp, st, cleanupAudio, exportVideo).1;
      assert v.failure.Some? ==> r == Err(VoiceFailed(v.failure.value));
      assert v.failure.None? ==> r == DubLines(fn, subs, Given(targetVid), videoMs, v.clips,
                                               cleanupAudio.GetOr(this.cleanupAudio), exportVideo.GetOr(this.exportVideo));
    }

    /**
     * With align >= 1, a transcript whose lines start at or after zero,
     * strictly one after another, the last one before its end, never fails
     * once voiced: every clip stays in its window and the whole track is at
     * most as long as the last subtitle's end.
     */
    lemma OrderedTranscriptDubs(fn: string, subs: seq<Subtitles.Line>, withVideo: bool, videoMs: real,
                                clips: seq<Clip>, cleanup: bool, saveVideo: bool)
      requires subs != [] && |clips| == |subs| && fitAlign >= 1.0
      requires forall i :: 0 <= i < |subs| ==> subs[i].ms.start >= 0
      requires forall i :: 0 <= i < |subs| - 1 ==> subs[i].ms.start < subs[i + 1].ms.start
      requires subs[|subs| - 1].ms.start < subs[|subs| - 1].ms.end
      ensures DubLines(fn, subs, withVideo, videoMs, clips, cleanup, saveVideo).Ok?
      ensures var o := DubLines(fn, subs, withVideo, videoMs, clips, cleanup, saveVideo).value;
        o.Dubbed? && Duration(o.track) <= subs[|subs| - 1].ms.end as real
    {
      OrderedTrackFits(subs, withVideo, videoMs, clips);
    }

    /** The track half of `OrderedTranscriptDubs`. */
    lemma OrderedTrackFits(subs: seq<Subtitles.Line>, withVideo: bool, videoMs: real, clips: seq<Clip>)
      requires subs != [] && |clips| == |subs| && fitAlign >= 1.0
      requires forall i :: 0 <= i < |subs| ==> subs[i].ms.start >= 0
      requires forall i :: 0 <= i < |subs| - 1 ==> subs[i].ms.start < subs[i + 1].ms.start
      requires subs[|subs| - 1].ms.start < subs[|subs| - 1].ms.end
      ensures Track(subs, withVideo, videoMs, clips).Ok?
      ensures Duration(Track(subs, withVideo, videoMs, clips).value) <= subs[|subs| - 1].ms.end as real
    {
      var lastEnd := subs[|subs| - 1].ms.end as real;
      var border := TrailingBoundary(if withVideo then Some(videoMs) else None, lastEnd);
      TrackOfTranscript(subs, withVideo, videoMs, clips);
      OrderedPlacement(subs, clips, border - lastEnd, fitAlign);
    }

    lemma TrackOfTranscript(subs: seq<Subtitles.Line>, withVideo: bool, videoMs: real, clips: seq<Clip>)
      requires subs != [] && |clips| == |subs|
      ensures var lastEnd := subs[|subs| - 1].ms.end as real;
        Track(subs, withVideo, videoMs, clips)
        == TranscriptTrack(subs, clips, TrailingBoundary(if withVideo then Some(videoMs) else None, lastEnd) - lastEnd, fitAlign)
    {
    }

    /**
     * One call of `dub_dir`: the subtitle text is what `files` holds for the
     * subtitle path, the video's length what `lengths` gives for its path.
     */
    function CallResult(c: DubCall, files: string -> string, lengths: string -> real,
                        sp: Voicing.Speaker, st: Voicing.VoiceState): (r: (Voicing.VoiceState, Result<Outcome, DubError>))
      requires Voicing.Ready(sp, st)
      ensures Voicing.Ready(sp, r.0)
    {
      DubResult(c.fn, c.targetVid, c.targetSub, files(c.targetSub.GetOr("")),
                if Given(c.targetVid) then lengths(c.targetVid.value) else 0.0, sp, st, None, None)
    }

    /**
     * `dub_dir` over `calls`: the calls in order, the voicer's state carried
     * from each to the next; the first call that raises ends the run.
     */
    function DirResult(calls: seq<DubCall>, files: string -> string, lengths: string -> real,
                       sp: Voicing.Speaker, st: Voicing.VoiceState): (r: (Voicing.VoiceState, DirRun<Outcome, DubError>))
      requires Voicing.Ready(sp, st)
      ensures Voicing.Ready(sp, r.0)
      ensures |r.1.done| <= |calls|
      ensures r.1.failure.None? <==> |r.1.done| == |calls|
      decreases |calls|
    {
      if calls == [] then (st, DirRun([], None))
      else
        var first := CallResult(calls[0], files, lengths, sp, st);
        match first.1
        case Err(e) => (first.0, DirRun([], Some(e)))
        case Ok(o) => Ahead([o], DirResult(calls[1..], files, lengths, sp, first.0))
    }

    /** A run after its first call. */
    lemma DirResultFirst(calls: seq<DubCall>, files: string -> string, lengths: string -> real, sp: Voicing.Speaker,
                         st: Voicing.VoiceState, next: Voicing.VoiceState, o: Result<Outcome, DubError>)
      requires Voicing.Ready(sp, st) && calls != [] && (next, o) == CallResult(calls[0], files, lengths, sp, st)
      ensures Voicing.Ready(sp, next)
      ensures o.Err? ==> DirResult(calls, files, lengths, sp, st) == (next, DirRun([], Some(o.error)))
      ensures o.Ok? ==> DirResult(calls, files, lengths, sp, st) == Ahead([o.value], DirResult(calls[1..], files, lengths, sp, next))
    {
    }

    /** The step of the loop of `dub_dir`, `done` holding the outcomes of the calls before the `k`-th. */
    lemma DirResultNext(calls: seq<DubCall>, k: nat, done: seq<Outcome>, files: string -> string, lengths: string -> real,
                        sp: Voicing.Speaker, start: Voicing.VoiceState, before: Voicing.VoiceState,
                        next: Voicing.VoiceState, o: Result<Outcome, DubError>)
      requires Voicing.Ready(sp, start) && Voicing.Ready(sp, before) && k < |calls|
      requires DirResult(calls, files, lengths, sp, start) == Ahead(done, DirResult(calls[k..], files, lengths, sp, before))
      requires (next, o) == CallResult(calls[k], files, lengths, sp, before)
      ensures Voicing.Ready(sp, next)
      ensures o.Err? ==> DirResult(calls, files, lengths, sp, start) == (next, DirRun(done, Some(o.error)))
      ensures o.Ok? ==>
        DirResult(calls, files, lengths, sp, start) == Ahead(done + [o.value], DirResult(calls[k + 1..], files, lengths, sp, next))
    {
      assert calls[k..][0] == calls[k] && calls[k..][1..] == calls[k + 1..];
      DirResultFirst(calls[k..], files, lengths, sp, before, next, o);
      if o.Err? {
        assert done + [] == done;
      } else {
        AheadTwice(done, [o.value], DirResult(calls[k + 1..], files, lengths, sp, next));
      }
    }

    /** The start and the end of that loop. */
    lemma DirResultEnds(calls: seq<DubCall>, done: seq<Outcome>, files: string -> string, lengths: string -> real,
                        sp: Voicing.Speaker, start: Voicing.VoiceState, last: Voicing.VoiceState)
      requires Voicing.Ready(sp, start) && Voicing.Ready(sp, last)
      ensures DirResult(calls, files, lengths, sp, start) == Ahead([], DirResult(calls[0..], files, lengths, sp, start))
      ensures DirResult(calls, files, lengths, sp, start) == Ahead(done, DirResult(calls[|calls|..], files, lengths, sp, last))
           ==> DirResult(calls, files, lengths, sp, start) == (last, DirRun(done, None))
    {
      assert calls[0..] == calls && calls[|calls|..] == [] && done + [] == done;
      AheadNothing(DirResult(calls, files, lengths, sp, start));
    }

    /**
     * Running `a + b` is running `a`, then `b` from the voicer state `a`
     * left; when a call of `a` raises, no call of `b` is made.
     */
    lemma {:induction false} DirResultSplit(a: seq<DubCall>, b: seq<DubCall>, files: string -> string,
                                            lengths: string -> real, sp: Voicing.Speaker, st: Voicing.VoiceState)
      requires Voicing.Ready(sp, st)
      ensures var ra := DirResult(a, files, lengths, sp, st);
        && (ra.1.failure.Some? ==> DirResult(a + b, files, lengths, sp, st) == ra)
        && (ra.1.failure.None? ==>
              DirResult(a + b, files, lengths, sp, st) == Ahead(ra.1.done, DirResult(b, files, lengths, sp, ra.0)))
      decreases |a|
    {
      if a == [] {
        assert a + b == b;
        AheadNothing(DirResult(b, files, lengths, sp, st));
      } else {
        var ab := a + b;
        assert ab[0] == a[0] && ab[1..] == a[1..] + b;
        var first := CallResult(a[0], files, lengths, sp, st);
        DirResultFirst(a, files, lengths, sp, st, first.0, first.1);
        DirResultFirst(ab, files, lengths, sp, st, first.0, first.1);
        if first.1.Ok? {
          var o := first.1.value;
          DirResultSplit(a[1..], b, files, lengths, sp, first.0);
          var ra := DirResult(a[1..], files, lengths, sp, first.0);
          var whole := DirResult(a, files, lengths, sp, st);
          assert whole == Ahead([o], ra);
          if ra.1.failure.None? {
            var rb := DirResult(b, files, lengths, sp, ra.0);
            AheadTwice([o], ra.1.done, rb);
            calc {
              DirResult(ab, files, lengths, sp, st);
              Ahead([o], DirResult(a[1..] + b, files, lengths, sp, first.0));
              Ahead([o], Ahead(ra.1.done, rb));
              Ahead([o] + ra.1.done, rb);
            }
            assert whole.1.done == [o] + ra.1.done && whole.0 == ra.0;
          }
        }
      }
    }

    /**
     * A stem with a video but no subtitle raises in `Path(None)`: the stems
     * before it are dubbed, the ones after it are never reached.
     */
    lemma UnpairedVideoEndsDir(a: seq<DubCall>, c: DubCall, b: seq<DubCall>, files: string -> string,
                               lengths: string -> real, sp: Voicing.Speaker, st: Voicing.VoiceState)
      requires Voicing.Ready(sp, st)
      requires DirResult(a, files, lengths, sp, st).1.failure.None?
      requires c.targetVid.Some? && c.targetSub.None?
      ensures DirResult(a + [c] + b, files, lengths, sp, st).1
           == DirRun(DirResult(a, files, lengths, sp, st).1.done, Some(NoSubtitlePath))
    {
      var ra := DirResult(a, files, lengths, sp, st);
      Regroup(a, c, b);
      DirResultSplit(a, [c] + b, files, lengths, sp, st);
      var first := CallResult(c, files, lengths, sp, ra.0);
      DirResultFirst([c] + b, files, lengths, sp, ra.0, first.0, first.1);
      AheadFailure(ra.1.done, first.0, NoSubtitlePath);
    }

    /**
     * `dub_dir(videos, video_format, subtitles_format)`: one `dub_one` call
     * per stem, in the order the stems were first seen, until one raises.
     */
    method DubDir(videos: Videos, videoFormat: string, subtitlesFormat: string, files: string -> string,
                  lengths: string -> real) returns (r: DirRun<Outcome, DubError>)
      requires forall s :: s in videos.order ==> s in videos.groups
      requires voicer.Valid()
      modifies voicer
      ensures voicer.Valid()
      ensures (voicer.State(), r)
           == DirResult(DirCalls(videos, videoFormat, subtitlesFormat), files, lengths, voicer.Config(), old(voicer.State()))
    {
      var calls := DirCalls(videos, videoFormat, subtitlesFormat);
      ghost var start := voicer.State();
      var done: seq<Outcome> := [];
      DirResultEnds(calls, done, files, lengths, voicer.Config(), start, start);
      for k := 0 to |calls|
        invariant voicer.Valid()
        invariant DirResult(calls, files, lengths, voicer.Config(), start)
               == Ahead(done, DirResult(calls[k..], files, lengths, voicer.Config(), voicer.State()))
      {
        var c := calls[k];
        ghost var before := voicer.State();
        var o := DubOne(c.fn, c.targetVid, c.targetSub, files(c.targetSub.GetOr("")),
                        if Given(c.targetVid) then lengths(c.targetVid.value) else 0.0, None, None);
        DirResultNext(calls, k, done, files, lengths, voicer.Config(), start, before, voicer.State(), o);
        if o.Err? {
          return DirRun(done, Some(o.error));
        }
        done := done + [o.value];
      }
      DirResultEnds(calls, done, files, lengths, voicer.Config(), start, voicer.State());
      r := DirRun(done, None);
    }
  }

  /** A stem whose files include neither format is passed over by `dub_one`, and the voicer is untouched. */
  lemma StemWithoutFormatsSkipped(d: Dubber, c: DubCall, files: string -> string, lengths: string -> real,
                                  sp: Voicing.Speaker, st: Voicing.VoiceState)
    requires Voicing.Ready(sp, st)
    requires c.targetVid.None? && c.targetSub.None?
    ensures d.CallResult(c, files, lengths, sp, st) == (st, Ok(Skipped))
  {
  }
}
