# FastDub in Dafny

FastDub dubs videos from their subtitles. It reads an SRT transcript and
voices every line with a text-to-speech engine. Each voiced clip is fitted
into the line's window: it is sped up when it is too long, and silence is put
before it. The clips are then joined into one track, which is reconciled with
the last subtitle's end and mixed into the video. The program can also fetch
the videos and their captions from YouTube first. The repository holds two
generations of the program: the newer `fastdub` package and the older
`FastDub` package. This project models the core of both in Dafny and proves
properties of the model.

- `audio.dfy` (`Audio`): clips as sequences of timed chunks, `append`,
  `speed_change`, the `atempo` stage chain of `calc_speed_change_ffmpeg_arg`,
  and `fit`.
- `srt_text.dfy` (`SrtText`): the block separator `LINE_REGEX.split`,
  `strptime(..., '%H:%M:%S,%f')`, and `ms_to_srt_time`.
- `subtitles.dfy` (`Subtitles`): `TimeLabel`, `Line`, `parse` and `unparse`
  of the newer package.
- `legacy_subtitles.dfy` (`LegacySubtitles`): the older `Line`/`parse`,
  whose times are real milliseconds, and the older `from_json` loop.
- `youtube_subtitles.dfy` (`YoutubeSubtitles`): `_float_to_srt_time_format`,
  `_from_json`, `find_caption_num` and the request choice of `download_srt`.
  `_float_to_srt_time_format` has the same text in
  fastdub/youtube/subtitles.py:31-33, FastDub/YT/Subtitles.py:16-18 and
  FastDub/SrtSubtitles.py:49-52. `YoutubeSubtitles.FloatToSrtTimeFormat`
  models all three, and both `_from_json` functions and the older `from_json`
  use it.
- `placement.dfy` (`Placement`): the fitting loop shared by both dubbers.
- `dubber.py` and `Dubber.py` models:
  - `dubber.dfy` (`Dubbing`): `collect_videos`, `dub_dir` and `dub_one` of
    the newer dubber;
  - `legacy_dubber.dfy` (`LegacyDubbing`): the older dubber, with lemmas that
    compare the two.
- `voicing.dfy` (`Voicing`): both voicers, namely voice selection, the
  `!:` voice directive and the synthesis cache, and a run of `voice` calls
  that carries the voice and the cache from one text to the next.
- `pretty_view.dfy` (`PrettyView`): `PrettyViewPrefix`.
- `cli.dfy` (`Cli`): both `BooleanOptionalAction`s, `_thread_count_type`,
  and the normalisation of the formats and of the search query.
- `youtube_download.dfy` (`YouTubeDownload`): both `DownloadYTVideo`
  downloaders, `_path_save` and `with_api_key`.
- `wrappers.dfy`, `text.dfy` and `paths.dfy` hold `Option`/`Result` and the
  Python string and path built-ins the core relies on (`strip`, `split`,
  `str(int)`, `os.path.splitext`, `os.path.join`, `os.path.dirname`).

The following inputs are parameters of the model:

- the clip the speech engine produces for a text and a voice, and the hash
  that names a cached clip;
- the video's length as ffmpeg reports it;
- the text of a subtitle file;
- the entries of a directory listing;
- the caption tracks and captions YouTube returns;
- the listing a YouTube lookup answers;
- the outcome of a call made with each API key;
- the processor count.

Where the code and its description disagree, the model follows the code.
For example, `fit` puts `(free - duration) / align` of silence before any
clip that runs past `need + right`, also after a speed-up. The `Findings`
section lists the places where the code is evidently not what was intended.

## Model

| member | source | states |
|---|---|---|
| Audio.ChunksDuration | fastdub/audio.py:24 | a clip's length is the sum of its chunks' lengths and is never negative |
| Audio.Append | fastdub/audio.py:26-32 | `a + b` plays `a` then `b`; its length is the sum of both lengths |
| Audio.Silent | fastdub/audio.py:69-72 | `AudioSegment.silent(ms)` lasts `ms` when `ms` is positive, and nothing otherwise |
| Audio.Concat | FastDub/Dubber.py:95-98 | joining clips in order gives a clip whose length is the sum of the parts' lengths |
| Audio.SpeedStages | fastdub/audio.py:53-59 | the `atempo` chain fails exactly for a non-positive ratio; otherwise its stages are equal roots of the ratio, at least one, each within atempo's range |
| Audio.SpeedStagesSingle | fastdub/audio.py:54-55 | a ratio in [0.5, 100] is a single stage: the ratio itself |
| Audio.SpeedStagesTwo | fastdub/audio.py:56-57 | a ratio in [0.25, 10000] outside [0.5, 100] is two square-root stages |
| Audio.SpeedStagesCascade | fastdub/audio.py:58-59 | any other positive ratio is p >= 3 equal stages, with p = ceil(log ratio) to base 100 above the range and base 0.5 below it |
| Audio.CascadePower | fastdub/audio.py:58 | the power is the least one whose root of the ratio lies within atempo's range |
| Audio.SpeedChange | fastdub/audio.py:35-50 | ratio 1 returns the clip unchanged; a ratio <= 0 is a ValueError; otherwise the result's length times the ratio is the original length |
| Audio.StretchByStages | fastdub/audio.py:47-48 | the `-af` filter fails with a math domain error exactly for a non-positive ratio; otherwise the result's length times the ratio is the original length |
| Audio.StretchFailsWithItsStages | fastdub/audio.py:47-48 | the filter fails exactly when its stage chain cannot be built, with the same error |
| Audio.FitNeverSqueezesWhatFits | fastdub/audio.py:66-72 | a clip no longer than left + need + right is never sped up: the result ends with the clip itself |
| Audio.FitKeepsLeftBorder | fastdub/audio.py:69-72 | a clip within need + right gets exactly `left_border` of silence before it |
| Audio.FitSpillsIntoLeftGap | fastdub/audio.py:69-72 | a clip that spills past need + right but fits the window gets (free - duration)/align of silence; with align 1 it ends exactly at the window's end |
| Audio.FitSqueezesToWindow | fastdub/audio.py:66-68 | a clip longer than a positive window is sped up by duration/free and then lasts exactly free |
| Audio.FitFailsOnNonPositiveWindow | fastdub/audio.py:66-67 | a clip longer than a window of zero or less raises (division by zero, or a non-positive speed) |
| Audio.FitWithinWindow | fastdub/audio.py:62-72 | with align >= 1 and a positive window, the fitted clip never outlasts left + need + right |
| SrtText.SplitFramed | fastdub/subtitles.py:16 | splitting numbered blocks at `\n\n^\d+$\n` gives the text before them and every block body, in order |
| SrtText.ParseClock | fastdub/subtitles.py:81-83 | a time that `strptime('%H:%M:%S,%f')` accepts has hours < 24, minutes and seconds < 60, and microseconds < 10^6 |
| SrtText.TimeFieldsSum | fastdub/subtitles.py:19-22 | the divmod fields add back up to `ms`; minutes and seconds are below 60 and milliseconds below 1000 |
| SrtText.MsToSrtTimeFields | fastdub/subtitles.py:19-23 | for ms >= 0 the rendered text is `H:MM:SS,mmm` with zero-padded fields worth exactly `ms` |
| SrtText.SrtTimeChars | fastdub/subtitles.py:19-23 | a rendered time holds only digits, signs, `:` and `,` |
| SrtText.ParseSrtTime | fastdub/subtitles.py:19-23 | `ms_to_srt_time` reads back through `strptime` exactly when 0 <= ms < 24 h, and then to the same milliseconds |
| Subtitles.TimeLabel.TimeStr | fastdub/subtitles.py:33 | `time_str` splits at ` --> ` into the decimal start and end |
| Subtitles.CalcMsLabel | fastdub/subtitles.py:49-53 | a label's milliseconds are `int()` of the real sum h·3600000 + m·60000 + s·1000 + µs/1000: at most the sum and less than one below it |
| Subtitles.LineOf | fastdub/subtitles.py:44-46 | a line starts at its first label, ends at its last label and keeps its text |
| Subtitles.ParseTimes | fastdub/subtitles.py:81-83 | a time line gives one or two labels, split at the first ` --> `, or a timestamp error |
| Subtitles.ParseBlockOutcomes | fastdub/subtitles.py:77-83 | a block without a newline is an IndexError; a text that strips to nothing is skipped; otherwise the result is the line with the stripped text, or the time's error |
| Subtitles.ParsedTextsStripped | fastdub/subtitles.py:78-80 | every parsed line has a non-empty, stripped text |
| Subtitles.SkipEmptyIsNoOp | fastdub/subtitles.py:84 | `skip_empty` removes nothing from lines whose texts are non-empty once stripped, as every parsed line's is; the older parse uses the same lemma |
| Subtitles.Parse | fastdub/subtitles.py:65-84 | the loop over the pieces computes the parse: the first failing block decides, skipped blocks add nothing |
| Subtitles.SortByStartPermutes | fastdub/subtitles.py:89 | sorting by start is a permutation of the lines |
| Subtitles.SortByStartSorted | fastdub/subtitles.py:89 | the sorted lines are ordered by start |
| Subtitles.SortByStartStable | fastdub/subtitles.py:89 | lines with equal starts keep their relative order |
| Subtitles.WrittenThenParse | fastdub/subtitles.py:87-89 | lines within a day with non-empty stripped texts, none holding a blank line followed by a digits-only line, written as numbered blocks, parse back as themselves |
| Subtitles.UnparseThenParse | fastdub/subtitles.py:65-89 | round trip: `parse(unparse(lines))` gives back the lines sorted by start, for lines within a day whose non-empty stripped texts hold no blank line followed by a digits-only line |
| Subtitles.BlankLineTextRoundTrips | fastdub/subtitles.py:76-89 | a text holding a blank line (`a\n\nb`) still round-trips: only a blank line followed by a number line separates blocks |
| Subtitles.SortByStart | fastdub/subtitles.py:89 | sorting keeps the number of lines (its order is stated by the three lemmas below) |
| LegacySubtitles.LabelMs | FastDub/Subtitles.py:35-41 | the older milliseconds keep the fraction: their floor is the newer truncated value |
| LegacySubtitles.LineOf | FastDub/Subtitles.py:34-43 | an older line, truncated, is the line the newer `Line` builds from the same labels |
| LegacySubtitles.DurationNearTruncated | FastDub/Subtitles.py:25-26 | the real duration is within one millisecond of the truncated duration |
| LegacySubtitles.ParseAgrees | FastDub/Subtitles.py:51-71 | the older `parse` fails exactly when the newer one does, and otherwise gives the same lines up to truncation |
| LegacySubtitles.Parse | FastDub/SrtSubtitles.py:66-75 | the older parse loop computes the older parse |
| LegacySubtitles.AccumulatedCaptions | FastDub/SrtSubtitles.py:78-85 | the accumulated text, with its leading newlines stripped, is the newer joined text |
| LegacySubtitles.FromJson | FastDub/SrtSubtitles.py:78-85 | `from_json` writes the same text as the newer `_from_json`, and nothing when `translation` is missing |
| YoutubeSubtitles.FloatFormatIsDayTime | fastdub/youtube/subtitles.py:31-33 | the gmtime rendering is `ms_to_srt_time` of the time within its day |
| YoutubeSubtitles.FloatFormatReadsBack | fastdub/youtube/subtitles.py:31-33 | every rendered time reads back through `strptime`, to the milliseconds within its day |
| YoutubeSubtitles.FromJsonOpening | fastdub/youtube/subtitles.py:36-41 | no captions give the empty text; otherwise the text opens with the number 1 |
| YoutubeSubtitles.EnumeratedAt | FastDub/YT/Subtitles.py:21-26 | caption `i` is written as block number `i + 1` |
| YoutubeSubtitles.FromJsonThenParse | fastdub/youtube/subtitles.py:36-41 | captions within a day with stripped, non-empty texts holding no blank line followed by a digits-only line parse back as their lines, in order |
| YoutubeSubtitles.FindCaptionNum | fastdub/youtube/subtitles.py:16-25 | the result is the index of the first track in the language, or None when no track has it |
| YoutubeSubtitles.DownloadSrt | fastdub/youtube/subtitles.py:44-56 | the request is by language exactly when no track matches, otherwise by the first match; the body is `_from_json` of `translation`, empty when it is missing |
| Placement.FitLineWindow | fastdub/dubber.py:113-119 | the window given to `fit` for a line runs from the audio placed so far to the line's window end |
| Placement.Run | fastdub/dubber.py:107-120 | a fitting run that succeeds gives one clip per line, in order |
| Placement.FitAll | fastdub/dubber.py:106-121 | the fitting loop gives the fitted clips and a total equal to the sum of their lengths |
| Placement.RunStep | fastdub/dubber.py:107-120 | one round of the loop: a failing fit ends the run; otherwise the clip follows those placed, and the position moves on by its length |
| Placement.RunAsPlanned | FastDub/Dubber.py:78-93 | a run whose every fit is known in advance yields exactly those clips |
| Placement.ClipsStartOnTime | fastdub/dubber.py:107-120 | when every clip fits its window, nothing is sped up and every line is heard exactly at its start |
| Placement.NeverOverruns | fastdub/dubber.py:107-120 | with align >= 1 and open windows no fit fails, and the audio never runs past the close of the current line's window |
| Dubbing.SlotsOf | fastdub/dubber.py:112 | the windows are the lines' start and end, one per line |
| Dubbing.VoiceLines | fastdub/dubber.py:101-104 | the lines are voiced in order through the shared voicer, its state carried from line to line, and the first `UnknownVoice` ends the comprehension |
| Dubbing.LinesFailAtFirstRejected | fastdub/dubber.py:101-104 | voicing the lines fails exactly when a line names an unknown voice, and then with that voice at the first such line, after the clips of the lines before it |
| Dubbing.TrailingBoundary | fastdub/dubber.py:83-86 | the boundary is the video's length, never earlier than the last end |
| Dubbing.BoundaryLineAsWritten | fastdub/dubber.py:87 | `TimeLabel(border, end, end - border)` raises a TypeError for every border and end: three arguments to a two-argument constructor |
| Dubbing.BoundaryLine | fastdub/dubber.py:87 | the corrected boundary line is the `TimeLabel` of exactly two arguments, the border and the last end |
| Dubbing.BoundaryLineBorders | fastdub/dubber.py:87-117 | with the boundary line appended, each line's right border is the gap to the next start, and the last border is never negative |
| Dubbing.LeadIn | fastdub/dubber.py:141-144 | a total that differs from the target gets min(target - total, first start) of silence in front |
| Dubbing.ReconcileFails | fastdub/dubber.py:127-144 | reconciliation fails exactly when a speed-up is needed and the target is not positive |
| Dubbing.ReconcileBound | fastdub/dubber.py:124-144 | the reconciled track never outlasts the last end: it is exactly as long when sped up, and otherwise total + lead-in |
| Dubbing.SpedToTarget | fastdub/dubber.py:127-130 | a total above a positive target is sped up to exactly the target's length |
| Dubbing.SpeedUpGetsEmptyLeadIn | fastdub/dubber.py:141-144 | after a speed-up the lead-in is an empty silence |
| Dubbing.ReconcileParts | fastdub/dubber.py:124-144 | the statements after the loop compute the reconciliation |
| Dubbing.Outputs | fastdub/dubber.py:146-166 | with a video the track is mixed, side-chained when ducking; the video is saved with `export_video`, and the audio is removed with `cleanup_audio` as well; without a video the track is exported |
| Dubbing.CollectWellFormed | fastdub/dubber.py:48-63 | the grouping lists every stem once, in first-seen order, each with at least one file |
| Dubbing.CollectFinds | fastdub/dubber.py:48-63 | `videos[stem][ext]` exists exactly when a kept entry splits into stem and ext, and it is that file's path |
| Dubbing.CollectVideos | fastdub/dubber.py:48-63 | the listing loop computes the grouping |
| Dubbing.PlaceClips | fastdub/dubber.py:106-144 | the fitting loop followed by the reconciliation computes the placed track |
| Dubbing.PlacedTrackBound | fastdub/dubber.py:106-144 | with open windows, align >= 1 and a positive end, placing never fails and the track ends by the last end |
| Dubbing.OrderedWindowsOpen | fastdub/dubber.py:83-87 | lines that start in order at or after zero, the last one before its end, leave every window open |
| Dubbing.Dubber.constructor | fastdub/dubber.py:31-45 | the dubber keeps its settings, with `fit_align` defaulting to 2 |
| Dubbing.Dubber.DubLines | fastdub/dubber.py:106-167 | dubbing a parsed, voiced transcript fails exactly when its track fails, and then with an audio error |
| Dubbing.Dubber.DubResult | fastdub/dubber.py:69-167 | a skipped call, and any call that raises before voicing, leaves the voicer as it was; the voicer stays consistent |
| Dubbing.Dubber.DubOne | fastdub/dubber.py:69-167 | `dub_one` step by step computes the dubbing result and the voicer's state after it |
| Dubbing.Dubber.DubParsed | fastdub/dubber.py:106-167 | the statements after voicing compute the dubbing of the voiced lines |
| Dubbing.Dubber.PlaceTrack | fastdub/dubber.py:83-144 | the boundary, the fitting loop and the reconciliation, step by step, compute the track |
| Dubbing.Dubber.TrackSteps | fastdub/dubber.py:82-144 | the track is the placed track of the lines' windows and voiced clips, with the boundary's right border and the last end |
| Dubbing.Dubber.SkipsOnlyWithoutPaths | fastdub/dubber.py:70-71 | nothing is done exactly when neither a video nor a subtitle path is given |
| Dubbing.Dubber.EmptyTranscriptFails | fastdub/dubber.py:82-86 | a transcript without lines fails before any voicing, and leaves the voicer as it was |
| Dubbing.Dubber.UnknownVoiceFails | fastdub/dubber.py:101-104 | `dub_one` raises `UnknownVoice` exactly when a line names an unknown voice, and then for the first such line |
| Dubbing.Dubber.OrderedTrackFits | fastdub/dubber.py:83-144 | with align >= 1, the track of an ordered transcript never fails and is at most as long as the last end |
| Dubbing.Dubber.OrderedTranscriptDubs | fastdub/dubber.py:82-144 | with align >= 1, an ordered transcript always dubs, and its track is at most as long as the last end |
| Dubbing.DirCalls | fastdub/dubber.py:65-67 | one `dub_one` call per stem, in first-seen order, with the files of the two formats looked up |
| Dubbing.Dubber.DirResult | fastdub/dubber.py:65-67 | the calls run in order with the voicer's state carried along; the run finishes every call exactly when none raises |
| Dubbing.Dubber.DirResultSplit | fastdub/dubber.py:65-67 | running `a + b` is running `a`, then `b` from the voicer state `a` left; when a call of `a` raises, no call of `b` is made |
| Dubbing.Dubber.UnpairedVideoEndsDir | fastdub/dubber.py:66-78 | a stem with a video and no subtitle raises at `Path(None)`: the stems before it are dubbed and the ones after it never are |
| Dubbing.Dubber.DubDir | fastdub/dubber.py:65-67 | the loop calls `dub_one` stem by stem, stops at the first that raises, and computes the run and the voicer's state |
| Dubbing.StemWithoutFormatsSkipped | fastdub/dubber.py:66-71 | a stem with neither format is passed over, and the voicer is untouched |
| LegacyDubbing.SlotsOf | FastDub/Dubber.py:76-93 | the windows are the lines' real start and end, one per line |
| LegacyDubbing.VoiceLines | FastDub/Dubber.py:70-72 | the lines are voiced in order through the shared older voicer, `change_voice` at its default, and the first `UnknownVoice` ends the comprehension |
| LegacyDubbing.LastRightBorder | FastDub/Dubber.py:63-66 | the last border exists exactly when there is a video; it is then the video's end minus the last end |
| LegacyDubbing.Fits | FastDub/Dubber.py:76-93 | a successful fitting has one clip per line, and exists only with a last border |
| LegacyDubbing.FitLines | FastDub/Dubber.py:76-93 | the fitting loop computes the fits |
| LegacyDubbing.Bond | FastDub/Dubber.py:95-98 | the bonding loop joins the fits in order |
| LegacyDubbing.LegacyReconcile | FastDub/Dubber.py:100-110 | a track shorter than the target gets min(target - duration, first start) of lead-in; one as long as the target is unchanged |
| LegacyDubbing.LegacyReconcileBound | FastDub/Dubber.py:100-110 | with a positive target, reconciliation never fails and never outlasts the target |
| LegacyDubbing.ReconcileTrack | FastDub/Dubber.py:100-110 | the statements after bonding compute the reconciliation |
| LegacyDubbing.PlaceLines | FastDub/Dubber.py:76-110 | fitting, bonding and reconciling together compute the older track |
| LegacyDubbing.Outputs | FastDub/Dubber.py:112-139 | `clean_up` > 0 removes `video.mp3`, > 1 also `result.mp3`, and > 2 clears the voicer's cache; without a video only `result.mp3` is written |
| LegacyDubbing.Removed | FastDub/Dubber.py:132-135 | the removed files are exactly those the `clean_up` levels name |
| LegacyDubbing.Dubber.constructor | FastDub/Dubber.py:27-40 | the formats get their leading dot, and `fit_align` defaults to 1 |
| LegacyDubbing.Dubber.StateAfter | FastDub/Dubber.py:132-137 | `clean_up > 2` with a video empties the voicer's cache and keeps its voice; otherwise the voicer is unchanged |
| LegacyDubbing.Dubber.DubResult | FastDub/Dubber.py:60-74 | no subtitle path fails at `parse(None)`, and a transcript without lines fails, both leaving the voicer as it was |
| LegacyDubbing.Dubber.DubOne | FastDub/Dubber.py:60-139 | `dub_one` step by step computes the older dubbing result and the voicer's state after it |
| LegacyDubbing.Dubber.PlaceTrack | FastDub/Dubber.py:61-110 | fitting, bonding and reconciling, step by step, compute the older track |
| LegacyDubbing.Dubber.TrackSteps | FastDub/Dubber.py:61-110 | the track is the older placement of the windows and voiced clips with the video's last border |
| LegacyDubbing.Dubber.DirResult | FastDub/Dubber.py:57-58 | the calls run in order with the voicer's state carried along; the run finishes every call exactly when none raises |
| LegacyDubbing.Dubber.DirResultSplit | FastDub/Dubber.py:57-58 | running `a + b` is running `a`, then `b` from the voicer state `a` left; when a call of `a` raises, no call of `b` is made |
| LegacyDubbing.Dubber.StemWithoutSubtitlesEndsDir | FastDub/Dubber.py:57-61 | a stem without a subtitle raises at `parse(None)`: the stems before it are dubbed and the ones after it never are |
| LegacyDubbing.Dubber.DubDir | FastDub/Dubber.py:42-58 | the default `exclude_files=None` raises on the first file and voices nothing; otherwise the grouping's stems are dubbed in first-seen order until one raises |
| LegacyDubbing.DefaultAlignsDiffer | FastDub/Dubber.py:29 | a clip that spills past need + right ends at the window's end with the older default align of 1, and half its slack earlier with the newer 2 |
| LegacyDubbing.BorderClampedInNewer | FastDub/Dubber.py:66 | the newer last border is the older one clamped at zero |
| LegacyDubbing.OnlyNewerDubsWithoutVideo | FastDub/Dubber.py:87-88 | without a video the older dubber fails at the unbound last border, while the newer one dubs the same voiced lines |
| LegacyDubbing.ReconcileAgreesWithoutSpeedUp | FastDub/Dubber.py:103-110 | a track no longer than the target is reconciled alike by both dubbers |
| LegacyDubbing.SpeedUpOnlyNewerLeadsIn | FastDub/Dubber.py:103-110 | after a speed-up only the newer dubber adds an (empty) lead-in; the lengths agree |
| LegacyDubbing.BothStretchAlike | FastDub/Dubber.py:106 | above ratio 1 the track filter and `speed_change` stretch a clip alike |
| Voicing.CaseFold | fastdub/voicer.py:48 | folding maps every ASCII capital to its lower case and keeps the length |
| Voicing.CaseFoldIdempotent | fastdub/voicer.py:20 | folding a folded name changes nothing |
| Voicing.SplitLines | fastdub/voicer.py:61 | `splitlines` gives no lines for the empty text, and no line holds a boundary |
| Voicing.SplitLinesJoin | fastdub/voicer.py:61-62 | text with only `\n` boundaries and no final one comes back after splitting and joining |
| Voicing.CatalogueOf | fastdub/voicer.py:19-21 | every name key is the folded name of its voice, and every id key is its voice's id |
| Voicing.IdListed | fastdub/voicer.py:21 | every id in `VOICES_ID` belongs to a listed voice |
| Voicing.CatalogueConsistent | fastdub/voicer.py:19-21 | with distinct ids, the two dicts agree |
| Voicing.SelectVoice | fastdub/voicer.py:47-54 | an unknown folded name raises UnknownVoice with that name |
| Voicing.SelectVoiceNames | fastdub/voicer.py:47-54 | afterwards the current voice has the requested name; a voice already current stays |
| Voicing.Fetch | fastdub/voicer.py:64-69 | a cached text is read back; a missing one is synthesized once and stored |
| Voicing.FetchTwice | fastdub/voicer.py:64-69 | asking for the same key again synthesizes nothing and gives the same clip |
| Voicing.Directive | fastdub/voicer.py:29-37 | an empty anchor never switches; a switch is the first line after the anchor |
| Voicing.AnchoredLineSwitches | fastdub/voicer.py:30-34 | a text that opens with an anchored line switches to the rest of that line and speaks what follows |
| Voicing.VoiceStep | fastdub/voicer.py:47-69 | one `voice` call raises exactly when the text opens with a directive naming an unknown voice, and then changes nothing; a known directive makes its voice current; a text without one keeps the voice; cached clips stay |
| Voicing.VoiceAll | fastdub/dubber.py:101-104 | voicing texts in order gives a clip per text exactly when no call raises, and never more clips than texts |
| Voicing.VoiceAllSplit | fastdub/voicer.py:30-34 | voicing `a + b` is voicing `a`, then `b` from the state `a` left: a directive carries over to later texts, and a failure in `a` voices nothing of `b` |
| Voicing.VoicedNotRejected | fastdub/voicer.py:47-52 | every text voiced before a run stops names no unknown voice |
| Voicing.StopsAtRejected | fastdub/voicer.py:47-52 | a run that stops early stops at a text naming an unknown voice, with `UnknownVoice` of that folded name |
| Voicing.VoiceAllFailsIffRejected | fastdub/voicer.py:47-52 | a run fails exactly when one of its texts names an unknown voice |
| Voicing.NoAnchorKeepsVoice | fastdub/voicer.py:35-37 | with an empty anchor voicing never fails and never changes the voice |
| Voicing.RepeatFromCache | fastdub/voicer.py:64-69 | a text without a directive voiced twice gives the same clip and state the second time |
| Voicing.Voicer.constructor | fastdub/voicer.py:28-42 | the voicer starts on the engine's voice with the cache directory's contents |
| Voicing.Voicer.Cleanup | fastdub/voicer.py:44-45 | the cache is emptied and the voice kept |
| Voicing.Voicer.SetVoice | fastdub/voicer.py:47-54 | an unknown voice raises and changes nothing; otherwise the engine's voice becomes the selected one |
| Voicing.Voicer.Voice | fastdub/voicer.py:56-69 | whitespace gives silence and touches nothing; a directive switches the voice and is not spoken; the clip comes from the cache keyed by text and voice; the call is `VoiceStep` on the voicer's state |
| Voicing.LegacyDirective | FastDub/Voicer.py:49 | without `change_voice` no directive is read |
| Voicing.LegacyDirectiveIsDefaultAnchor | FastDub/Voicer.py:49-51 | with `change_voice` the older voicer reads directives like the newer one with anchor `!:` |
| Voicing.LegacyVoicer.constructor | FastDub/Voicer.py:26-30 | the older voicer starts on the engine's voice with the cache directory's contents |
| Voicing.LegacyVoicer.Cleanup | FastDub/Voicer.py:32-33 | the cache is emptied and the voice kept |
| Voicing.LegacyVoicer.SetVoice | FastDub/Voicer.py:35-42 | the same selection as the newer voicer |
| Voicing.LegacyVoicer.Voice | FastDub/Voicer.py:44-58 | the newer `voice` with the hard-coded `!:` directive, honoured only with `change_voice`; with it the call is `VoiceStep` on the voicer's state |
| PrettyView.FromAny | fastdub/__init__.py:18-24 | no prefixes fail; a size below `div` keeps the first prefix; a result carries the base and one of the prefixes |
| PrettyView.FromAnyLoop | fastdub/__init__.py:19-24 | the loop that divides in place computes `from_any` |
| PrettyView.PrefixChoice | fastdub/__init__.py:19-24 | the prefix is the k-th one for the least k that leaves size/div^k below div, or the last; the value is size/div^k |
| PrettyView.NegativeNeverDivided | fastdub/__init__.py:21-22 | a negative size is never divided |
| PrettyView.FromBytes | fastdub/__init__.py:26-28 | bytes never fail, with base `B` and a decimal prefix |
| PrettyView.FromSeconds | fastdub/__init__.py:30-32 | seconds never fail, with prefix `s`, `m` or `h` |
| PrettyView.SecondsUnits | fastdub/__init__.py:30-32 | below a minute in seconds, below an hour in minutes, hours from then on |
| PrettyView.KilobyteRange | fastdub/__init__.py:26-28 | sizes between 1000 and 10^6 are shown in kilobytes |
| Cli.Negation | fastdub/__main__.py:26-27 | `--x` becomes `--no-x`, and `-x` becomes `-n-x` |
| Cli.NegationRoundTrip | fastdub/__main__.py:26-37 | every dashed option's twin turns the flag off and leads back to the option |
| Cli.OptionStrings | fastdub/__main__.py:25-28 | the originals, then one twin each, in the same order |
| Cli.OptionStringsAsWritten | fastdub/__main__.py:25-28 | the source's tuple has two entries per option |
| Cli.AsWrittenAgreesWhenDashed | fastdub/__main__.py:25-28 | with dashed options, the source's tuple and usage line are the corrected ones |
| Cli.UndashedOptionBreaksUsage | fastdub/__main__.py:27 | an undashed option puts the whole list into the tuple: on a parser `add_argument` raises TypeError (the list cannot be hashed), and a directly built action's `format_usage` also fails |
| Cli.FormatUsage | fastdub/__main__.py:39-40 | the usage line contains every option string |
| Cli.HelpWithDefault | fastdub/__main__.py:29-30 | the default note is added only when there is help and a default other than SUPPRESS |
| Cli.Effect | fastdub/__main__.py:34-37 | a known option string sets the flag, to False exactly for the turning-off forms |
| Cli.BooleanOptionalAction.constructor | fastdub/__main__.py:23-32 | the action's option strings are the originals and their twins, and its help gets the default note |
| Cli.BooleanOptionalAction.Call | fastdub/__main__.py:34-37 | a known option sets `dest`; anything else changes nothing |
| Cli.BooleanOptionalAction.Usage | fastdub/__main__.py:39-40 | the usage is the option strings joined with ` \| ` |
| Cli.NewerActionEffects | fastdub/__main__.py:34-37 | each dashed option turns the flag on, unless it is itself a negated form, and its twin turns it off |
| Cli.LegacyPair | FastDub/__init__.py:10-14 | each option is followed by its `--no-` twin, and only `--` options have one |
| Cli.BuildLegacyOptionStrings | FastDub/__init__.py:9-14 | the constructor loop builds the older option strings |
| Cli.LegacyOptionStringsMembers | FastDub/__init__.py:9-14 | the older action offers exactly the originals and the twins of the `--` options |
| Cli.LegacyIsNewerReordered | FastDub/__init__.py:9-14 | with only `--` options, both actions offer the same option strings in another order |
| Cli.LegacyBooleanOptionalAction.constructor | FastDub/__init__.py:7-18 | the older action's option strings and help |
| Cli.LegacyBooleanOptionalAction.Call | FastDub/__init__.py:20-22 | a known option sets `dest`, to False exactly for `--no-` forms |
| Cli.LegacyBooleanOptionalAction.Usage | FastDub/__init__.py:24-25 | the usage is the option strings joined with ` \| ` |
| Cli.SingleDashOnlyNewer | FastDub/__init__.py:12-14 | a single-dash option has no twin in the older action, so `-n-x` is unknown to it, while the newer action turns the flag off |
| Cli.ParseSigned | fastdub/__main__.py:44 | `int` accepts exactly an optional sign followed by digits |
| Cli.ParseDecimal | fastdub/__main__.py:44 | `float` accepts digits with at most one point and at least one digit |
| Cli.ScaledCountTruncates | fastdub/__main__.py:44 | `int(cpus * x)` is the product rounded toward zero |
| Cli.ParseIntOfString | fastdub/__main__.py:44 | `str(n)` reads back as `n` |
| Cli.ThreadCountMultiplier | fastdub/__main__.py:43-44 | `*N` runs N threads per processor |
| Cli.ThreadCountPlain | fastdub/__main__.py:43-44 | a plain number runs that many threads |
| Cli.HalfThreadCount | fastdub/__main__.py:43-44 | `*0.5` is half the processors, rounded down |
| Cli.NormaliseFormats | fastdub/__main__.py:196-199 | the video and subtitle formats start with a dot; the audio format loses one leading dot |
| Cli.NormaliseFormatsTwice | fastdub/__main__.py:196-199 | normalising the video and subtitle formats twice changes nothing; the audio format loses a dot per pass |
| Cli.SearchQuery | fastdub/__main__.py:186-188 | with the search flag the query starts with `?`; a query without one is stripped first |
| Cli.SearchQueryIdempotent | fastdub/__main__.py:186-188 | marking a query as a search twice is the same as once |
| Paths.SplitExtOfName | fastdub/dubber.py:58 | a name whose stem has a non-dot character splits at its last dot |
| Paths.Dotted | FastDub/Dubber.py:31-32 | a format gets a leading dot only when it lacks one |
| Paths.DottedIdempotent | FastDub/Dubber.py:31-32 | adding the dot twice changes nothing |
| YouTubeDownload.PathSave | fastdub/youtube/downloader.py:23-27 | the result is no longer than the name and holds none of `\ / : ? " < > \|` |
| YouTubeDownload.PathSaveKeepsSafe | fastdub/youtube/downloader.py:26-27 | a name without unsafe characters is unchanged |
| YouTubeDownload.PathSaveIdempotent | fastdub/youtube/downloader.py:26-27 | sanitising twice is sanitising once |
| YouTubeDownload.PathSaveRun | fastdub/youtube/downloader.py:23-27 | a run of unsafe characters becomes a single `_` |
| YouTubeDownload.ShortenCutsAtLastSpace | fastdub/youtube/downloader.py:63 | a name of at most 100 characters is kept; a longer one is cut before its last space, or emptied when it has none |
| YouTubeDownload.Dispatch | fastdub/youtube/downloader.py:41-62 | a leading `?` searches the rest; `/playlist` is a playlist; a `c`/`channel` path is a channel; anything else is one video |
| YouTubeDownload.LegacyDispatch | FastDub/YT/Downloader.py:21-30 | the older downloader never searches |
| YouTubeDownload.DispatchAgrees | FastDub/YT/Downloader.py:21-30 | apart from searches both downloaders read the same source |
| YouTubeDownload.SearchFlagSearches | fastdub/youtube/downloader.py:44-46 | a query marked by the search flag is searched for, stripped |
| YouTubeDownload.ChannelByName | fastdub/youtube/downloader.py:56-57 | `/c/name` reads the channel `name` |
| YouTubeDownload.SaveDir | fastdub/youtube/downloader.py:52-63 | the directory is sanitised and no longer than the shortened name |
| YouTubeDownload.TitleSuffixRule | fastdub/youtube/downloader.py:75-77 | the stripped title is kept whole, and ` [id]` is added exactly when the title then stays within 100 characters |
| YouTubeDownload.Suffix | fastdub/youtube/downloader.py:81 | a suffix is empty or ends the name |
| YouTubeDownload.TargetInjective | FastDub/YT/Downloader.py:50-54 | different names in one directory never share a target |
| YouTubeDownload.DottedTitlesCollide | fastdub/youtube/downloader.py:78-84 | two titles that differ only after their last dot get the same files as written; their corrected targets differ |
| YouTubeDownload.PlanSkipsExisting | fastdub/youtube/downloader.py:80-89 | a file is fetched exactly when it is not there, and nothing else is fetched |
| YouTubeDownload.PlanAllFetchesOnce | fastdub/youtube/downloader.py:103-106 | a run never fetches a file already there, nor any file twice |
| YouTubeDownload.RunModeOf | fastdub/youtube/downloader.py:101-108 | downloads run in sequence exactly when the worker count, the processors by default, is below 2 |
| YouTubeDownload.Download | fastdub/youtube/downloader.py:74-89 | the subtitles, then the video, each unless already on disk |
| YouTubeDownload.DownloadInOrder | fastdub/youtube/downloader.py:103-106 | the loop performs every video's plan in playlist order, each seeing the files created before it; targets are the corrected `Target` names (see Findings) |
| YouTubeDownload.Progressed | fastdub/youtube/downloader.py:111-120 | a finished file leaves the table; any other report sets its row; no other row changes |
| YouTubeDownload.FirstWorking | fastdub/youtube/downloader.py:134-140 | the result is None exactly when every key fails with GdataError |
| YouTubeDownload.FirstWorkingKey | fastdub/youtube/downloader.py:134-140 | the deciding key follows only GdataErrors, and its value or exception is the result |
| YouTubeDownload.WithApiKey | fastdub/youtube/downloader.py:134-140 | the loop over the keys computes the result and leaves pafy set to the deciding key |
| YouTubeDownload.ApiKeys | fastdub/__main__.py:189 | the key set is pafy's key, the built-in key and every supplied key, and nothing else |
| YouTubeDownload.Downloader.constructor | fastdub/youtube/downloader.py:37-72 | the save directory and playlist come from the dispatched source's listing, and the table starts empty |
| YouTubeDownload.Downloader.ProgressCallback | fastdub/youtube/downloader.py:111-121 | the progress table becomes the updated table |
| YouTubeDownload.Downloader.DownloadSequentially | fastdub/youtube/downloader.py:97-106 | the table is emptied, then every video is downloaded in order to the corrected `Target` names of its title (see Findings and Left out) |
| YouTubeDownload.LegacyDownloader.constructor | FastDub/YT/Downloader.py:18-37 | the keys, the save directory named by the id, and the playlist |
| YouTubeDownload.LegacyDownloader.DownloadSequentially | FastDub/YT/Downloader.py:39-60 | every video is downloaded under its id, in order |

Functions that only compute carry no contract of their own. The rows above
that state what they mean:

- Audio.Fit (`fit`): the Audio.Fit… lemmas.
- Dubbing.Reconcile: Dubbing.ReconcileFails, Dubbing.ReconcileBound,
  Dubbing.SpedToTarget, Dubbing.SpeedUpGetsEmptyLeadIn and the method
  Dubbing.ReconcileParts.
- Dubbing.Collect (`collect_videos`): Dubbing.CollectWellFormed,
  Dubbing.CollectFinds and the method Dubbing.CollectVideos.
- Dubbing.Dubber.Track: Dubbing.Dubber.TrackSteps,
  Dubbing.Dubber.OrderedTrackFits and the method Dubbing.Dubber.PlaceTrack.
- Subtitles.ParseSpec and Subtitles.Unparse (`parse`, `unparse`):
  Subtitles.Parse, Subtitles.ParseBlockOutcomes, Subtitles.WrittenThenParse,
  Subtitles.UnparseThenParse and Subtitles.BlankLineTextRoundTrips.
- SrtText.MsToSrtTime (`ms_to_srt_time`): SrtText.MsToSrtTimeFields,
  SrtText.SrtTimeChars and SrtText.ParseSrtTime.
- YoutubeSubtitles.FromJson (`_from_json`): YoutubeSubtitles.FromJsonOpening,
  YoutubeSubtitles.EnumeratedAt, YoutubeSubtitles.FromJsonThenParse and
  LegacySubtitles.FromJson.
- YoutubeSubtitles.FloatToSrtTimeFormat (`_float_to_srt_time_format`):
  YoutubeSubtitles.FloatFormatIsDayTime and
  YoutubeSubtitles.FloatFormatReadsBack.
- YouTubeDownload.Shorten: YouTubeDownload.ShortenCutsAtLastSpace and
  YouTubeDownload.SaveDir.
- YouTubeDownload.TitleOf: YouTubeDownload.TitleSuffixRule.
- YouTubeDownload.Target and YouTubeDownload.TargetAsWritten:
  YouTubeDownload.TargetInjective and YouTubeDownload.DottedTitlesCollide.
- YouTubeDownload.Plan: YouTubeDownload.PlanSkipsExisting and
  YouTubeDownload.PlanAllFetchesOnce.
- LegacyDubbing.LegacyTrack: LegacyDubbing.PlaceLines and
  LegacyDubbing.Dubber.TrackSteps.
- LegacySubtitles.ParseSpec (the older `parse`): LegacySubtitles.ParseAgrees
  and LegacySubtitles.Parse.

## Left out

- Audio decoding, encoding and mixing are not modelled: pydub, ffmpeg,
  `export`, `from_file`, `overlay`, `amix`, `sidechain` and the older
  `side_chain` ducking. A clip is a sequence of chunks with a duration.
- Audio.SpeedChange: the result's length is the exact quotient; ffmpeg's
  rounding to whole samples is not modelled.
- Floating point is modelled as real numbers. The `:,g`, `:.2%` and `:.3f`
  renderings are not modelled, except for the three fraction digits of
  `_float_to_srt_time_format`, which the times here always have.
- The file system is a set of file names. `mkdir`, `rmtree`, `os.remove`,
  temporary directories, the `_working_dir` file list and the `_result`
  directory naming of the newer dubber are not modelled.
- Reading subtitle files is not modelled: encoding detection, the `\r\n`
  replacement and the conversion of other subtitle formats to SRT. `parse`
  is modelled on its text argument.
- Subtitles.ParseTimes: `\d` and `strptime` are read as ASCII digits only.
- Concurrency is not modelled. This covers the ThreadPool branch of both
  `multiprocessing_download`s and any ordering between threads.
- The network is not modelled: YouTube searches, pafy lookups, the caption
  and video downloads, and translators. Their answers are parameters.
- YouTubeDownload.Download: every download is taken to succeed and to create
  its file. Errors such as `OSError` are not modelled.
- The live progress table, its title and the older `progress_callback`, which
  only prints, are not modelled.
- YouTubeDownload.Dispatch: the URL path comes in as a parameter (the path
  `urlparse` would give). `with_api_key` returning None is not followed into
  the constructor.
- YouTubeDownload.Downloader.DownloadSequentially: the targets are the
  corrected `f'{save_to}.ext'` names of YouTubeDownload.Target. As written,
  fastdub/youtube/downloader.py:80-84 uses `with_suffix`, which cuts the name
  at its last inner dot (YouTubeDownload.TargetAsWritten), so a dotted title
  is saved under a shorter name and may be skipped (see Findings).
- YouTubeDownload.DownloadInOrder: the same corrected targets.
- YouTubeDownload.Target: path normalisation is not modelled (`.`
  components, repeated or trailing slashes).
- YouTubeDownload.ApiKeys: the built-in key is a parameter, and the set's
  iteration order is a given sequence.
- The text-to-speech engine is not modelled: pyttsx3, its voice list and the
  MD5 hash are parameters.
- Voicing.CaseFold: `casefold` is modelled on ASCII letters only.
- The wiring of the command-line entry points is not modelled: argparse,
  `parse_args`, `main`, the translate and upload steps, `json2srt`, and the
  `%(default)s` expansion. As written, fastdub/__main__.py:206-207 passes its
  arguments to `dubber.Dubber` by position, so `fit_align` receives
  `gain_during_overlay` (default -11), `cleanup_audio` receives `align` and
  `export_video` receives `cleanup_audio`; from the command line the
  `align >= 1` hypotheses of Placement.NeverOverruns, Dubbing.PlacedTrackBound,
  Dubbing.Dubber.OrderedTrackFits and Dubbing.Dubber.OrderedTranscriptDubs
  therefore do not hold. The model's Dubbing.Dubber takes the settings by name.
- Cli.Namespace: the namespace holds boolean flags only.
- Cli.ParseDecimal: `int` and `float` are modelled on plain decimal text
  only. Underscores, exponents, `inf`, `nan` and non-ASCII decimal digits are
  not accepted.
- Cli.ParseSigned: only ASCII digits are accepted; Python's `int` also takes
  other Unicode decimal digits.
- FastDub/__init__.py:5 installs the fallback action only on an old Python.
  The model always holds both actions.
- Dubbing.Dubber.constructor and LegacyDubbing.Dubber.constructor: the
  `set_voice(voice)` call on the shared voicer is not made by them. It is
  Voicing.Voicer.SetVoice (Voicing.LegacyVoicer.SetVoice), which a caller makes
  before dubbing; its `UnknownVoice` would abort the construction.
- FastDub/Audio.py is not part of this model. The older dubber's `fit` and
  `speed_change` are the newer ones.
- FastDub/YT/Subtitles.py `download_srt` always asks by language code. It is
  the `ByLanguage` request of YoutubeSubtitles.DownloadSrt without the track
  search.
- FastDub/SrtSubtitles.py `download_srt` is not modelled, because it only
  fetches captions and writes them to a file.
- LegacySubtitles.LineOf: the older `TimeLabel` string (`_as_str`) and
  `__repr__` are not modelled.
- Dubbing.Dubber.DubOne: `fn` and the file paths name outputs only; the
  files' contents are not modelled.
- Dubbing.Dubber.DubOne: fastdub/dubber.py:114 passes the AudioSegment that
  `VOICER.voice` returns to `AudioSegment.from_file`, which takes a file name
  or a file object. The model fits the voiced clip itself, which is evidently
  what was meant. As written, a transcript with lines already fails at line 87
  (see Findings), so this call is never reached.
- Dubbing.Dubber.DubOne: fastdub/dubber.py:85, 151 and 158 call
  `FFMpegWrapper.get_video_duration_ms`, `FFMpegWrapper.sidechain` and
  `FFMpegWrapper.amix`. fastdub/ffmpeg_wrapper.py defines only `convert` and
  `save_result_data`, so as written these calls raise AttributeError. The
  model takes the video's length as the `videoMs` parameter and records the
  mix in Dubbing.Outputs, as the names intend.
- LegacyDubbing.Dubber.DubOne: FastDub/Dubber.py:131 calls
  `FFMpegWrapper.replace_audio_in_video`, which FastDub/FFMpeg.py defines; the
  video it writes is recorded in LegacyDubbing.Outputs only.

## Findings

| source | as written | input that shows it | evidently intended | confidence | as-written member | corrected member |
|---|---|---|---|---|---|---|
| fastdub/dubber.py:87 | `TimeLabel(default_right_border, end, end - default_right_border)` passes three arguments to the two-argument `TimeLabel`, and `Line` gets no text | any transcript with at least one line | a boundary line from the border to the last end, so that the last line's right border is `border - end` | not executed | Dubbing.BoundaryLineAsWritten | Dubbing.BoundaryLineBorders |
| fastdub/__main__.py:27 | for an option string without a leading dash, the generator puts `option_strings` (the whole list) into the tuple | `BooleanOptionalAction(['+v'], ...)` built directly, then `format_usage()`; added to a parser with `prefix_chars='+'`, `add_argument` already raises TypeError on the list | the option string itself | not executed | Cli.UndashedOptionBreaksUsage | Cli.OptionStrings |
| fastdub/youtube/downloader.py:80-84 | `Path(save_to).with_suffix('.srt')` replaces everything after the title's last dot, together with the ` [id]` tag | videos titled `Part 1.5` and `Part 1.7` (with ids `a` and `b`) both get `<dir>/Part 1.srt` and `<dir>/Part 1.mp4`, so the second video is skipped | `f'{save_to}.srt'`, as FastDub/YT/Downloader.py:51 writes it: one file per title | not executed | YouTubeDownload.DottedTitlesCollide | YouTubeDownload.TargetInjective |
