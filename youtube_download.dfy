/**
 * fastdub/youtube/downloader.py and FastDub/YT/Downloader.py: turning a
 * query into a list of videos and a save directory, naming each video's
 * target files, skipping those already on disk, the progress table, and
 * trying the API keys in turn. The YouTube requests (search, playlist,
 * channel and video lookups, the downloads themselves) are foreign: their
 * answers enter as values and functions. `urlparse(query).path` enters as
 * a parameter.
 */
module YouTubeDownload {
  import opened Wrappers
  import opened Text
  import opened Paths
  import PrettyView
  import Cli

  // ---------------------------------------------------------------------
  // `_path_save`

  /** The characters of `[\\/:?"<>|]`. */
  predicate Unsafe(c: char) {
    c == '\\' || c == '/' || c == ':' || c == '?' || c == '"' || c == '<' || c == '>' || c == '|'
  }

  predicate AllSafe(s: string) {
    forall i :: 0 <= i < |s| ==> !Unsafe(s[i])
  }

  /** `s` without its leading run of unsafe characters. */
  function DropUnsafe(s: string): (r: string)
    ensures |r| <= |s| && r == s[|s| - |r|..]
    ensures r == [] || !Unsafe(r[0])
    ensures forall i :: 0 <= i < |s| - |r| ==> Unsafe(s[i])
    ensures s != [] && Unsafe(s[0]) ==> |r| < |s|
  {
    if s != [] && Unsafe(s[0]) then DropUnsafe(s[1..]) else s
  }

  /** `_path_save(name)`: every maximal run of unsafe characters becomes one `_`. */
  function PathSave(s: string): (r: string)
    ensures |r| <= |s|
    ensures AllSafe(r)
    decreases |s|
  {
    if s == [] then []
    else if Unsafe(s[0]) then "_" + PathSave(DropUnsafe(s))
    else [s[0]] + PathSave(s[1..])
  }

  /** A name with no unsafe character is left as it is. */
  lemma {:induction false} PathSaveKeepsSafe(s: string)
    requires AllSafe(s)
    ensures PathSave(s) == s
    decreases |s|
  {
    if s != [] {
      PathSaveKeepsSafe(s[1..]);
    }
  }

  /** Sanitising twice is sanitising once. */
  lemma PathSaveIdempotent(s: string)
    ensures PathSave(PathSave(s)) == PathSave(s)
  {
    PathSaveKeepsSafe(PathSave(s));
  }

  /** Safe text is copied, a run of unsafe characters becomes a single `_`, and the rest is sanitised after it. */
  lemma PathSaveRun(x: string, run: string, y: string)
    requires AllSafe(x)
    requires run != [] && forall i :: 0 <= i < |run| ==> Unsafe(run[i])
    requires y == [] || !Unsafe(y[0])
    ensures PathSave(x + run + y) == x + "_" + PathSave(y)
  {
    assert PathSave(run + y) == "_" + PathSave(y) by {
      assert (run + y)[0] == run[0];
      DropRun(run, y);
    }
    assert x + run + y == x + (run + y);
    PathSaveSafePrefix(x, run + y);
  }

  /** A safe prefix is copied unchanged. */
  lemma {:induction false} PathSaveSafePrefix(x: string, t: string)
    requires AllSafe(x)
    ensures PathSave(x + t) == x + PathSave(t)
    decreases |x|
  {
    if x != [] {
      var h, rest := x[0], x[1..];
      assert x + t == [h] + (rest + t) && x == [h] + rest;
      PathSaveSafeHead(h, rest + t);
      PathSaveSafePrefix(rest, t);
      assert [h] + (rest + PathSave(t)) == x + PathSave(t);
    } else {
      assert x + t == t;
    }
  }

  /** A safe first character is copied. */
  lemma PathSaveSafeHead(h: char, s: string)
    requires !Unsafe(h)
    ensures PathSave([h] + s) == [h] + PathSave(s)
  {
    assert ([h] + s)[1..] == s;
  }

  lemma {:induction false} DropRun(run: string, y: string)
    requires forall i :: 0 <= i < |run| ==> Unsafe(run[i])
    requires y == [] || !Unsafe(y[0])
    ensures DropUnsafe(run + y) == y
    decreases |run|
  {
    if run != [] {
      assert (run + y)[1..] == run[1..] + y;
      DropRun(run[1..], y);
    }
  }

  // ---------------------------------------------------------------------
  // The save directory

  /** A name longer than 100 characters loses its last space-separated word (and the space before it). */
  function Shorten(name: string): string {
    if |name| > 100 then
      var words := SplitAll(name, ' ');
      Join(words[..|words| - 1], " ")
    else name
  }

  /** The last `c` of `s` is the one with no `c` after it. */
  lemma RFindIs(s: string, c: char, k: nat)
    requires k < |s| && s[k] == c && forall j :: k < j < |s| ==> s[j] != c
    ensures RFind(s, c) == k
  {
  }

  /** Joining all words but the last gives the text before the last separator. */
  lemma CutAtLastSeparator(words: seq<string>, c: char)
    requires |words| >= 2 && c !in words[|words| - 1]
    ensures RFind(Join(words, [c]), c) >= 0
    ensures Join(words[..|words| - 1], [c]) == Join(words, [c])[..RFind(Join(words, [c]), c)]
  {
    var init := words[..|words| - 1];
    var last := words[|words| - 1];
    assert words == init + [last];
    JoinSnoc(init, [c], last);
    var head := Join(init, [c]);
    var s := head + [c] + last;
    assert Join(words, [c]) == s;
    forall j | |head| < j < |s|
      ensures s[j] != c
    {
      assert s[j] == last[j - |head| - 1];
    }
    RFindIs(s, c, |head|);
    assert s[..|head|] == head;
  }

  /**
   * A long name is cut just before its last space, and a long name with no
   * space is cut to nothing; a name of at most 100 characters is kept.
   */
  lemma ShortenCutsAtLastSpace(name: string)
    ensures |name| <= 100 ==> Shorten(name) == name
    ensures |name| > 100 && RFind(name, ' ') >= 0 ==> Shorten(name) == name[..RFind(name, ' ')]
    ensures |name| > 100 && RFind(name, ' ') < 0 ==> Shorten(name) == []
  {
    if |name| > 100 {
      var words := SplitAll(name, ' ');
      assert Join(words, [' ']) == name;
      if |words| == 1 {
        assert name == words[0];
        assert RFind(name, ' ') < 0;
      } else {
        CutAtLastSeparator(words, ' ');
      }
    }
  }

  // ---------------------------------------------------------------------
  // Dispatch

  /** Where the videos come from. */
  datatype Source = Search(text: string) | Playlist(url: string) | Channel(name: string) | OneVideo(url: string)

  /** `path.strip('/')`. */
  function StripSlashes(path: string): string {
    LStripChar(RStripSlashes(path), '/')
  }

  /** The segments of the path, as `url_path.strip('/').split('/')`. */
  function Segments(path: string): (r: seq<string>)
    ensures |r| >= 1
  {
    SplitAll(StripSlashes(path), '/')
  }

  /** A first path segment `c` or `channel`. */
  predicate ChannelPath(path: string) {
    Segments(path)[0] == "c" || Segments(path)[0] == "channel"
  }

  /**
   * The source the newer downloader reads: a leading `?` is a search for
   * the rest, a `/playlist` path a playlist, a `c`/`channel` path a
   * channel named by the second segment (or the whole query), anything
   * else one video.
   */
  function Dispatch(query: string, path: string): (s: Source)
    ensures StartsWith(query, "?") <==> s.Search?
    ensures s.Search? ==> query == "?" + s.text
    ensures !StartsWith(query, "?") && path == "/playlist" ==> s == Playlist(query)
    ensures s.Channel? ==> ChannelPath(path) && path != "/playlist"
    ensures s.OneVideo? <==> !StartsWith(query, "?") && path != "/playlist" && !ChannelPath(path)
  {
    if StartsWith(query, "?") then Search(RemovePrefix(query, "?"))
    else if path == "/playlist" then Playlist(query)
    else if ChannelPath(path) then
      var segments := Segments(path);
      Channel(if |segments| > 1 then segments[1] else query)
    else OneVideo(query)
  }

  /** The source the older downloader reads: the same choice, without searches. */
  function LegacyDispatch(url: string, path: string): (s: Source)
    ensures !s.Search?
  {
    if path == "/playlist" then Playlist(url)
    else if ChannelPath(path) then
      var segments := Segments(path);
      Channel(if |segments| > 1 then segments[1] else url)
    else OneVideo(url)
  }

  /** For anything but a search the two downloaders read the same source. */
  lemma DispatchAgrees(query: string, path: string)
    requires !StartsWith(query, "?")
    ensures Dispatch(query, path) == LegacyDispatch(query, path)
  {
  }

  /** A query marked as a search by the command line is always searched for, stripped. */
  lemma SearchFlagSearches(query: string, path: string)
    requires !StartsWith(query, "?")
    ensures Dispatch(Cli.SearchQuery(query, true), path) == Search(Strip(query))
  {
    var q := Cli.SearchQuery(query, true);
    assert q == "?" + Strip(query);
    assert q[1..] == Strip(query);
  }

  /** `/c/name` reads the channel `name`. */
  lemma ChannelByName(query: string, name: string)
    requires !StartsWith(query, "?")
    requires name != [] && '/' !in name
    ensures Dispatch(query, "/c/" + name) == Channel(name)
  {
    assert "/c/" + name == "/" + "c" + "/" + name;
    TwoSegments("c", name);
  }

  /** `/first/second` has the two segments. */
  lemma TwoSegments(first: string, second: string)
    requires first != [] && second != [] && '/' !in first && '/' !in second
    ensures Segments("/" + first + "/" + second) == [first, second]
  {
    var inner := first + "/" + second;
    assert inner[0] == first[0] && inner[|inner| - 1] == second[|second| - 1];
    SegmentsUnderSlash("/" + first + "/" + second, inner);
    SplitTwo(first, second);
  }

  /** A path that is a slash and an inner part without outer slashes has the inner part's segments. */
  lemma SegmentsUnderSlash(path: string, inner: string)
    requires path == "/" + inner && inner != [] && inner[0] != '/' && inner[|inner| - 1] != '/'
    ensures Segments(path) == SplitAll(inner, '/')
  {
    StripOuterSlash(inner);
  }

  lemma StripOuterSlash(inner: string)
    requires inner != [] && inner[0] != '/' && inner[|inner| - 1] != '/'
    ensures StripSlashes("/" + inner) == inner
  {
    var path := "/" + inner;
    assert RStripSlashes(path) == path by {
      assert path[|path| - 1] == inner[|inner| - 1];
    }
    LStripCharRun("/", inner, '/');
  }

  lemma SplitTwo(first: string, second: string)
    requires '/' !in first && '/' !in second
    ensures SplitAll(first + "/" + second, '/') == [first, second]
  {
    var inner := first + "/" + second;
    assert FirstIndexOf(inner, '/') == Some(|first|) by {
      assert inner[|first|] == '/' && inner[..|first|] == first;
    }
    assert inner[..|first|] == first && inner[|first| + 1..] == second;
    SplitAllNoSep(second, '/');
  }

  lemma SplitAllNoSep(s: string, c: char)
    requires c !in s
    ensures SplitAll(s, c) == [s]
  {
  }

  /** What the lookup of a source answers: the playlist's (or the single video's) title and id, and its videos. */
  datatype Video = VideoMeta(title: string, videoid: string)
  datatype Listing = Listing(title: string, id: string, videos: seq<Video>)

  /** The directory name before it is shortened: the search text, or `title [id]`. */
  function SaveDirName(source: Source, listing: Listing): string {
    if source.Search? then source.text else listing.title + " [" + listing.id + "]"
  }

  /** The save directory: shortened, then sanitised. */
  function SaveDir(source: Source, listing: Listing): (d: string)
    ensures AllSafe(d) && |d| <= |Shorten(SaveDirName(source, listing))|
  {
    PathSave(Shorten(SaveDirName(source, listing)))
  }

  /** The older downloader's directory: the playlist id, or the video id. */
  function LegacySaveDir(listing: Listing): string {
    listing.id
  }

  // ---------------------------------------------------------------------
  // Target files

  /** The title a video is saved under: stripped, with ` [videoid]` added when that stays within 100 characters. */
  function TitleOf(video: Video): string {
    var title := Strip(video.title);
    if |title| <= 97 - |video.videoid| then title + " [" + video.videoid + "]" else title
  }

  /**
   * The stripped title is kept whole, and the id is added exactly when the
   * title then stays within 100 characters.
   */
  lemma TitleSuffixRule(video: Video)
    ensures StartsWith(TitleOf(video), Strip(video.title))
    ensures TitleOf(video) == Strip(video.title) || |TitleOf(video)| <= 100
    ensures TitleOf(video) != Strip(video.title) <==> |Strip(video.title)| + |video.videoid| <= 97
    ensures TitleOf(video) != Strip(video.title) ==> EndsWith(TitleOf(video), " [" + video.videoid + "]")
  {
    var title, suffix := Strip(video.title), " [" + video.videoid + "]";
    var t := TitleOf(video);
    if |title| <= 97 - |video.videoid| {
      assert t == title + suffix;
      assert t[..|title|] == title && t[|title|..] == suffix;
      assert |suffix| > 0;
    } else {
      assert t == title;
    }
  }

  /** The final path component. */
  function Name(p: string): string {
    p[RFind(p, '/') + 1..]
  }

  /** `PurePath.suffix`: from the last dot of the name, unless it leads or ends the name. */
  function Suffix(name: string): (x: string)
    ensures x == [] || EndsWith(name, x)
  {
    var i := RFind(name, '.');
    if 0 < i < |name| - 1 then name[i..] else []
  }

  /** `PurePath.with_suffix(suffix)`: the name's suffix replaced; a path with an empty name is a ValueError. */
  function WithSuffix(p: string, suffix: string): Option<string> {
    var name := Name(p);
    if name == [] then None
    else Some(p[..|p| - |Suffix(name)|] + suffix)
  }

  /** `(save_dir / title).with_suffix(ext)`: the target as the newer downloader writes it. */
  function TargetAsWritten(saveDir: string, title: string, ext: string): Option<string> {
    WithSuffix(PathJoin(saveDir, title), ext)
  }

  /** A video's target: its path with the extension appended, as `f'{save_to}.srt'`. */
  function Target(saveDir: string, name: string, ext: string): string {
    PathJoin(saveDir, name) + ext
  }

  /** A target ends with the whole name and the extension. */
  lemma TargetKeepsName(saveDir: string, name: string, ext: string)
    ensures EndsWith(Target(saveDir, name, ext), name + ext)
  {
    var p := PathJoin(saveDir, name);
    assert p + ext == p[..|p| - |name|] + (name + ext);
  }

  /** Different names in one directory never share a target. */
  lemma TargetInjective(saveDir: string, a: string, b: string, ext: string)
    requires !StartsWith(a, "/") && !StartsWith(b, "/")
    requires Target(saveDir, a, ext) == Target(saveDir, b, ext)
    ensures a == b
  {
    var pa := PathJoin(saveDir, a);
    var pb := PathJoin(saveDir, b);
    assert pa == pb by {
      assert pa + ext == pb + ext;
      assert pa == (pa + ext)[..|pa + ext| - |ext|];
      assert pb == (pb + ext)[..|pb + ext| - |ext|];
    }
    var pre := if saveDir == [] || saveDir[|saveDir| - 1] == '/' then saveDir else saveDir + "/";
    assert pa == pre + a && pb == pre + b;
    assert a == pa[|pre|..] && b == pb[|pre|..];
  }

  /** A slash-free title `stem.rest` in `dir` loses `.rest` to the new suffix when `rest` has no dot. */
  lemma WithSuffixCutsAtLastDot(dir: string, stem: string, rest: string, ext: string)
    requires dir != [] && dir[|dir| - 1] != '/'
    requires stem != [] && rest != [] && '/' !in stem && '/' !in rest && '.' !in rest
    ensures TargetAsWritten(dir, stem + "." + rest, ext) == Some(dir + "/" + stem + ext)
  {
    var title := stem + "." + rest;
    assert '/' !in title && title[0] == stem[0];
    var p := dir + "/" + title;
    assert PathJoin(dir, title) == p;
    NameAfterLastSlash(dir, title);
    SuffixAfterLastDot(stem, rest);
    assert p[..|p| - |"." + rest|] == dir + "/" + stem;
  }

  lemma NameAfterLastSlash(dir: string, name: string)
    requires '/' !in name
    ensures Name(dir + "/" + name) == name
  {
    var p := dir + "/" + name;
    forall j | |dir| < j < |p|
      ensures p[j] != '/'
    {
      assert p[j] == name[j - |dir| - 1];
    }
    RFindIs(p, '/', |dir|);
  }

  lemma SuffixAfterLastDot(stem: string, rest: string)
    requires stem != [] && rest != [] && '.' !in rest
    ensures Suffix(stem + "." + rest) == "." + rest
  {
    var name := stem + "." + rest;
    forall j | |stem| < j < |name|
      ensures name[j] != '.'
    {
      assert name[j] == rest[j - |stem| - 1];
    }
    RFindIs(name, '.', |stem|);
    assert name[|stem|..] == "." + rest;
  }

  /**
   * Two videos whose titles differ only after their last dot (`Part 1.5`,
   * `Part 1.7`) get the same subtitle and video files as written: the
   * "suffix" that is replaced takes the id with it. The second video is
   * then skipped as already downloaded. Their corrected targets differ.
   */
  lemma DottedTitlesCollide(dir: string, stem: string, a: string, b: string, v1: Video, v2: Video, ext: string)
    requires dir != [] && dir[|dir| - 1] != '/'
    requires stem != [] && '/' !in stem && '/' !in a && '/' !in b && '.' !in a && '.' !in b
    requires '/' !in v1.videoid && '/' !in v2.videoid && '.' !in v1.videoid && '.' !in v2.videoid
    requires v1.title == stem + "." + a && v2.title == stem + "." + b
    requires IsStripped(v1.title) && IsStripped(v2.title)
    requires |v1.title| + |v1.videoid| <= 97 && |v2.title| + |v2.videoid| <= 97
    ensures TargetAsWritten(dir, TitleOf(v1), ext) == Some(dir + "/" + stem + ext)
    ensures TargetAsWritten(dir, TitleOf(v2), ext) == Some(dir + "/" + stem + ext)
    ensures TitleOf(v1) != TitleOf(v2) ==> Target(dir, TitleOf(v1), ext) != Target(dir, TitleOf(v2), ext)
  {
    SuffixedTitleCut(dir, stem, a, v1, ext);
    SuffixedTitleCut(dir, stem, b, v2, ext);
    RelativeTargets(dir, stem, TitleOf(v1), TitleOf(v2), ext);
  }

  lemma RelativeTargets(dir: string, stem: string, t1: string, t2: string, ext: string)
    requires stem != [] && '/' !in stem && StartsWith(t1, stem) && StartsWith(t2, stem)
    ensures t1 != t2 ==> Target(dir, t1, ext) != Target(dir, t2, ext)
  {
    if t1 != t2 && Target(dir, t1, ext) == Target(dir, t2, ext) {
      assert t1[0] == stem[0] && t2[0] == stem[0];
      TargetInjective(dir, t1, t2, ext);
    }
  }

  lemma SuffixedTitleCut(dir: string, stem: string, a: string, v: Video, ext: string)
    requires dir != [] && dir[|dir| - 1] != '/'
    requires stem != [] && '/' !in stem && '/' !in a && '.' !in a && '/' !in v.videoid && '.' !in v.videoid
    requires v.title == stem + "." + a && IsStripped(v.title) && |v.title| + |v.videoid| <= 97
    ensures TitleOf(v) == stem + "." + (a + " [" + v.videoid + "]") && StartsWith(TitleOf(v), stem)
    ensures TargetAsWritten(dir, TitleOf(v), ext) == Some(dir + "/" + stem + ext)
  {
    StripOfStripped(v.title);
    var rest := a + " [" + v.videoid + "]";
    assert TitleOf(v) == stem + "." + rest;
    assert '/' !in rest && '.' !in rest by {
      forall j | 0 <= j < |rest| ensures rest[j] != '/' && rest[j] != '.' {
        if j < |a| {
          assert rest[j] == a[j];
        } else if |a| + 2 <= j < |a| + 2 + |v.videoid| {
          assert rest[j] == v.videoid[j - |a| - 2];
        }
      }
    }
    WithSuffixCutsAtLastDot(dir, stem, rest, ext);
  }

  // ---------------------------------------------------------------------
  // Downloading

  /** A download the run performs. */
  datatype Step = FetchSubtitles(videoid: string, language: string, target: string) | FetchVideo(target: string)

  /** The subtitle and video targets of one video, and the downloads it needs given the files already there. */
  function Plan(srt: string, mp4: string, video: Video, language: string, files: set<string>): seq<Step> {
    (if srt in files then [] else [FetchSubtitles(video.videoid, language, srt)])
      + (if mp4 in files then [] else [FetchVideo(mp4)])
  }

  /** A file is fetched exactly when it is not there yet, and nothing else is fetched. */
  lemma PlanSkipsExisting(srt: string, mp4: string, video: Video, language: string, files: set<string>)
    ensures var steps := Plan(srt, mp4, video, language, files);
      && (FetchSubtitles(video.videoid, language, srt) in steps <==> srt !in files)
      && (FetchVideo(mp4) in steps <==> mp4 !in files)
      && forall i :: 0 <= i < |steps| ==> steps[i] == FetchSubtitles(video.videoid, language, srt) || steps[i] == FetchVideo(mp4)
  {
  }

  /** The older downloader's file name: the video id. */
  function VideoId(video: Video): string {
    video.videoid
  }

  /** The files the steps create. */
  function Created(steps: seq<Step>): set<string>
    decreases |steps|
  {
    if steps == [] then {} else Created(steps[..|steps| - 1]) + {steps[|steps| - 1].target}
  }

  /** A file is created exactly when some step fetches it. */
  lemma {:induction false} CreatedHas(steps: seq<Step>, t: string)
    ensures t in Created(steps) <==> exists i :: 0 <= i < |steps| && steps[i].target == t
    decreases |steps|
  {
    if steps != [] {
      var init := steps[..|steps| - 1];
      CreatedHas(init, t);
      if t in Created(init) {
        var i :| 0 <= i < |init| && init[i].target == t;
        assert steps[i] == init[i];
      }
      if i :| 0 <= i < |steps| - 1 && steps[i].target == t {
        assert init[i] == steps[i];
      }
    }
  }

  /**
   * `Plan` for the targets named by `names`: `TitleOf` in the newer
   * downloader, the video id in the older one.
   */
  function PlanOne(names: Video -> string, saveDir: string, language: string, video: Video, files: set<string>): seq<Step> {
    var name := names(video);
    Plan(Target(saveDir, name, ".srt"), Target(saveDir, name, ".mp4"), video, language, files)
  }

  /** The downloads of a playlist run in order, each video seeing the files the earlier ones created. */
  function PlanAll(names: Video -> string, saveDir: string, language: string, videos: seq<Video>, files: set<string>)
    : seq<Step>
    decreases |videos|
  {
    if videos == [] then []
    else
      var steps := PlanOne(names, saveDir, language, videos[0], files);
      steps + PlanAll(names, saveDir, language, videos[1..], files + Created(steps))
  }

  /** Every step fetches a file that is not there yet, and no two steps fetch the same file. */
  ghost predicate FetchesOnce(steps: seq<Step>, files: set<string>) {
    && (forall i :: 0 <= i < |steps| ==> steps[i].target !in files)
    && (forall i, j :: 0 <= i < j < |steps| ==> steps[i].target != steps[j].target)
  }

  /** A subtitle target and a video target are never the same file. */
  lemma TargetsDiffer(saveDir: string, name: string)
    ensures Target(saveDir, name, ".srt") != Target(saveDir, name, ".mp4")
  {
    var srt := Target(saveDir, name, ".srt");
    var mp4 := Target(saveDir, name, ".mp4");
    assert srt[|srt| - 1] == 't' && mp4[|mp4| - 1] == '4';
  }

  lemma PlanFetchesOnce(srt: string, mp4: string, video: Video, language: string, files: set<string>)
    requires srt != mp4
    ensures FetchesOnce(Plan(srt, mp4, video, language, files), files)
  {
    var steps := Plan(srt, mp4, video, language, files);
    if srt !in files && mp4 !in files {
      assert steps == [FetchSubtitles(video.videoid, language, srt), FetchVideo(mp4)];
    } else if srt !in files {
      assert steps == [FetchSubtitles(video.videoid, language, srt)];
    } else if mp4 !in files {
      assert steps == [FetchVideo(mp4)];
    } else {
      assert steps == [];
    }
  }

  lemma PlanOneFetchesOnce(names: Video -> string, saveDir: string, language: string, video: Video, files: set<string>)
    ensures FetchesOnce(PlanOne(names, saveDir, language, video, files), files)
  {
    var name := names(video);
    TargetsDiffer(saveDir, name);
    PlanFetchesOnce(Target(saveDir, name, ".srt"), Target(saveDir, name, ".mp4"), video, language, files);
  }

  lemma AppendFetchesOnce(first: seq<Step>, rest: seq<Step>, files: set<string>)
    requires FetchesOnce(first, files) && FetchesOnce(rest, files + Created(first))
    ensures FetchesOnce(first + rest, files)
  {
    var steps := first + rest;
    forall i | 0 <= i < |steps| ensures steps[i].target !in files {
      if i >= |first| {
        assert steps[i] == rest[i - |first|];
      }
    }
    forall i, j | 0 <= i < j < |steps| ensures steps[i].target != steps[j].target {
      if j >= |first| {
        assert steps[j] == rest[j - |first|];
        if i < |first| {
          CreatedHas(first, steps[i].target);
        } else {
          assert steps[i] == rest[i - |first|];
        }
      }
    }
  }

  /** No run fetches a file that is already there, or any file twice. */
  lemma {:induction false} PlanAllFetchesOnce(names: Video -> string, saveDir: string, language: string,
                                             videos: seq<Video>, files: set<string>)
    ensures FetchesOnce(PlanAll(names, saveDir, language, videos, files), files)
    decreases |videos|
  {
    if videos != [] {
      var first := PlanOne(names, saveDir, language, videos[0], files);
      PlanOneFetchesOnce(names, saveDir, language, videos[0], files);
      PlanAllFetchesOnce(names, saveDir, language, videos[1..], files + Created(first));
      AppendFetchesOnce(first, PlanAll(names, saveDir, language, videos[1..], files + Created(first)), files);
    }
  }

  /** The files on disk and the downloads made so far. */
  class Disk {
    var files: set<string>
    var steps: seq<Step>

    constructor (files: set<string>)
      ensures this.files == files && steps == []
    {
      this.files := files;
      steps := [];
    }
  }

  /** How `multiprocessing_download(pc)` runs: one after the other below two workers, in a thread pool otherwise. */
  datatype RunMode = Sequential | Pooled(workers: int)

  function RunModeOf(pc: Option<int>, cpus: nat): (m: RunMode)
    ensures m == Sequential <==> pc.GetOr(cpus) < 2
  {
    var n := pc.GetOr(cpus);
    if n < 2 then Sequential else Pooled(n)
  }

  /** The downloads of `videos` in playlist order, each skipping the files that exist by then. */
  method DownloadInOrder(names: Video -> string, saveDir: string, language: string, videos: seq<Video>, disk: Disk)
    modifies disk
    ensures disk.steps == old(disk.steps) + PlanAll(names, saveDir, language, videos, old(disk.files))
    ensures disk.files == old(disk.files) + Created(PlanAll(names, saveDir, language, videos, old(disk.files)))
  {
    ghost var all := PlanAll(names, saveDir, language, videos, disk.files);
    ghost var done: seq<Step> := [];
    assert videos[0..] == videos;
    for i := 0 to |videos|
      invariant all == done + PlanAll(names, saveDir, language, videos[i..], disk.files)
      invariant disk.steps == old(disk.steps) + done
      invariant disk.files == old(disk.files) + Created(done)
    {
      ghost var first := PlanOne(names, saveDir, language, videos[i], disk.files);
      ghost var steps, files := disk.steps, disk.files;
      InOrderStep(names, saveDir, language, videos, i, all, done, files);
      DownloadNamed(names, saveDir, language, videos[i], disk);
      DiskStep(old(disk.steps), old(disk.files), done, first, steps, files, disk.steps, disk.files);
      done := done + first;
    }
    assert videos[|videos|..] == [];
    assert all == done;
  }

  /** `download(yt)`: the subtitles, then the video, each unless its file is already there. */
  method Download(srt: string, mp4: string, video: Video, language: string, disk: Disk)
    requires srt != mp4
    modifies disk
    ensures disk.steps == old(disk.steps) + Plan(srt, mp4, video, language, old(disk.files))
    ensures disk.files == old(disk.files) + Created(Plan(srt, mp4, video, language, old(disk.files)))
  {
    ghost var steps0, files0 := disk.steps, disk.files;
    ghost var sub: seq<Step> := if srt in files0 then [] else [FetchSubtitles(video.videoid, language, srt)];
    ghost var vid: seq<Step> := if mp4 in files0 then [] else [FetchVideo(mp4)];
    PlanCreated(srt, mp4, video, language, files0);
    if srt !in disk.files {
      disk.steps := disk.steps + [FetchSubtitles(video.videoid, language, srt)];
      disk.files := disk.files + {srt};
    }
    assert disk.steps == steps0 + sub;
    assert disk.files == files0 + (if srt in files0 then {} else {srt});
    if mp4 !in disk.files {
      disk.steps := disk.steps + [FetchVideo(mp4)];
      disk.files := disk.files + {mp4};
    }
    AppendBoth(steps0, sub, vid, files0, if srt in files0 then {} else {srt}, if mp4 in files0 then {} else {mp4});
  }

  /** Adding two parts one after the other is adding them together. */
  lemma AppendBoth(s: seq<Step>, a: seq<Step>, b: seq<Step>, f: set<string>, fa: set<string>, fb: set<string>)
    ensures s + a + b == s + (a + b) && f + fa + fb == f + (fa + fb)
  {
  }

  /** `download(yt)` with the targets named by `names`. */
  method DownloadNamed(names: Video -> string, saveDir: string, language: string, video: Video, disk: Disk)
    modifies disk
    ensures disk.steps == old(disk.steps) + PlanOne(names, saveDir, language, video, old(disk.files))
    ensures disk.files == old(disk.files) + Created(PlanOne(names, saveDir, language, video, old(disk.files)))
  {
    var name := names(video);
    TargetsDiffer(saveDir, name);
    Download(Target(saveDir, name, ".srt"), Target(saveDir, name, ".mp4"), video, language, disk);
  }

  /** One video of the run: its plan joins the steps done, and the rest of the run sees the files it created. */
  lemma InOrderStep(names: Video -> string, saveDir: string, language: string, videos: seq<Video>, i: nat,
                    all: seq<Step>, done: seq<Step>, files: set<string>)
    requires i < |videos| && all == done + PlanAll(names, saveDir, language, videos[i..], files)
    ensures var first := PlanOne(names, saveDir, language, videos[i], files);
      all == (done + first) + PlanAll(names, saveDir, language, videos[i + 1..], files + Created(first))
  {
    var first := PlanOne(names, saveDir, language, videos[i], files);
    var rest := PlanAll(names, saveDir, language, videos[i + 1..], files + Created(first));
    PlanAllAt(names, saveDir, language, videos, i, files);
    SeqAssoc(done, first, rest);
  }

  lemma SeqAssoc(a: seq<Step>, b: seq<Step>, c: seq<Step>)
    ensures a + (b + c) == (a + b) + c
  {
  }

  /** `PlanAllStep` at position `i` of the playlist. */
  lemma PlanAllAt(names: Video -> string, saveDir: string, language: string, videos: seq<Video>, i: nat,
                  files: set<string>)
    requires i < |videos|
    ensures var first := PlanOne(names, saveDir, language, videos[i], files);
      PlanAll(names, saveDir, language, videos[i..], files)
        == first + PlanAll(names, saveDir, language, videos[i + 1..], files + Created(first))
  {
    PlanAllStep(names, saveDir, language, videos[i..], files);
    assert videos[i..][1..] == videos[i + 1..];
  }

  /** The disk after one more video: its steps and files added to those of the videos before. */
  lemma DiskStep(steps0: seq<Step>, files0: set<string>, done: seq<Step>, first: seq<Step>,
                 steps: seq<Step>, files: set<string>, steps': seq<Step>, files': set<string>)
    requires steps == steps0 + done && files == files0 + Created(done)
    requires steps' == steps + first && files' == files + Created(first)
    ensures steps' == steps0 + (done + first) && files' == files0 + Created(done + first)
  {
    assert (steps0 + done) + first == steps0 + (done + first);
    CreatedAppend(done, first);
  }

  lemma PlanAllStep(names: Video -> string, saveDir: string, language: string, videos: seq<Video>, files: set<string>)
    requires videos != []
    ensures var first := PlanOne(names, saveDir, language, videos[0], files);
      PlanAll(names, saveDir, language, videos, files)
        == first + PlanAll(names, saveDir, language, videos[1..], files + Created(first))
  {
  }

  /** The files one video's plan creates. */
  lemma PlanCreated(srt: string, mp4: string, video: Video, language: string, files: set<string>)
    ensures Created(Plan(srt, mp4, video, language, files))
      == (if srt in files then {} else {srt}) + (if mp4 in files then {} else {mp4})
  {
    var sub := FetchSubtitles(video.videoid, language, srt);
    var vid := FetchVideo(mp4);
    var steps := Plan(srt, mp4, video, language, files);
    if srt !in files && mp4 !in files {
      assert steps == [sub, vid];
      CreatedSmall(sub, vid);
    } else if srt !in files {
      assert steps == [sub];
      CreatedSmall(sub, vid);
    } else if mp4 !in files {
      assert steps == [vid];
      CreatedSmall(vid, sub);
    } else {
      assert steps == [];
    }
  }

  lemma CreatedSmall(a: Step, b: Step)
    ensures Created([a]) == {a.target} && Created([a, b]) == {a.target, b.target}
  {
    assert [a, b][..1] == [a];
    assert [a][..0] == [];
  }


  lemma {:induction false} CreatedAppend(a: seq<Step>, b: seq<Step>)
    ensures Created(a + b) == Created(a) + Created(b)
    decreases |b|
  {
    if b == [] {
      assert a + b == a;
    } else {
      var init := b[..|b| - 1];
      assert (a + b)[..|a + b| - 1] == a + init;
      CreatedAppend(a, init);
    }
  }

  // ---------------------------------------------------------------------
  // The progress table and the API keys

  /** One row of the table: the ratio done, then downloaded, total and rate in bytes and the time left, each with its prefix. */
  datatype ProgressRow = ProgressRow(ratio: real, downloaded: PrettyView.Pretty, total: PrettyView.Pretty,
                                     rate: PrettyView.Pretty, eta: PrettyView.Pretty)

  function RowOf(total: real, downloaded: real, ratio: real, rate: real, eta: real): ProgressRow {
    ProgressRow(ratio, PrettyView.FromBytes(downloaded).value, PrettyView.FromBytes(total).value,
                PrettyView.FromBytes(rate).value, PrettyView.FromSeconds(eta).value)
  }

  /** `progress_callback`: a finished file leaves the table, any other report replaces its row; no other row changes. */
  function Progressed(table: map<string, ProgressRow>, fn: string, total: real, downloaded: real,
                      ratio: real, rate: real, eta: real): (t: map<string, ProgressRow>)
    ensures ratio == 1.0 ==> fn !in t && t.Keys == table.Keys - {fn}
    ensures ratio != 1.0 ==> fn in t && t[fn] == RowOf(total, downloaded, ratio, rate, eta) && t.Keys == table.Keys + {fn}
    ensures forall k :: k in table && k != fn ==> k in t && t[k] == table[k]
  {
    if ratio == 1.0 then table - {fn}
    else table[fn := RowOf(total, downloaded, ratio, rate, eta)]
  }

  /** What one call with a key does: returns, fails with a GdataError, or raises something else. */
  datatype Attempt<T> = Returned(value: T) | GdataFailed(message: string) | Raised(error: string)

  /**
   * `with_api_key(func)`: the keys are tried in iteration order; the first
   * call that does not raise GdataError decides: its value, or its
   * exception propagating. None when every key fails.
   */
  function FirstWorking<T>(keys: seq<string>, call: string -> Attempt<T>): (r: Result<Option<T>, string>)
    ensures r == Ok(None) <==> forall i :: 0 <= i < |keys| ==> call(keys[i]).GdataFailed?
    decreases |keys|
  {
    if keys == [] then Ok(None)
    else
      match call(keys[0])
      case Returned(v) => Ok(Some(v))
      case Raised(e) => Err(e)
      case GdataFailed(_) =>
        var r := FirstWorking(keys[1..], call);
        assert forall i :: 1 <= i < |keys| ==> keys[1..][i - 1] == keys[i];
        r
  }

  /** The key that decides: every earlier key failed with a GdataError, and its outcome is the result. */
  lemma {:induction false} FirstWorkingKey<T>(keys: seq<string>, call: string -> Attempt<T>) returns (i: nat)
    requires FirstWorking(keys, call) != Ok(None)
    ensures i < |keys| && forall j :: 0 <= j < i ==> call(keys[j]).GdataFailed?
    ensures call(keys[i]).Returned? ==> FirstWorking(keys, call) == Ok(Some(call(keys[i]).value))
    ensures call(keys[i]).Raised? ==> FirstWorking(keys, call) == Err(call(keys[i]).error)
    ensures !call(keys[i]).GdataFailed?
    decreases |keys|
  {
    if call(keys[0]).GdataFailed? {
      var k := FirstWorkingKey(keys[1..], call);
      i := k + 1;
      assert keys[1..][k] == keys[i];
      forall j | 1 <= j < i ensures call(keys[j]).GdataFailed? {
        assert keys[1..][j - 1] == keys[j];
      }
    } else {
      i := 0;
    }
  }

  /** pafy's module-level API key, which `set_api_key` overwrites. */
  class ApiState {
    var key: Option<string>

    constructor (key: Option<string>)
      ensures this.key == key
    {
      this.key := key;
    }
  }

  /** The key pafy is left with: the deciding key, the last key when all fail, unchanged with no keys. */
  function KeyLeft<T>(keys: seq<string>, call: string -> Attempt<T>, before: Option<string>): Option<string>
    decreases |keys|
  {
    if keys == [] then before
    else if call(keys[0]).GdataFailed? then KeyLeft(keys[1..], call, Some(keys[0]))
    else Some(keys[0])
  }

  /** The loop of `with_api_key`, setting pafy's key before every attempt. */
  method WithApiKey<T>(pafy: ApiState, keys: seq<string>, call: string -> Attempt<T>) returns (r: Result<Option<T>, string>)
    modifies pafy
    ensures r == FirstWorking(keys, call)
    ensures pafy.key == KeyLeft(keys, call, old(pafy.key))
  {
    var i := 0;
    assert keys[0..] == keys;
    while i < |keys|
      invariant 0 <= i <= |keys|
      invariant FirstWorking(keys, call) == FirstWorking(keys[i..], call)
      invariant KeyLeft(keys, call, old(pafy.key)) == KeyLeft(keys[i..], call, pafy.key)
    {
      pafy.key := Some(keys[i]);
      assert keys[i..][1..] == keys[i + 1..];
      match call(keys[i])
      case Returned(v) =>
        return Ok(Some(v));
      case Raised(e) =>
        return Err(e);
      case GdataFailed(_) =>
        i := i + 1;
    }
    r := Ok(None);
  }

  /** `API_KEYS`: pafy's own key, the built-in key and every key given on the command line. */
  function ApiKeys(pafyKey: string, builtinKey: string, supplied: seq<string>): (keys: set<string>)
    ensures pafyKey in keys && builtinKey in keys
    ensures forall k :: k in supplied ==> k in keys
    ensures forall k :: k in keys ==> k == pafyKey || k == builtinKey || k in supplied
  {
    {pafyKey, builtinKey} + set k | k in supplied
  }

  // ---------------------------------------------------------------------
  // The two downloaders

  /** `DownloadYTVideo` of fastdub/youtube/downloader.py, once its source has been looked up. */
  class Downloader {
    const saveDir: string
    const language: string
    const playlist: seq<Video>
    var tableData: map<string, ProgressRow>

    constructor (query: string, path: string, language: string, lookup: Source -> Listing)
      ensures saveDir == SaveDir(Dispatch(query, path), lookup(Dispatch(query, path)))
      ensures playlist == lookup(Dispatch(query, path)).videos
      ensures this.language == language && tableData == map[]
    {
      var source := Dispatch(query, path);
      var listing := lookup(source);
      saveDir := SaveDir(source, listing);
      this.language := language;
      playlist := listing.videos;
      tableData := map[];
    }

    method ProgressCallback(fn: string, total: real, downloaded: real, ratio: real, rate: real, eta: real)
      modifies this
      ensures tableData == Progressed(old(tableData), fn, total, downloaded, ratio, rate, eta)
    {
      if ratio == 1.0 {
        if fn in tableData {
          tableData := tableData - {fn};
        }
        return;
      }
      tableData := tableData[fn := RowOf(total, downloaded, ratio, rate, eta)];
    }

    /**
     * The sequential branch of `multiprocessing_download`: the table emptied,
     * then every video in playlist order, to the corrected `Target` names.
     */
    method DownloadSequentially(disk: Disk)
      modifies this, disk
      ensures tableData == map[]
      ensures disk.steps == old(disk.steps) + PlanAll(TitleOf, saveDir, language, playlist, old(disk.files))
      ensures disk.files == old(disk.files) + Created(PlanAll(TitleOf, saveDir, language, playlist, old(disk.files)))
    {
      tableData := map[];
      DownloadInOrder(TitleOf, saveDir, language, playlist, disk);
    }
  }

  /** `DownloadYTVideo` of FastDub/YT/Downloader.py, once its source has been looked up. */
  class LegacyDownloader {
    const apiKeys: set<string>
    const saveDir: string
    const language: string
    const playlist: seq<Video>

    constructor (url: string, path: string, language: string, pafyKey: string, builtinKey: string,
                 supplied: seq<string>, lookup: Source -> Listing)
      ensures apiKeys == ApiKeys(pafyKey, builtinKey, supplied)
      ensures saveDir == LegacySaveDir(lookup(LegacyDispatch(url, path)))
      ensures playlist == lookup(LegacyDispatch(url, path)).videos
      ensures this.language == language
    {
      apiKeys := ApiKeys(pafyKey, builtinKey, supplied);
      var listing := lookup(LegacyDispatch(url, path));
      saveDir := LegacySaveDir(listing);
      this.language := language;
      playlist := listing.videos;
    }

    method DownloadSequentially(disk: Disk)
      modifies disk
      ensures disk.steps == old(disk.steps) + PlanAll(VideoId, saveDir, language, playlist, old(disk.files))
      ensures disk.files == old(disk.files) + Created(PlanAll(VideoId, saveDir, language, playlist, old(disk.files)))
    {
      DownloadInOrder(VideoId, saveDir, language, playlist, disk);
    }
  }
}
