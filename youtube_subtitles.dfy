/**
 * fastdub/youtube/subtitles.py and FastDub/YT/Subtitles.py: the caption-track
 * search, the rendering of YouTube's JSON captions as SRT text, and the
 * choice of download request. Fetching tracks and captions is network code
 * and is not modelled: the track language codes and the downloaded captions
 * come in as parameters.
 */
module YoutubeSubtitles {
  import opened Wrappers
  import opened Text
  import opened SrtText
  import Subtitles

  // ---------------------------------------------------------------------
  // _float_to_srt_time_format

  /** `f'{fraction:.3f}'` for a fraction of `f` thousandths: `0.` and three digits. */
  function FractionText(f: nat): string
    requires f < 1000
  {
    "0." + Pad(f, 3)
  }

  /**
   * `_float_to_srt_time_format(ms / 1000.)`: `time.gmtime` of the whole
   * seconds as `%H:%M:%S`, so the day is wrapped away, then `,` and the
   * fraction with every `0.` removed.
   */
  function FloatToSrtTimeFormat(ms: nat): string {
    var whole, fraction := ms / 1000, ms % 1000;
    var daySeconds := whole % 86400;
    Layout(Pad(daySeconds / 3600, 2), Pad(daySeconds % 3600 / 60, 2), Pad(daySeconds % 60, 2), "")
      + ReplaceAll(FractionText(fraction), "0.", "")
  }

  /** Three digits never hold `0.`. */
  lemma DigitsHoldNoPoint(d: string)
    requires AllDigits(d)
    ensures forall j: nat :: !OccursAt(d, "0.", j)
  {
    forall j: nat ensures !OccursAt(d, "0.", j) {
      if j + 2 <= |d| {
        assert d[j..j + 2][1] == d[j + 1];
      }
    }
  }

  /** The seconds of the day and the milliseconds of a time, as `divmod` finds them on `ms % 24 h`. */
  lemma DayFields(ms: nat)
    ensures (ms % 86400000) / 1000 == (ms / 1000) % 86400
    ensures (ms % 86400000) % 1000 == ms % 1000
  {
    var q, x := ms / 86400000, ms % 86400000;
    var w, f := ms / 1000, ms % 1000;
    assert ms == q * 86400000 + x;
    assert ms == w * 1000 + f;
    var d, g := x / 1000, x % 1000;
    assert x == d * 1000 + g;
    assert ms == (q * 86400 + d) * 1000 + g;
    assert w == q * 86400 + d;
    assert f == g;
  }

  /**
   * The gmtime rendering is `ms_to_srt_time` of the time within its day:
   * below 24 hours the two writers agree, and past it the hours wrap.
   */
  lemma FloatFormatIsDayTime(ms: nat)
    ensures FloatToSrtTimeFormat(ms) == MsToSrtTime(ms % 86400000)
  {
    var x := ms % 86400000;
    DayFields(ms);
    var daySeconds := (ms / 1000) % 86400;
    assert x / 1000 == daySeconds;
    assert daySeconds / 60 / 60 == daySeconds / 3600;
    assert daySeconds / 60 % 60 == daySeconds % 3600 / 60;
    var F := Pad(ms % 1000, 3);
    PaddedNat(ms % 1000, 3);
    DigitsHoldNoPoint(F);
    ReplaceLeading("0.", "", F);
    assert Layout(Pad(daySeconds / 3600, 2), Pad(daySeconds % 3600 / 60, 2), Pad(daySeconds % 60, 2), "") + F
        == Layout(Pad(daySeconds / 3600, 2), Pad(daySeconds % 3600 / 60, 2), Pad(daySeconds % 60, 2), F);
  }

  /**
   * What `strptime` reads back from a rendered time: always a time of day,
   * and exactly the milliseconds of the time within its day.
   */
  lemma FloatFormatReadsBack(ms: nat)
    ensures ParseClock(FloatToSrtTimeFormat(ms)).Some?
    ensures ClockMs(ParseClock(FloatToSrtTimeFormat(ms)).value) == ms % 86400000
  {
    FloatFormatIsDayTime(ms);
    ParseSrtTime(ms % 86400000);
  }

  // ---------------------------------------------------------------------
  // _from_json

  /** One entry of the `translation` list: `int(el['start'])`, `int(el['dur'])`, `el['text']`. */
  datatype Caption = Caption(start: nat, dur: nat, text: string)

  /** Block `i`: the number, the start and `start + dur` as times, and the text. */
  function CaptionBlock(i: nat, c: Caption): string {
    NatToString(i) + "\n" + CaptionText(c)
  }

  /** The block after its number: the two times, a newline and the text. */
  function CaptionText(c: Caption): string {
    FloatToSrtTimeFormat(c.start) + " --> " + FloatToSrtTimeFormat(c.start + c.dur) + "\n" + c.text
  }

  /** `enumerate(xs, n)`, each numbered item written as a block by `block`. */
  function Enumerated<T>(xs: seq<T>, n: nat, block: (nat, T) -> string): (r: seq<string>)
    ensures |r| == |xs|
  {
    if xs == [] then [] else [block(n, xs[0])] + Enumerated(xs[1..], n + 1, block)
  }

  /** Item `i` is written with the number `n + i`. */
  lemma {:induction false} EnumeratedAt<T>(xs: seq<T>, n: nat, block: (nat, T) -> string, i: nat)
    requires i < |xs|
    ensures Enumerated(xs, n, block)[i] == block(n + i, xs[i])
    decreases i
  {
    if i > 0 {
      EnumeratedAt(xs[1..], n + 1, block, i - 1);
    }
  }

  /** `_from_json`: the blocks numbered from 1 and joined by a blank line. */
  function FromJson(cs: seq<Caption>): string {
    Join(Enumerated(cs, 1, CaptionBlock), "\n\n")
  }

  /** No captions give the empty text; otherwise the text opens with the number 1, not a newline. */
  lemma FromJsonOpening(cs: seq<Caption>)
    ensures FromJson(cs) == [] <==> cs == []
    ensures cs != [] ==> FromJson(cs)[0] == '1'
  {
    if cs != [] {
      var bs := Enumerated(cs, 1, CaptionBlock);
      assert bs[0] == CaptionBlock(1, cs[0]);
      assert NatToString(1) == "1";
      assert bs[0][0] == '1';
    }
  }

  /** The line a caption stands for: it starts at `start` and ends `dur` later. */
  function LineOf(c: Caption): (l: Subtitles.Line)
    ensures l.ms.Duration() == c.dur && l.text == c.text
  {
    Subtitles.Line(Subtitles.TimeLabel(c.start, c.start + c.dur), c.text)
  }

  function LinesOf(cs: seq<Caption>): (r: seq<Subtitles.Line>)
    ensures |r| == |cs|
  {
    if cs == [] then [] else [LineOf(cs[0])] + LinesOf(cs[1..])
  }

  ghost predicate WithinDay(cs: seq<Caption>) {
    forall k :: 0 <= k < |cs| ==> cs[k].start + cs[k].dur < 86400000
  }

  /** Within a day, a caption's block is the block `unparse` writes for its line. */
  lemma CaptionBlockIsBlock(n: nat, c: Caption)
    requires c.start + c.dur < 86400000
    ensures CaptionBlock(n, c) == NatToString(n) + "\n" + Subtitles.Body(LineOf(c))
  {
    CaptionBody(c);
  }

  /** Within a day, the caption's times and text are the body `unparse` writes for its line. */
  lemma CaptionBody(c: Caption)
    requires c.start + c.dur < 86400000
    ensures CaptionText(c) == Subtitles.Body(LineOf(c))
  {
    CaptionLabel(c);
  }

  /** Within a day, the caption's two times are the label `str(TimeLabel)` writes. */
  lemma CaptionLabel(c: Caption)
    requires c.start + c.dur < 86400000
    ensures LineOf(c).ms.ToString() == FloatToSrtTimeFormat(c.start) + " --> " + FloatToSrtTimeFormat(c.start + c.dur)
  {
    var a, b := c.start, c.start + c.dur;
    assert LineOf(c).ms == Subtitles.TimeLabel(a, b);
    FloatFormatInDay(a);
    FloatFormatInDay(b);
  }

  /** Below 24 hours the gmtime rendering and `ms_to_srt_time` agree. */
  lemma FloatFormatInDay(ms: nat)
    requires ms < 86400000
    ensures FloatToSrtTimeFormat(ms) == MsToSrtTime(ms)
  {
    assert ms % 86400000 == ms;
    FloatFormatIsDayTime(ms);
  }

  /** Within a day, the caption blocks are the blocks `unparse` writes for their lines. */
  lemma {:induction false} CaptionBlocksAreBlocks(cs: seq<Caption>, n: nat)
    requires WithinDay(cs)
    ensures Enumerated(cs, n, CaptionBlock) == Subtitles.Blocks(LinesOf(cs), n)
    decreases |cs|
  {
    if cs != [] {
      CaptionBlockIsBlock(n, cs[0]);
      assert LinesOf(cs)[1..] == LinesOf(cs[1..]);
      assert WithinDay(cs[1..]) by {
        forall k | 0 <= k < |cs[1..]| ensures cs[1..][k].start + cs[1..][k].dur < 86400000 {
          assert cs[1..][k] == cs[k + 1];
        }
      }
      CaptionBlocksAreBlocks(cs[1..], n + 1);
    }
  }

  /**
   * Captions within a day whose texts are non-empty, stripped and hold no
   * blank line followed by a line of digits only parse back, through `parse`, as their lines in the order given.
   */
  lemma FromJsonThenParse(cs: seq<Caption>)
    requires WithinDay(cs)
    requires forall k :: 0 <= k < |cs| ==> cs[k].text != [] && IsStripped(cs[k].text) && NoNumberLine(cs[k].text)
    ensures Subtitles.ParseSpec(FromJson(cs)) == Ok(LinesOf(cs))
  {
    var ls := LinesOf(cs);
    CaptionBlocksAreBlocks(cs, 1);
    forall k | 0 <= k < |ls| ensures Subtitles.Representable(ls[k]) {
      LinesOfAt(cs, k);
    }
    Subtitles.WrittenThenParse(ls);
  }

  lemma {:induction false} LinesOfAt(cs: seq<Caption>, k: nat)
    requires k < |cs|
    ensures LinesOf(cs)[k] == LineOf(cs[k])
    decreases k
  {
    if k > 0 {
      LinesOfAt(cs[1..], k - 1);
    }
  }

  // ---------------------------------------------------------------------
  // find_caption_num and download_srt

  /**
   * `find_caption_num`: the index of the first track whose `languageCode`
   * is `lang`, or None. A track without a language code never matches.
   */
  method FindCaptionNum(languageCodes: seq<Option<string>>, lang: string) returns (r: Option<nat>)
    ensures r.Some? ==> r.value < |languageCodes| && languageCodes[r.value] == Some(lang)
    ensures r.Some? ==> forall k :: 0 <= k < r.value ==> languageCodes[k] != Some(lang)
    ensures r.None? ==> forall k :: 0 <= k < |languageCodes| ==> languageCodes[k] != Some(lang)
  {
    var i := 0;
    while i < |languageCodes|
      invariant 0 <= i <= |languageCodes|
      invariant forall k :: 0 <= k < i ==> languageCodes[k] != Some(lang)
    {
      if languageCodes[i] == Some(lang) {
        return Some(i);
      }
      i := i + 1;
    }
    return None;
  }

  /** The two ways `download_srt` asks for captions. */
  datatype Request =
    | ByLanguage(videoId: string, lang: string)
    | ByCaptionIndex(videoId: string, index: nat)

  /**
   * `download_srt`: by language code when no track has it, otherwise by the
   * index of the first track that does; the file body is `_from_json` of the
   * downloaded `translation`, empty when there is none.
   */
  method DownloadSrt(videoId: string, lang: string, languageCodes: seq<Option<string>>,
                     translation: Option<seq<Caption>>)
    returns (request: Request, body: string)
    ensures request.ByLanguage? <==> forall k :: 0 <= k < |languageCodes| ==> languageCodes[k] != Some(lang)
    ensures request.ByLanguage? ==> request == ByLanguage(videoId, lang)
    ensures request.ByCaptionIndex? ==>
      && request.videoId == videoId
      && request.index < |languageCodes| && languageCodes[request.index] == Some(lang)
      && forall k :: 0 <= k < request.index ==> languageCodes[k] != Some(lang)
    ensures body == FromJson(translation.GetOr([]))
    ensures translation.None? ==> body == ""
  {
    var capNum := FindCaptionNum(languageCodes, lang);
    if capNum.None? {
      request := ByLanguage(videoId, lang);
    } else {
      request := ByCaptionIndex(videoId, capNum.value);
    }
    body := FromJson(translation.GetOr([]));
  }
}
