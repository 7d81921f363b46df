/**
 * FastDub/Subtitles.py and FastDub/SrtSubtitles.py, the older subtitle
 * modules (their `Line` and `parse` are the same code): lines whose
 * milliseconds are real numbers because the microseconds are divided
 * without truncation, and, in the second, `from_json`, which builds the SRT
 * text block by block in a loop.
 */
module LegacySubtitles {
  import opened Wrappers
  import opened Text
  import opened SrtText
  import Subtitles
  import opened YoutubeSubtitles

  /** `Line.TimeLabel(start, end)` over real milliseconds. */
  datatype TimeLabel = TimeLabel(start: real, end: real) {
    function Duration(): real {
      end - start
    }
  }

  /** `Line(time_labels, text)` */
  datatype Line = Line(ms: TimeLabel, text: string)

  /**
   * The milliseconds of a parsed time: `µs / 1000` is a true division, so
   * the value keeps the fraction of a millisecond that the newer
   * `_calc_ms_label` truncates away.
   */
  function LabelMs(c: Clock): (ms: real)
    ensures ms == ClockMs(c) as real + (c.micro % 1000) as real / 1000.0
    ensures ms.Floor == Subtitles.CalcMsLabel(c)
  {
    var whole := c.hour * 3600000 + c.minute * 60000 + c.second * 1000;
    assert c.micro == c.micro / 1000 * 1000 + c.micro % 1000;
    assert c.micro as real / 1000.0 == (c.micro / 1000) as real + (c.micro % 1000) as real / 1000.0;
    whole as real + c.micro as real / 1000.0
  }

  /** The newer model's line for an older one: both ends truncated to whole milliseconds. */
  function Truncate(l: Line): (t: Subtitles.Line)
    ensures t.text == l.text
    ensures 0.0 <= l.ms.start - t.ms.start as real < 1.0 && 0.0 <= l.ms.end - t.ms.end as real < 1.0
  {
    Subtitles.Line(Subtitles.TimeLabel(l.ms.start.Floor, l.ms.end.Floor), l.text)
  }

  /** The real duration and the duration of the truncated ends differ by less than a millisecond. */
  lemma DurationNearTruncated(l: Line)
    ensures -1.0 < l.ms.Duration() - Truncate(l).ms.Duration() as real < 1.0
  {
    var t := Truncate(l);
    assert t.ms.Duration() as real == t.ms.end as real - t.ms.start as real;
  }

  /**
   * `Line(time_labels, text)`: the first label is the start and the last the
   * end; truncated, it is the line the newer `Line` builds from the same labels.
   */
  function LineOf(labels: seq<Clock>, text: string): (l: Line)
    requires |labels| >= 1
    ensures Truncate(l) == Subtitles.LineOf(labels, text)
  {
    Line(TimeLabel(LabelMs(labels[0]), LabelMs(labels[|labels| - 1])), text)
  }

  /** One piece of the split transcript, read as the newer `parse` reads it. */
  function ParseBlock(piece: string): (r: Result<Option<Line>, Subtitles.ParseError>)
    ensures r.Ok? && r.value.Some? ==> r.value.value.text != [] && IsStripped(r.value.value.text)
  {
    var timesText := SplitOnce(piece, "\n");
    if |timesText| == 1 then Err(Subtitles.MissingTextLine(piece))
    else
      var text := Strip(timesText[1]);
      StripIsStripped(timesText[1]);
      if text == [] then Ok(None)
      else
        match Subtitles.ParseTimes(timesText[0])
        case Err(e) => Err(e)
        case Ok(labels) => Ok(Some(LineOf(labels, text)))
  }

  /** Every piece in order; the first failure is the result. */
  function ParsePieces(pieces: seq<string>): (r: Result<seq<Line>, Subtitles.ParseError>)
    ensures r.Ok? ==> |r.value| <= |pieces|
  {
    Subtitles.Gather(ParseBlock, pieces)
  }

  /** `parse(text)` on the text path. */
  function ParseSpec(text: string): Result<seq<Line>, Subtitles.ParseError> {
    ParsePieces(Subtitles.Pieces(text))
  }

  // ---------------------------------------------------------------------
  // The older parse against the newer one

  function TruncateBlock(r: Result<Option<Line>, Subtitles.ParseError>): Result<Option<Subtitles.Line>, Subtitles.ParseError> {
    match r
    case Err(e) => Err(e)
    case Ok(None) => Ok(None)
    case Ok(Some(l)) => Ok(Some(Truncate(l)))
  }

  function TruncateAll(ls: seq<Line>): (r: seq<Subtitles.Line>)
    ensures |r| == |ls|
  {
    if ls == [] then [] else [Truncate(ls[0])] + TruncateAll(ls[1..])
  }

  function TruncateResult(r: Result<seq<Line>, Subtitles.ParseError>): Result<seq<Subtitles.Line>, Subtitles.ParseError> {
    match r
    case Err(e) => Err(e)
    case Ok(ls) => Ok(TruncateAll(ls))
  }

  /** A block fails, is skipped or gives a line in both versions alike; the line differs only by truncation. */
  lemma ParseBlockAgrees(piece: string)
    ensures Subtitles.ParseBlock(piece) == TruncateBlock(ParseBlock(piece))
  {
    var timesText := SplitOnce(piece, "\n");
    if |timesText| != 1 {
      var text := Strip(timesText[1]);
      if text != [] {
        var times := Subtitles.ParseTimes(timesText[0]);
        if times.Ok? {
          assert ParseBlock(piece) == Ok(Some(LineOf(times.value, text)));
        }
      }
    }
  }

  lemma ParsePiecesCons(pieces: seq<string>)
    requires pieces != []
    ensures ParsePieces(pieces) ==
      match ParseBlock(pieces[0])
      case Err(e) => Err(e)
      case Ok(first) =>
        match ParsePieces(pieces[1..])
        case Err(e) => Err(e)
        case Ok(rest) => Ok(if first.Some? then [first.value] + rest else rest)
  {
  }

  lemma {:induction false} ParsePiecesAgrees(pieces: seq<string>)
    ensures Subtitles.ParsePieces(pieces) == TruncateResult(ParsePieces(pieces))
    decreases |pieces|
  {
    if pieces != [] {
      ParseBlockAgrees(pieces[0]);
      ParsePiecesAgrees(pieces[1..]);
      Subtitles.ParsePiecesHead(pieces);
      ParsePiecesCons(pieces);
      var b := ParseBlock(pieces[0]);
      if b.Ok? && b.value.Some? && ParsePieces(pieces[1..]).Ok? {
        var rest := ParsePieces(pieces[1..]).value;
        assert TruncateAll([b.value.value] + rest) == [Truncate(b.value.value)] + TruncateAll(rest) by {
          assert ([b.value.value] + rest)[1..] == rest;
        }
      }
    }
  }

  /**
   * The older `parse` fails exactly when the newer one does, with the same
   * error, and otherwise gives the same lines, in the same order, with the
   * same texts and with times that truncate to the newer whole milliseconds.
   */
  lemma ParseAgrees(text: string)
    ensures Subtitles.ParseSpec(text) == TruncateResult(ParseSpec(text))
  {
    ParsePiecesAgrees(Subtitles.Pieces(text));
  }

  // ---------------------------------------------------------------------
  // The parse loop

  /** Every parsed line has a non-empty, stripped text. */
  lemma {:induction false} ParsedTextsStripped(pieces: seq<string>)
    requires ParsePieces(pieces).Ok?
    ensures forall k :: 0 <= k < |ParsePieces(pieces).value| ==>
      ParsePieces(pieces).value[k].text != [] && IsStripped(ParsePieces(pieces).value[k].text)
    decreases |pieces|
  {
    if pieces != [] {
      ParsePiecesCons(pieces);
      ParsedTextsStripped(pieces[1..]);
      var b := ParseBlock(pieces[0]);
      var r, rest := ParsePieces(pieces).value, ParsePieces(pieces[1..]).value;
      if b.value.Some? {
        forall k | 0 <= k < |r| ensures r[k].text != [] && IsStripped(r[k].text) {
          if k > 0 {
            assert r[k] == rest[k - 1];
          }
        }
      }
    }
  }

  /** An older line's text, as `line.text` reads it. */
  function TextOf(l: Line): string {
    l.text
  }

  /** `parse`: the loop over the pieces, then the optional `skip_empty` filter. */
  method Parse(text: string, skipEmpty: bool) returns (r: Result<seq<Line>, Subtitles.ParseError>)
    ensures r == ParseSpec(text)
  {
    var pieces := Subtitles.Pieces(text);
    r := Subtitles.GatherLoop(ParseBlock, pieces);
    if skipEmpty && r.Ok? {
      ParsedTextsStripped(pieces);
      Subtitles.SkipEmptyIsNoOp(r.value, TextOf);
      r := Ok(Subtitles.KeepNonEmpty(r.value, TextOf));
    }
  }

  // ---------------------------------------------------------------------
  // from_json (FastDub/SrtSubtitles.py)

  /** The text the loop has built from `bs`: a blank line in front of every block. */
  function Accumulated(bs: seq<string>): string {
    if bs == [] then "" else Accumulated(bs[..|bs| - 1]) + "\n\n" + bs[|bs| - 1]
  }

  lemma {:induction false} AccumulatedIsJoin(bs: seq<string>)
    requires bs != []
    ensures Accumulated(bs) == "\n\n" + Join(bs, "\n\n")
    decreases |bs|
  {
    var init := bs[..|bs| - 1];
    if |bs| == 1 {
      assert Accumulated(init) == "";
    } else {
      AccumulatedIsJoin(init);
      JoinSnoc(init, "\n\n", bs[|bs| - 1]);
      assert init + [bs[|bs| - 1]] == bs;
    }
  }

  /** One more block after a blank line. */
  lemma AccumulateStep(bs: seq<string>, i: nat, b: string)
    requires i < |bs| && bs[i] == b
    ensures Accumulated(bs[..i + 1]) == Accumulated(bs[..i]) + "\n\n" + b
  {
    assert bs[..i + 1][..i] == bs[..i];
  }

  /** Stripping the leading newlines off the accumulated blocks leaves the joined text. */
  lemma AccumulatedCaptions(cs: seq<Caption>)
    ensures LStripChar(Accumulated(Enumerated(cs, 1, CaptionBlock)), '\n') == YoutubeSubtitles.FromJson(cs)
  {
    if cs != [] {
      AccumulatedIsJoin(Enumerated(cs, 1, CaptionBlock));
      FromJsonOpening(cs);
      LStripCharRun("\n\n", YoutubeSubtitles.FromJson(cs), '\n');
    }
  }

  /**
   * The loop of `from_json`: for each item, numbered from 1, a blank line
   * and the item's block are added to the text.
   */
  method AccumulateBlocks<T>(xs: seq<T>, block: (nat, T) -> string) returns (srt: string)
    ensures srt == Accumulated(Enumerated(xs, 1, block))
  {
    ghost var bs := Enumerated(xs, 1, block);
    srt := "";
    var i := 0;
    while i < |xs|
      invariant 0 <= i <= |xs|
      invariant srt == Accumulated(bs[..i])
    {
      var b := block(i + 1, xs[i]);
      EnumeratedAt(xs, 1, block, i);
      AccumulateStep(bs, i, b);
      srt := srt + "\n\n" + b;
      i := i + 1;
    }
    assert bs[..i] == bs;
  }

  /**
   * `from_json`: block `i` is added after a blank line for every caption of
   * `translation` (none when it is missing), and the leading newlines are
   * stripped at the end; the text is the one the newer `_from_json` joins.
   */
  method FromJson(translation: Option<seq<Caption>>) returns (r: string)
    ensures r == YoutubeSubtitles.FromJson(translation.GetOr([]))
  {
    var cs := translation.GetOr([]);
    var srt := AccumulateBlocks(cs, CaptionBlock);
    AccumulatedCaptions(cs);
    r := LStripChar(srt, '\n');
  }
}
