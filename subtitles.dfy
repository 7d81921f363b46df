/**
 * fastdub/subtitles.py: time labels in whole milliseconds, lines, `parse` of
 * an SRT transcript given as text, and `unparse`, which sorts, renumbers and
 * lays the blocks out again.
 */
module Subtitles {
  import opened Wrappers
  import opened Text
  import opened SrtText

  /** `TimeLabel(start, end)` */
  datatype TimeLabel = TimeLabel(start: int, end: int) {
    function Duration(): int {
      end - start
    }

    /** `str(label)`: both ends through `ms_to_srt_time`. */
    function ToString(): string {
      MsToSrtTime(start) + " --> " + MsToSrtTime(end)
    }

    /** `time_str`: both ends as plain decimal numbers. */
    function TimeStr(): (r: string)
      ensures SplitOnce(r, " --> ") == [IntToString(start), IntToString(end)]
    {
      SplitOnceAt(IntToString(start), " --> ", IntToString(end));
      IntToString(start) + " --> " + IntToString(end)
    }
  }

  /** `Line(time_labels, text)` */
  datatype Line = Line(ms: TimeLabel, text: string)

  /**
   * `Line._calc_ms_label`: `int()` of the float sum, whose microseconds are
   * divided by 1000. The sum is not negative, so `int` is its floor: the
   * whole milliseconds, which `ClockMs` computes by integer division.
   */
  function CalcMsLabel(c: Clock): (ms: nat)
    ensures ms as real <= (c.hour * 3600000 + c.minute * 60000 + c.second * 1000) as real + c.micro as real / 1000.0
                       < ms as real + 1.0
    ensures ms == ClockMs(c)
  {
    var whole := c.hour * 3600000 + c.minute * 60000 + c.second * 1000;
    var sum := whole as real + c.micro as real / 1000.0;
    assert c.micro == c.micro / 1000 * 1000 + c.micro % 1000;
    assert c.micro as real / 1000.0 == (c.micro / 1000) as real + (c.micro % 1000) as real / 1000.0;
    assert sum.Floor == ClockMs(c);
    sum.Floor
  }

  /** `Line(time_labels, text)`: the first label is the start, the last one the end. */
  function LineOf(labels: seq<Clock>, text: string): (l: Line)
    requires |labels| >= 1
    ensures l.ms.start == CalcMsLabel(labels[0]) && l.ms.end == CalcMsLabel(labels[|labels| - 1])
    ensures l.text == text
  {
    Line(TimeLabel(CalcMsLabel(labels[0]), CalcMsLabel(labels[|labels| - 1])), text)
  }

  datatype ParseError =
    | MissingTextLine(block: string)  // IndexError: a block with no newline
    | BadTimestamp(field: string)     // ValueError from strptime

  /** Read the time line: one label, or two around the first ` --> `. */
  function ParseTimes(timeLine: string): (r: Result<seq<Clock>, ParseError>)
    ensures r.Ok? ==> 1 <= |r.value| <= 2
    ensures r.Err? ==> r.error.BadTimestamp?
  {
    var fields := SplitOnce(timeLine, " --> ");
    match ParseClock(fields[0])
    case None => Err(BadTimestamp(fields[0]))
    case Some(first) =>
      if |fields| == 1 then Ok([first])
      else
        match ParseClock(fields[1])
        case None => Err(BadTimestamp(fields[1]))
        case Some(second) => Ok([first, second])
  }

  /**
   * One piece of the split transcript: its first line holds the times, the
   * rest, stripped, is the text. An empty text skips the block before its
   * times are read.
   */
  function ParseBlock(piece: string): (r: Result<Option<Line>, ParseError>)
    ensures r.Ok? && r.value.Some? ==> r.value.value.text != [] && IsStripped(r.value.value.text)
  {
    var timesText := SplitOnce(piece, "\n");
    if |timesText| == 1 then Err(MissingTextLine(piece))
    else
      var text := Strip(timesText[1]);
      StripIsStripped(timesText[1]);
      if text == [] then Ok(None)
      else
        match ParseTimes(timesText[0])
        case Err(e) => Err(e)
        case Ok(labels) => Ok(Some(LineOf(labels, text)))
  }

  /**
   * The outcomes of one block: IndexError exactly when it has no newline, a
   * skip exactly when its text strips to nothing, and otherwise a line whose
   * text is the stripped text, or the error of a malformed time.
   */
  lemma ParseBlockOutcomes(piece: string)
    ensures ParseBlock(piece) == Err(MissingTextLine(piece)) <==> !Contains(piece, "\n")
    ensures ParseBlock(piece) == Ok(None) <==> Contains(piece, "\n") && Strip(SplitOnce(piece, "\n")[1]) == []
    ensures Contains(piece, "\n") && Strip(SplitOnce(piece, "\n")[1]) != [] ==>
      match ParseTimes(SplitOnce(piece, "\n")[0])
      case Err(e) => ParseBlock(piece) == Err(e)
      case Ok(labels) => ParseBlock(piece) == Ok(Some(LineOf(labels, Strip(SplitOnce(piece, "\n")[1]))))
  {
    SplitOnceSpec(piece, "\n");
  }

  /** Each piece read by `block`, in order; the first failure is the result. */
  function Gather<L>(block: string -> Result<Option<L>, ParseError>, pieces: seq<string>): (r: Result<seq<L>, ParseError>)
    ensures r.Ok? ==> |r.value| <= |pieces|
  {
    if pieces == [] then Ok([])
    else
      match block(pieces[0])
      case Err(e) => Err(e)
      case Ok(first) =>
        match Gather(block, pieces[1..])
        case Err(e) => Err(e)
        case Ok(rest) => Ok(if first.Some? then [first.value] + rest else rest)
  }

  /** Every piece in order; the first failure is the result. */
  function ParsePieces(pieces: seq<string>): (r: Result<seq<Line>, ParseError>)
    ensures r.Ok? ==> |r.value| <= |pieces|
  {
    Gather(ParseBlock, pieces)
  }

  /** The first block decides: its error ends the parse, a skip adds nothing, a line goes in front. */
  lemma ParsePiecesHead(pieces: seq<string>)
    requires pieces != []
    ensures ParseBlock(pieces[0]).Err? ==> ParsePieces(pieces) == Err(ParseBlock(pieces[0]).error)
    ensures ParseBlock(pieces[0]).Ok? && ParseBlock(pieces[0]).value.None? ==>
      ParsePieces(pieces) == ParsePieces(pieces[1..])
    ensures ParseBlock(pieces[0]).Ok? && ParseBlock(pieces[0]).value.Some? ==>
      ParsePieces(pieces) == Prepend([ParseBlock(pieces[0]).value.value], ParsePieces(pieces[1..]))
  {
  }

  /** Every parsed line has a non-empty, stripped text. */
  lemma {:induction false} ParsedTextsStripped(pieces: seq<string>)
    requires ParsePieces(pieces).Ok?
    ensures forall k :: 0 <= k < |ParsePieces(pieces).value| ==>
      ParsePieces(pieces).value[k].text != [] && IsStripped(ParsePieces(pieces).value[k].text)
    decreases |pieces|
  {
    if pieces != [] {
      ParsePiecesHead(pieces);
      ParsedTextsStripped(pieces[1..]);
      var b := ParseBlock(pieces[0]);
      var r, rest := ParsePieces(pieces).value, ParsePieces(pieces[1..]).value;
      if b.value.Some? {
        forall k | 0 <= k < |r| ensures r[k].text != [] && IsStripped(r[k].text) {
          if k > 0 {
            assert r[k] == rest[k - 1];
          }
        }
      }
    }
  }

  /** The pieces `parse` reads: the split of a blank line plus the left-stripped text, less the first. */
  function Pieces(text: string): seq<string> {
    SplitBlocks("\n\n" + LStrip(text))[1..]
  }

  /** `parse(text)` on the text path (reading and converting a file is not modelled). */
  function ParseSpec(text: string): Result<seq<Line>, ParseError> {
    ParsePieces(Pieces(text))
  }

  /** A line's text, as `line.text` reads it. */
  function TextOf(l: Line): string {
    l.text
  }

  /** The `skip_empty` filter: lines whose stripped text is non-empty, `text` reading a line's text. */
  function KeepNonEmpty<L>(ls: seq<L>, text: L -> string): (r: seq<L>)
    ensures |r| <= |ls|
  {
    if ls == [] then []
    else (if Strip(text(ls[0])) != [] then [ls[0]] else []) + KeepNonEmpty(ls[1..], text)
  }

  /** Parsed lines already have non-empty stripped text, so `skip_empty` changes nothing. */
  lemma {:induction false} SkipEmptyIsNoOp<L>(ls: seq<L>, text: L -> string)
    requires forall k :: 0 <= k < |ls| ==> text(ls[k]) != [] && IsStripped(text(ls[k]))
    ensures KeepNonEmpty(ls, text) == ls
  {
    if ls != [] {
      StripOfStripped(text(ls[0]));
      SkipEmptyIsNoOp(ls[1..], text);
    }
  }

  /** The lines parsed so far in front of the outcome of the rest. */
  function Prepend<L>(acc: seq<L>, r: Result<seq<L>, ParseError>): Result<seq<L>, ParseError> {
    match r
    case Err(e) => Err(e)
    case Ok(v) => Ok(acc + v)
  }

  lemma PrependOne<L>(acc: seq<L>, l: L, r: Result<seq<L>, ParseError>)
    ensures Prepend(acc, Prepend([l], r)) == Prepend(acc + [l], r)
  {
    if r.Ok? {
      assert acc + ([l] + r.value) == acc + [l] + r.value;
    }
  }

  /** One step of the loop: a failing block ends it, a skipped block adds nothing, a line is added in front. */
  lemma GatherStep<L>(block: string -> Result<Option<L>, ParseError>, pieces: seq<string>, k: nat)
    requires k < |pieces|
    ensures block(pieces[k]).Err? ==> Gather(block, pieces[k..]) == Err(block(pieces[k]).error)
    ensures block(pieces[k]).Ok? && block(pieces[k]).value.None? ==>
      Gather(block, pieces[k..]) == Gather(block, pieces[k + 1..])
    ensures block(pieces[k]).Ok? && block(pieces[k]).value.Some? ==>
      Gather(block, pieces[k..]) == Prepend([block(pieces[k]).value.value], Gather(block, pieces[k + 1..]))
  {
    assert pieces[k..][1..] == pieces[k + 1..];
  }

  /** The loop of `parse` over the pieces, accumulating what each block gives until one fails. */
  method GatherLoop<L>(block: string -> Result<Option<L>, ParseError>, pieces: seq<string>) returns (r: Result<seq<L>, ParseError>)
    ensures r == Gather(block, pieces)
  {
    var subtitles: seq<L> := [];
    var k := 0;
    assert pieces[0..] == pieces;
    assert Gather(block, pieces).Ok? ==> [] + Gather(block, pieces).value == Gather(block, pieces).value;
    while k < |pieces|
      invariant 0 <= k <= |pieces|
      invariant Gather(block, pieces) == Prepend(subtitles, Gather(block, pieces[k..]))
    {
      GatherStep(block, pieces, k);
      var b := block(pieces[k]);
      if b.Err? {
        return Err(b.error);
      }
      if b.value.Some? {
        PrependOne(subtitles, b.value.value, Gather(block, pieces[k + 1..]));
        subtitles := subtitles + [b.value.value];
      }
      k := k + 1;
    }
    assert pieces[k..] == [];
    assert subtitles + [] == subtitles;
    r := Ok(subtitles);
  }

  /** `parse`: the loop over the pieces, then the optional `skip_empty` filter. */
  method Parse(text: string, skipEmpty: bool) returns (r: Result<seq<Line>, ParseError>)
    ensures r == ParseSpec(text)
  {
    var pieces := Pieces(text);
    r := GatherLoop(ParseBlock, pieces);
    if skipEmpty && r.Ok? {
      ParsedTextsStripped(pieces);
      SkipEmptyIsNoOp(r.value, TextOf);
      r := Ok(KeepNonEmpty(r.value, TextOf));
    }
  }

  // ---------------------------------------------------------------------
  // sorted(subtitles, key=lambda k: k.ms.start)

  predicate SortedByStart(ls: seq<Line>) {
    forall i, j :: 0 <= i < j < |ls| ==> ls[i].ms.start <= ls[j].ms.start
  }

  /** Place `l` after every line that starts no later than it. */
  function InsertByStart(sorted: seq<Line>, l: Line): (r: seq<Line>)
    ensures |r| == |sorted| + 1
  {
    if sorted == [] || sorted[|sorted| - 1].ms.start <= l.ms.start then sorted + [l]
    else InsertByStart(sorted[..|sorted| - 1], l) + [sorted[|sorted| - 1]]
  }

  /** Inserting adds `l` and loses nothing. */
  lemma {:induction false} InsertByStartPermutes(sorted: seq<Line>, l: Line)
    ensures multiset(InsertByStart(sorted, l)) == multiset(sorted) + multiset{l}
    decreases |sorted|
  {
    if sorted != [] && sorted[|sorted| - 1].ms.start > l.ms.start {
      var init, last := sorted[..|sorted| - 1], sorted[|sorted| - 1];
      assert sorted == init + [last];
      InsertByStartPermutes(init, l);
    }
  }

  /** `sorted(..., key=start)`: a stable insertion sort. */
  function SortByStart(ls: seq<Line>): (r: seq<Line>)
    ensures |r| == |ls|
  {
    if ls == [] then []
    else InsertByStart(SortByStart(ls[..|ls| - 1]), ls[|ls| - 1])
  }

  /** The sort is a permutation of its input. */
  lemma {:induction false} SortByStartPermutes(ls: seq<Line>)
    ensures multiset(SortByStart(ls)) == multiset(ls)
    decreases |ls|
  {
    if ls != [] {
      var init, last := ls[..|ls| - 1], ls[|ls| - 1];
      assert ls == init + [last];
      SortByStartPermutes(init);
      InsertByStartPermutes(SortByStart(init), last);
    }
  }

  lemma {:induction false} InsertKeepsSorted(sorted: seq<Line>, l: Line)
    requires SortedByStart(sorted)
    ensures SortedByStart(InsertByStart(sorted, l))
    ensures forall k :: 0 <= k < |InsertByStart(sorted, l)| ==>
      InsertByStart(sorted, l)[k] == l || InsertByStart(sorted, l)[k] in sorted
    decreases |sorted|
  {
    if sorted != [] && sorted[|sorted| - 1].ms.start > l.ms.start {
      var init, last := sorted[..|sorted| - 1], sorted[|sorted| - 1];
      InsertKeepsSorted(init, l);
      var r := InsertByStart(init, l);
      forall k | 0 <= k < |r| ensures r[k].ms.start <= last.ms.start {
        if r[k] != l {
          assert r[k] in init;
        }
      }
    }
  }

  /** The result of the sort is ordered by start. */
  lemma {:induction false} SortByStartSorted(ls: seq<Line>)
    ensures SortedByStart(SortByStart(ls))
    decreases |ls|
  {
    if ls != [] {
      SortByStartSorted(ls[..|ls| - 1]);
      InsertKeepsSorted(SortByStart(ls[..|ls| - 1]), ls[|ls| - 1]);
    }
  }

  /** The lines that start at `t`, in order. */
  function WithStart(ls: seq<Line>, t: int): seq<Line> {
    if ls == [] then []
    else WithStart(ls[..|ls| - 1], t) + (if ls[|ls| - 1].ms.start == t then [ls[|ls| - 1]] else [])
  }

  lemma {:induction false} WithStartAppend(a: seq<Line>, b: seq<Line>, t: int)
    ensures WithStart(a + b, t) == WithStart(a, t) + WithStart(b, t)
    decreases |b|
  {
    if b == [] {
      assert a + b == a;
    } else {
      assert (a + b)[..|a + b| - 1] == a + b[..|b| - 1];
      WithStartAppend(a, b[..|b| - 1], t);
    }
  }

  lemma WithStartOne(x: Line, t: int)
    ensures WithStart([x], t) == if x.ms.start == t then [x] else []
  {
    assert [x][..0] == [];
  }

  /** Two parts of which one is empty can be swapped. */
  lemma SwapEmpty<T>(a: seq<T>, b: seq<T>, c: seq<T>)
    requires b == [] || c == []
    ensures a + b + c == a + c + b
  {
    if b == [] {
      assert a + b == a && a + c + b == a + c;
    } else {
      assert a + c == a && a + b + c == a + b;
    }
  }

  lemma {:induction false} InsertIsStable(sorted: seq<Line>, l: Line, t: int)
    ensures WithStart(InsertByStart(sorted, l), t) == WithStart(sorted + [l], t)
    decreases |sorted|
  {
    if sorted != [] && sorted[|sorted| - 1].ms.start > l.ms.start {
      var init, last := sorted[..|sorted| - 1], sorted[|sorted| - 1];
      var ins := InsertByStart(init, l);
      var wi, wl, wa := WithStart(init, t), WithStart([l], t), WithStart([last], t);
      assert init + [last] == sorted;
      calc {
        WithStart(InsertByStart(sorted, l), t);
        WithStart(ins + [last], t);
        { WithStartAppend(ins, [last], t); }
        WithStart(ins, t) + wa;
        { InsertIsStable(init, l, t); WithStartAppend(init, [l], t); }
        wi + wl + wa;
        { WithStartOne(l, t); WithStartOne(last, t); SwapEmpty(wi, wl, wa); }
        wi + wa + wl;
        { WithStartAppend(init, [last], t); }
        WithStart(sorted, t) + wl;
        { WithStartAppend(sorted, [l], t); }
        WithStart(sorted + [l], t);
      }
    }
  }

  /** Lines with equal starts keep their relative order: the sort is stable. */
  lemma {:induction false} SortByStartStable(ls: seq<Line>, t: int)
    ensures WithStart(SortByStart(ls), t) == WithStart(ls, t)
    decreases |ls|
  {
    if ls != [] {
      var init, last := ls[..|ls| - 1], ls[|ls| - 1];
      var sortedInit := SortByStart(init);
      assert SortByStart(ls) == InsertByStart(sortedInit, last);
      SortByStartStable(init, t);
      InsertIsStable(sortedInit, last, t);
      WithStartAppend(sortedInit, [last], t);
      WithStartAppend(init, [last], t);
      InitAndLast(ls);
    }
  }

  lemma InitAndLast(ls: seq<Line>)
    requires ls != []
    ensures ls == ls[..|ls| - 1] + [ls[|ls| - 1]]
  {
  }

  // ---------------------------------------------------------------------
  // unparse

  /** A block's body: the time label, a newline and the text. */
  function Body(l: Line): string {
    l.ms.ToString() + "\n" + l.text
  }

  /** The blocks `i\n<label>\n<text>`, numbered from `n`. */
  function Blocks(ls: seq<Line>, n: nat): (r: seq<string>)
    ensures |r| == |ls|
  {
    if ls == [] then [] else [NatToString(n) + "\n" + Body(ls[0])] + Blocks(ls[1..], n + 1)
  }

  /** `unparse`: sorted by start, numbered from 1, separated by a blank line. */
  function Unparse(ls: seq<Line>): string {
    Written(SortByStart(ls))
  }

  /** The same blocks as number/body frames. */
  function Frames(ls: seq<Line>, n: nat): (r: seq<(string, string)>)
    ensures |r| == |ls|
  {
    Framed(ls, n, Body)
  }

  /** Each item numbered from `n` and written by `body`. */
  function Framed<L>(ls: seq<L>, n: nat, body: L -> string): (r: seq<(string, string)>)
    ensures |r| == |ls|
  {
    if ls == [] then [] else [(NatToString(n), body(ls[0]))] + Framed(ls[1..], n + 1, body)
  }

  lemma {:induction false} BlocksAreFrameBlocks(ls: seq<Line>, n: nat)
    ensures Blocks(ls, n) == FrameBlocks(Frames(ls, n))
    decreases |ls|
  {
    if ls != [] {
      var fs := Frames(ls, n);
      assert fs[1..] == Frames(ls[1..], n + 1);
      BlocksAreFrameBlocks(ls[1..], n + 1);
    }
  }

  lemma JoinedBlocksAreFrames(ls: seq<Line>, n: nat)
    requires ls != []
    ensures "\n\n" + Join(Blocks(ls, n), "\n\n") == FramesText(Frames(ls, n))
  {
    BlocksAreFrameBlocks(ls, n);
    JoinedFrames(Frames(ls, n));
  }

  /** What `unparse` can write and `parse` read back unchanged. */
  ghost predicate Representable(l: Line) {
    && 0 <= l.ms.start < 86400000 && 0 <= l.ms.end < 86400000
    && l.text != [] && IsStripped(l.text) && NoNumberLine(l.text)
  }

  lemma LabelHasNoNewline(t: TimeLabel)
    ensures forall k :: 0 <= k < |t.ToString()| ==> t.ToString()[k] != '\n'
  {
    SrtTimeChars(t.start);
    SrtTimeChars(t.end);
  }

  lemma BodyIsQuiet(l: Line)
    requires Representable(l)
    ensures QuietBody(Body(l))
  {
    LabelHasNoNewline(l.ms);
    QuietJoin(l.ms.ToString(), l.text);
  }

  /**
   * A line without newlines, a newline, and a stripped text without a
   * numbered line after a blank one: no separator starts inside, and the
   * body does not end in a newline.
   */
  lemma QuietJoin(tl: string, text: string)
    requires forall k :: 0 <= k < |tl| ==> tl[k] != '\n'
    requires text != [] && IsStripped(text) && NoNumberLine(text)
    ensures QuietBody(tl + "\n" + text)
  {
    var b := tl + "\n" + text;
    var a := tl + "\n";
    assert !IsSpace(text[0]) && !IsSpace(text[|text| - 1]);
    forall p | 0 <= p < |b| ensures MarkEnd(b + "\n", p).None? {
      if p < |tl| {
        assert (b + "\n")[p] == tl[p];
      } else if p == |tl| {
        assert (b + "\n")[p + 1] == text[0];
      } else {
        assert b + "\n" == a + (text + "\n");
        MarkEndShift(a, text + "\n", p - |a|);
      }
    }
    assert b[|b| - 1] == text[|text| - 1];
  }

  /** A representable line's block body reads back as the line. */
  lemma ParseBody(l: Line)
    requires Representable(l)
    ensures ParseBlock(Body(l)) == Ok(Some(l))
  {
    var tl := l.ms.ToString();
    LabelHasNoNewline(l.ms);
    SplitOnceAt(tl, "\n", l.text);
    StripOfStripped(l.text);
    SrtTimeChars(l.ms.start);
    SplitOnceAt(MsToSrtTime(l.ms.start), " --> ", MsToSrtTime(l.ms.end));
    ParseSrtTime(l.ms.start);
    ParseSrtTime(l.ms.end);
  }

  /** The bodies of representable lines parse back as those lines. */
  lemma ParsePiecesCons(pieces: seq<string>, l: Line, rest: seq<Line>)
    requires pieces != [] && ParseBlock(pieces[0]) == Ok(Some(l)) && ParsePieces(pieces[1..]) == Ok(rest)
    ensures ParsePieces(pieces) == Ok([l] + rest)
  {
    ParsePiecesHead(pieces);
  }

  /** Pieces that each parse as the matching line parse, all together, as those lines. */
  lemma {:induction false} ParseEachPiece(pieces: seq<string>, ls: seq<Line>)
    requires |pieces| == |ls|
    requires forall k :: 0 <= k < |pieces| ==> ParseBlock(pieces[k]) == Ok(Some(ls[k]))
    ensures ParsePieces(pieces) == Ok(ls)
    decreases |pieces|
  {
    if pieces != [] {
      var ps, rs := pieces[1..], ls[1..];
      forall k | 0 <= k < |ps| ensures ParseBlock(ps[k]) == Ok(Some(rs[k])) {
        assert ps[k] == pieces[k + 1];
      }
      ParseEachPiece(ps, rs);
      ParsePiecesCons(pieces, ls[0], rs);
      assert [ls[0]] + rs == ls;
    }
  }

  /** The k-th body of the frames is the body of the k-th line. */
  lemma {:induction false} BodyOfFrame<L>(ls: seq<L>, n: nat, body: L -> string, k: nat)
    requires k < |ls|
    ensures Bodies(Framed(ls, n, body))[k] == body(ls[k])
    decreases k
  {
    var fs := Framed(ls, n, body);
    assert fs[1..] == Framed(ls[1..], n + 1, body);
    if k > 0 {
      BodyOfFrame(ls[1..], n + 1, body, k - 1);
    }
  }

  lemma BodyParsesAt(ls: seq<Line>, n: nat, k: nat)
    requires k < |ls| && Representable(ls[k])
    ensures ParseBlock(Bodies(Frames(ls, n))[k]) == Ok(Some(ls[k]))
  {
    BodyOfFrame(ls, n, Body, k);
    ParseBody(ls[k]);
  }

  /** The bodies of representable lines parse back as those lines. */
  lemma ParseBodies(ls: seq<Line>, n: nat)
    requires forall k :: 0 <= k < |ls| ==> Representable(ls[k])
    ensures ParsePieces(Bodies(Frames(ls, n))) == Ok(ls)
  {
    var ps := Bodies(Frames(ls, n));
    forall k | 0 <= k < |ps| ensures ParseBlock(ps[k]) == Ok(Some(ls[k])) {
      BodyParsesAt(ls, n, k);
    }
    ParseEachPiece(ps, ls);
  }

  lemma GoodFramesOf(ls: seq<Line>, n: nat)
    requires forall k :: 0 <= k < |ls| ==> Representable(ls[k])
    ensures GoodFrames(Frames(ls, n))
  {
    forall k | 0 <= k < |ls| ensures QuietBody(Body(ls[k])) {
      BodyIsQuiet(ls[k]);
    }
    GoodFramed(ls, n, Body);
  }

  /** Numbered frames of quiet bodies are good frames. */
  lemma {:induction false} GoodFramed<L>(ls: seq<L>, n: nat, body: L -> string)
    requires forall k :: 0 <= k < |ls| ==> QuietBody(body(ls[k]))
    ensures GoodFrames(Framed(ls, n, body))
    decreases |ls|
  {
    if ls != [] {
      var fs := Framed(ls, n, body);
      assert fs[1..] == Framed(ls[1..], n + 1, body);
      assert forall k :: 0 <= k < |ls[1..]| ==> ls[1..][k] == ls[k + 1];
      GoodFramed(ls[1..], n + 1, body);
      forall k | 0 <= k < |fs| ensures |fs[k].0| >= 1 && AllDigits(fs[k].0) && QuietBody(fs[k].1) {
        if k > 0 {
          assert fs[k] == fs[1..][k - 1];
        }
      }
    }
  }

  lemma SortedRepresentable(ls: seq<Line>)
    requires forall k :: 0 <= k < |ls| ==> Representable(ls[k])
    ensures forall k :: 0 <= k < |SortByStart(ls)| ==> Representable(SortByStart(ls)[k])
  {
    var sorted := SortByStart(ls);
    SortByStartPermutes(ls);
    forall k | 0 <= k < |sorted| ensures Representable(sorted[k]) {
      assert sorted[k] in multiset(ls);
    }
  }

  /** The blocks joined by a blank line: the text `unparse` writes for lines already in order. */
  function Written(ls: seq<Line>): string {
    Join(Blocks(ls, 1), "\n\n")
  }

  /** No lines are written as nothing, which holds no pieces. */
  lemma WrittenEmpty()
    ensures Pieces(Written([])) == []
  {
    assert Written([]) == "";
    assert LStrip("") == "";
    assert "\n\n" + "" == "\n\n";
    assert SplitBlocks("\n\n") == ["\n\n"];
  }

  /** The written text starts with the number 1, so left-stripping leaves it alone. */
  lemma WrittenLaidOut(ls: seq<Line>)
    requires ls != []
    ensures "\n\n" + LStrip(Written(ls)) == FramesText(Frames(ls, 1))
  {
    JoinedBlocksAreFrames(ls, 1);
    FrameNumber(ls, 1);
    NumberedText(Frames(ls, 1), Written(ls));
  }

  lemma FrameNumber(ls: seq<Line>, n: nat)
    requires ls != []
    ensures |Frames(ls, n)[0].0| >= 1 && IsDigit(Frames(ls, n)[0].0[0])
  {
  }

  /** The pieces read from written lines are their bodies, in order. */
  lemma WrittenPieces(ls: seq<Line>)
    requires ls != [] && forall k :: 0 <= k < |ls| ==> Representable(ls[k])
    ensures Pieces(Written(ls)) == Bodies(Frames(ls, 1))
  {
    var fs := Frames(ls, 1);
    WrittenLaidOut(ls);
    GoodFramesOf(ls, 1);
    SplitFramed("", fs);
    assert "" + FramesText(fs) == FramesText(fs);
  }

  /** Representable lines written as numbered blocks parse back as themselves, in order. */
  lemma WrittenThenParse(ls: seq<Line>)
    requires forall k :: 0 <= k < |ls| ==> Representable(ls[k])
    ensures ParseSpec(Written(ls)) == Ok(ls)
  {
    if ls == [] {
      WrittenEmpty();
    } else {
      WrittenPieces(ls);
      ParseBodies(ls, 1);
    }
  }

  /**
   * Round trip: `parse(unparse(lines))` gives back the lines sorted by start,
   * for lines within one day whose texts are stripped, non-empty and hold no
   * blank line followed by a line of digits only.
   */
  lemma UnparseThenParse(ls: seq<Line>)
    requires forall k :: 0 <= k < |ls| ==> Representable(ls[k])
    ensures ParseSpec(Unparse(ls)) == Ok(SortByStart(ls))
  {
    SortedRepresentable(ls);
    WrittenThenParse(SortByStart(ls));
  }

  /** A text may hold a blank line: only a blank line followed by a number line is a separator. */
  lemma BlankLineTextRoundTrips()
    ensures ParseSpec(Unparse([Line(TimeLabel(0, 1000), "a\n\nb")])) == Ok([Line(TimeLabel(0, 1000), "a\n\nb")])
  {
    var l := Line(TimeLabel(0, 1000), "a\n\nb");
    var u := "a\n\nb\n";
    forall p | 0 <= p < 4 ensures MarkEnd(u, p).None? {
      if p == 1 {
        assert u[3] == 'b';
        DigitRunIs(u, 3, 0);
      }
    }
    UnparseThenParse([l]);
    assert SortByStart([l]) == [l];
  }
}
