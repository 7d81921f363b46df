/**
 * The text layer of SRT handling shared by every subtitle module: splitting a
 * transcript at its numbered-block separators, reading a `%H:%M:%S,%f` time
 * as `datetime.strptime` does, and `ms_to_srt_time` (fastdub/subtitles.py).
 */
module SrtText {
  import opened Wrappers
  import opened Text

  /** Length of the run of ASCII digits starting at `i`. */
  function DigitRun(s: string, i: nat): (n: nat)
    requires i <= |s|
    ensures i + n <= |s| && forall j :: i <= j < i + n ==> IsDigit(s[j])
    ensures i + n == |s| || !IsDigit(s[i + n])
    decreases |s| - i
  {
    if i < |s| && IsDigit(s[i]) then 1 + DigitRun(s, i + 1) else 0
  }

  lemma {:induction false} DigitRunIs(s: string, i: nat, k: nat)
    requires i + k <= |s| && forall j :: i <= j < i + k ==> IsDigit(s[j])
    requires i + k == |s| || !IsDigit(s[i + k])
    ensures DigitRun(s, i) == k
    decreases k
  {
    if k > 0 {
      DigitRunIs(s, i + 1, k - 1);
    }
  }

  lemma DigitsOfSlice(s: string, i: nat, j: nat)
    requires i <= j <= |s| && forall k :: i <= k < j ==> IsDigit(s[k])
    ensures AllDigits(s[i..j])
  {
  }

  // ---------------------------------------------------------------------
  // LINE_REGEX.split: the separator `\n\n^\d+$\n` (multi-line mode)

  /**
   * The end of a separator match starting at `i`: a blank line, then a line
   * made only of digits (`\d+` is greedy and `$` needs a newline right after).
   */
  function MarkEnd(s: string, i: nat): (e: Option<nat>)
    requires i <= |s|
    ensures e.Some? ==> i < e.value <= |s|
  {
    if i + 2 <= |s| && s[i] == '\n' && s[i + 1] == '\n' then
      var n := DigitRun(s, i + 2);
      if n >= 1 && i + 2 + n < |s| && s[i + 2 + n] == '\n' then Some(i + 3 + n) else None
    else None
  }

  /**
   * `re.split` from offset `i` of the current piece: matches are found left to
   * right and do not overlap; the text between them is kept, separators are not.
   */
  function SplitFrom(s: string, i: nat): (r: seq<string>)
    requires i <= |s|
    ensures |r| >= 1
    decreases |s|, |s| - i
  {
    if i == |s| then [s]
    else
      match MarkEnd(s, i)
      case Some(e) => [s[..i]] + SplitFrom(s[e..], 0)
      case None => SplitFrom(s, i + 1)
  }

  /** `LINE_REGEX.split(s)` */
  function SplitBlocks(s: string): seq<string> {
    SplitFrom(s, 0)
  }

  lemma {:induction false} SplitSkips(s: string, i: nat, j: nat)
    requires i <= j <= |s|
    requires forall p :: i <= p < j ==> MarkEnd(s, p).None?
    ensures SplitFrom(s, i) == SplitFrom(s, j)
    decreases j - i
  {
    if i < j {
      SplitSkips(s, i + 1, j);
    }
  }

  /** Text of numbered blocks, each laid out as a blank line, its number, a newline and its body. */
  function FramesText(fs: seq<(string, string)>): string {
    if fs == [] then "" else "\n\n" + fs[0].0 + "\n" + (fs[0].1 + FramesText(fs[1..]))
  }

  /** Each frame as one block: its number, a newline and its body. */
  function FrameBlocks(fs: seq<(string, string)>): (r: seq<string>)
    ensures |r| == |fs|
  {
    if fs == [] then [] else [fs[0].0 + "\n" + fs[0].1] + FrameBlocks(fs[1..])
  }

  lemma JoinShape(num: string, body: string, rest: string)
    ensures "\n\n" + (num + "\n" + body + "\n\n" + rest) == "\n\n" + num + "\n" + (body + ("\n\n" + rest))
  {
  }

  /** Blocks joined by a blank line, after a leading blank line, are the laid-out frames. */
  lemma {:induction false} JoinedFrames(fs: seq<(string, string)>)
    requires fs != []
    ensures "\n\n" + Join(FrameBlocks(fs), "\n\n") == FramesText(fs)
    decreases |fs|
  {
    var bs := FrameBlocks(fs);
    assert bs[1..] == FrameBlocks(fs[1..]);
    if |fs| == 1 {
      assert FramesText(fs[1..]) == "";
      assert "\n\n" + (fs[0].0 + "\n" + fs[0].1) == "\n\n" + fs[0].0 + "\n" + (fs[0].1 + "");
    } else {
      JoinedFrames(fs[1..]);
      JoinShape(fs[0].0, fs[0].1, Join(bs[1..], "\n\n"));
    }
  }

  /** Laid-out frames whose first number starts with a digit: the text after the leading blank line is already left-stripped. */
  lemma NumberedText(fs: seq<(string, string)>, u: string)
    requires fs != [] && |fs[0].0| >= 1 && IsDigit(fs[0].0[0])
    requires "\n\n" + u == FramesText(fs)
    ensures LStrip(u) == u
  {
    var rest := fs[0].0 + "\n" + (fs[0].1 + FramesText(fs[1..]));
    assert FramesText(fs) == "\n\n" + rest;
    assert u == rest by {
      assert u == ("\n\n" + u)[2..] && rest == ("\n\n" + rest)[2..];
    }
    assert u[0] == fs[0].0[0];
    assert !IsSpace(u[0]);
  }

  /**
   * No blank line in the text is followed by a line of digits only, the
   * text's end counting as the end of a line: no separator starts inside
   * it, even when a newline follows it.
   */
  ghost predicate NoNumberLine(b: string) {
    forall p :: 0 <= p < |b| ==> MarkEnd(b + "\n", p).None?
  }

  /** A digit run is unchanged by text put before it. */
  lemma {:induction false} DigitRunShift(a: string, s: string, i: nat)
    requires i <= |s|
    ensures DigitRun(a + s, |a| + i) == DigitRun(s, i)
    decreases |s| - i
  {
    if i < |s| {
      assert (a + s)[|a| + i] == s[i];
      DigitRunShift(a, s, i + 1);
    }
  }

  /** A separator is found at the same place, shifted, after text put before it. */
  lemma MarkEndShift(a: string, s: string, q: nat)
    requires q <= |s|
    ensures MarkEnd(s, q).None? ==> MarkEnd(a + s, |a| + q).None?
  {
    var t := a + s;
    if q + 2 <= |s| {
      assert t[|a| + q] == s[q] && t[|a| + q + 1] == s[q + 1];
      DigitRunShift(a, s, q + 2);
      var n := DigitRun(s, q + 2);
      if q + 2 + n < |s| {
        assert t[|a| + q + 2 + n] == s[q + 2 + n];
      }
    }
  }

  /** A block body in which no separator can start: no numbered line after a blank one, no newline at its end. */
  ghost predicate QuietBody(b: string) {
    NoNumberLine(b) && (b == [] || b[|b| - 1] != '\n')
  }

  ghost predicate GoodFrames(fs: seq<(string, string)>) {
    forall k :: 0 <= k < |fs| ==> |fs[k].0| >= 1 && AllDigits(fs[k].0) && QuietBody(fs[k].1)
  }

  function Bodies(fs: seq<(string, string)>): (r: seq<string>)
    ensures |r| == |fs|
  {
    if fs == [] then [] else [fs[0].1] + Bodies(fs[1..])
  }

  /**
   * A separator starting inside a body that does not end in a newline, and
   * that is followed by nothing or by a newline, is also a separator when
   * a single newline follows the body.
   */
  lemma MarkSeenBeforeNewline(body: string, tail: string, p: nat)
    requires p < |body| && body[|body| - 1] != '\n'
    requires tail == [] || tail[0] == '\n'
    ensures MarkEnd(body + tail, p).Some? ==> MarkEnd(body + "\n", p).Some?
  {
    var t, u := body + tail, body + "\n";
    if MarkEnd(t, p).Some? {
      assert t[p] == body[p];
      assert p + 1 < |body|;
      var n := DigitRun(t, p + 2);
      if |tail| > 0 {
        assert t[|body|] == tail[0];
      }
      assert p + 2 + n <= |body|;
      forall j | p + 2 <= j < p + 2 + n ensures IsDigit(u[j]) {
        assert u[j] == body[j] == t[j];
      }
      if p + 2 + n < |body| {
        assert u[p + 2 + n] == body[p + 2 + n] == t[p + 2 + n];
      }
      DigitRunIs(u, p + 2, n);
      assert u[p] == t[p] && u[p + 1] == t[p + 1];
    }
  }

  /** No separator starts inside a quiet body when nothing or a newline follows it. */
  lemma QuietBodyHasNoMark(body: string, tail: string, p: nat)
    requires QuietBody(body) && p < |body|
    requires tail == [] || tail[0] == '\n'
    ensures MarkEnd(body + tail, p).None?
  {
    MarkSeenBeforeNewline(body, tail, p);
  }

  /** A blank line, a number and a newline form one separator. */
  lemma MarkOfFrame(body: string, num: string, tail: string)
    requires |num| >= 1 && AllDigits(num)
    ensures var t := body + ("\n\n" + num + "\n" + tail);
      && MarkEnd(t, |body|) == Some(|body| + 3 + |num|)
      && t[..|body|] == body && t[|body| + 3 + |num|..] == tail
  {
    var t := body + ("\n\n" + num + "\n" + tail);
    forall j | |body| + 2 <= j < |body| + 2 + |num| ensures IsDigit(t[j]) {
      assert t[j] == num[j - |body| - 2];
    }
    DigitRunIs(t, |body| + 2, |num|);
  }

  lemma SplitAtMark(s: string, i: nat, e: nat)
    requires i < |s| && MarkEnd(s, i) == Some(e)
    ensures SplitFrom(s, i) == [s[..i]] + SplitFrom(s[e..], 0)
  {
  }

  /** The scan passes over a quiet body without splitting. */
  lemma SkipQuietBody(body: string, tail: string)
    requires QuietBody(body)
    requires tail == [] || tail[0] == '\n'
    ensures SplitFrom(body + tail, 0) == SplitFrom(body + tail, |body|)
  {
    forall p | 0 <= p < |body| ensures MarkEnd(body + tail, p).None? {
      QuietBodyHasNoMark(body, tail, p);
    }
    SplitSkips(body + tail, 0, |body|);
  }

  /** At a frame the scan cuts off the text before it and resumes after its number line. */
  lemma SplitAtFrame(body: string, num: string, tail: string)
    requires |num| >= 1 && AllDigits(num)
    ensures SplitFrom(body + ("\n\n" + num + "\n" + tail), |body|) == [body] + SplitFrom(tail, 0)
  {
    MarkOfFrame(body, num, tail);
    SplitAtMark(body + ("\n\n" + num + "\n" + tail), |body|, |body| + 3 + |num|);
  }

  /** One frame: the quiet body before it is a piece, and splitting resumes after its number line. */
  lemma SplitOneFrame(body: string, num: string, tail: string)
    requires QuietBody(body) && |num| >= 1 && AllDigits(num)
    ensures SplitFrom(body + ("\n\n" + num + "\n" + tail), 0) == [body] + SplitFrom(tail, 0)
  {
    SkipQuietBody(body, "\n\n" + num + "\n" + tail);
    SplitAtFrame(body, num, tail);
  }

  /** A quiet text alone is one piece. */
  lemma SplitQuiet(body: string)
    requires QuietBody(body)
    ensures SplitFrom(body, 0) == [body]
  {
    SkipQuietBody(body, "");
    assert body + "" == body;
  }

  lemma GoodFramesTail(fs: seq<(string, string)>)
    requires fs != [] && GoodFrames(fs)
    ensures GoodFrames(fs[1..]) && QuietBody(fs[0].1) && |fs[0].0| >= 1 && AllDigits(fs[0].0)
  {
    forall k | 0 <= k < |fs| - 1
      ensures |fs[1..][k].0| >= 1 && AllDigits(fs[1..][k].0) && QuietBody(fs[1..][k].1)
    {
      assert fs[1..][k] == fs[k + 1];
    }
  }

  /** Splitting laid-out blocks gives back the text before them and every body, in order. */
  lemma {:induction false} SplitFramed(body: string, fs: seq<(string, string)>)
    requires QuietBody(body) && GoodFrames(fs)
    ensures SplitFrom(body + FramesText(fs), 0) == [body] + Bodies(fs)
    decreases |fs|
  {
    if fs == [] {
      SplitQuiet(body);
      assert body + FramesText(fs) == body;
    } else {
      var num, b0, rest := fs[0].0, fs[0].1, FramesText(fs[1..]);
      GoodFramesTail(fs);
      SplitOneFrame(body, num, b0 + rest);
      SplitFramed(b0, fs[1..]);
    }
  }

  // ---------------------------------------------------------------------
  // datetime.strptime(j, '%H:%M:%S,%f')

  /** The fields of the `datetime.time` that `strptime` produces. */
  datatype Clock = Clock(hour: nat, minute: nat, second: nat, micro: nat)

  /**
   * A `%H`, `%M` or `%S` field at `i`: one or two digits followed by `sep`,
   * worth at most `max`. Returns the value and the index after `sep`.
   */
  function ClockField(s: string, i: nat, sep: char, max: nat): (r: Option<(nat, nat)>)
    requires i <= |s|
    ensures r.Some? ==> i + 2 <= r.value.1 <= i + 3 && r.value.1 <= |s| && r.value.0 <= max
  {
    var n := DigitRun(s, i);
    if 1 <= n <= 2 && i + n < |s| && s[i + n] == sep && DigitsValue(s[i..i + n]) <= max then
      Some((DigitsValue(s[i..i + n]), i + n + 1))
    else None
  }

  /**
   * `strptime(j, '%H:%M:%S,%f')`: hours up to 23, minutes and seconds up to
   * 59 (the pattern admits 60 and 61, which `datetime` then refuses), one to
   * six fraction digits read as microseconds, and nothing after them.
   */
  function ParseClock(s: string): (r: Option<Clock>)
    ensures r.Some? ==> r.value.hour < 24 && r.value.minute < 60 && r.value.second < 60
    ensures r.Some? ==> r.value.micro < 1000000
  {
    match ClockField(s, 0, ':', 23)
    case None => None
    case Some((h, i)) =>
      match ClockField(s, i, ':', 59)
      case None => None
      case Some((m, j)) =>
        match ClockField(s, j, ',', 61)
        case None => None
        case Some((sec, k)) =>
          var f := s[k..];
          if 1 <= |f| <= 6 && AllDigits(f) && sec <= 59 then Some(Clock(h, m, sec, Micros(f)))
          else None
  }

  /** `%f`: the digits padded on the right with zeros to six places. */
  function Micros(f: string): (u: nat)
    requires 1 <= |f| <= 6 && AllDigits(f)
    ensures u < 1000000
  {
    MicrosBound(f);
    DigitsValue(f) * Pow10(6 - |f|)
  }

  lemma MicrosBound(f: string)
    requires |f| <= 6 && AllDigits(f)
    ensures DigitsValue(f) * Pow10(6 - |f|) < 1000000
  {
    var v, a, b := DigitsValue(f), Pow10(|f|), Pow10(6 - |f|);
    DigitsValueBound(f);
    Pow10Add(|f|, 6 - |f|);
    assert a * b == Pow10(6) == 1000000;
    assert v * b < a * b by {
      assert v < a && b > 0;
    }
  }

  // ---------------------------------------------------------------------
  // ms_to_srt_time

  /** `divmod` by 1000, then 60, then 60: hours, minutes, seconds and milliseconds. */
  function TimeFields(ms: int): (int, int, int, int) {
    var s, millis := ms / 1000, ms % 1000;
    var m, sec := s / 60, s % 60;
    (m / 60, m % 60, sec, millis)
  }

  /**
   * Minutes and seconds fall below 60 and milliseconds below 1000, the fields
   * add back up to `ms`, and the hours are negative exactly when `ms` is and
   * below 24 exactly when `ms` is below a day.
   */
  lemma TimeFieldsSum(ms: int)
    ensures var (h, m, s, f) := TimeFields(ms);
      && 0 <= m < 60 && 0 <= s < 60 && 0 <= f < 1000
      && h * 3600000 + m * 60000 + s * 1000 + f == ms
      && (h < 0 <==> ms < 0) && (h < 24 <==> ms < 86400000)
  {
    var s, f := ms / 1000, ms % 1000;
    var m, sec := s / 60, s % 60;
    var h, min := m / 60, m % 60;
    assert ms == s * 1000 + f;
    assert s == m * 60 + sec;
    assert m == h * 60 + min;
  }

  /** One field of `f'{x:0>w}'`. */
  function Pad(x: int, width: nat): string {
    ZeroPad(IntToString(x), width)
  }

  /** The layout `H:MM:SS,mmm`. */
  function Layout(h: string, m: string, s: string, f: string): string {
    h + ":" + m + ":" + s + "," + f
  }

  lemma LayoutFields(h: string, m: string, s: string, f: string)
    requires |m| == 2 && |s| == 2 && |f| == 3
    ensures var r := Layout(h, m, s, f);
      && |r| == |h| + 10
      && r[..|h|] == h && r[|h|] == ':' && r[|h| + 1..|h| + 3] == m && r[|h| + 3] == ':'
      && r[|h| + 4..|h| + 6] == s && r[|h| + 6] == ',' && r[|h| + 7..] == f
  {
  }

  /** `ms_to_srt_time`: divmod by 1000, 60 and 60, fields zero-padded to widths 2, 2, 2 and 3. */
  function MsToSrtTime(ms: int): string {
    var (h, m, s, f) := TimeFields(ms);
    Layout(Pad(h, 2), Pad(m, 2), Pad(s, 2), Pad(f, 3))
  }

  predicate TimeChars(s: string) {
    forall k :: 0 <= k < |s| ==> IsDigit(s[k]) || s[k] == '-' || s[k] == ':' || s[k] == ','
  }

  lemma PadChars(x: int, width: nat)
    ensures TimeChars(Pad(x, width))
  {
  }

  /** A rendered time holds digits, signs and separators only: no space and no newline. */
  lemma SrtTimeChars(ms: int)
    ensures TimeChars(MsToSrtTime(ms))
  {
    var (h, m, s, f) := TimeFields(ms);
    PadChars(h, 2);
    PadChars(m, 2);
    PadChars(s, 2);
    PadChars(f, 3);
    LayoutChars(Pad(h, 2), Pad(m, 2), Pad(s, 2), Pad(f, 3));
  }

  lemma LayoutChars(h: string, m: string, s: string, f: string)
    requires TimeChars(h) && TimeChars(m) && TimeChars(s) && TimeChars(f)
    ensures TimeChars(Layout(h, m, s, f))
  {
    var r := Layout(h, m, s, f);
    forall k | 0 <= k < |r| ensures IsDigit(r[k]) || r[k] == '-' || r[k] == ':' || r[k] == ',' {
      var a, b, c := |h| + 1 + |m|, |h| + 1 + |m| + 1 + |s|, |h| + 1 + |m| + 1 + |s| + 1;
      if k < |h| {
        assert r[k] == h[k];
      } else if |h| < k < a {
        assert r[k] == m[k - |h| - 1];
      } else if a < k < b {
        assert r[k] == s[k - a - 1];
      } else if c <= k {
        assert r[k] == f[k - c];
      }
    }
  }

  lemma PaddedNat(n: nat, width: nat)
    requires 1 <= width && n < Pow10(width)
    ensures |Pad(n, width)| == width
    ensures AllDigits(Pad(n, width))
    ensures DigitsValue(Pad(n, width)) == n
  {
    NatToStringLength(n, width);
    ZeroPadValue(n, width);
  }

  /**
   * The fields of `ms_to_srt_time` for ms >= 0: minutes and seconds are two
   * digits below 60, milliseconds three digits below 1000, and the hours keep
   * every digit (at least two), so the fields add back up to `ms`.
   */
  lemma MsToSrtTimeFields(ms: nat)
    ensures var r := MsToSrtTime(ms);
      && |r| >= 12
      && r[|r| - 10] == ':' && r[|r| - 7] == ':' && r[|r| - 4] == ','
      && AllDigits(r[..|r| - 10]) && AllDigits(r[|r| - 9..|r| - 7])
      && AllDigits(r[|r| - 6..|r| - 4]) && AllDigits(r[|r| - 3..])
      && DigitsValue(r[|r| - 9..|r| - 7]) < 60 && DigitsValue(r[|r| - 6..|r| - 4]) < 60
      && DigitsValue(r[|r| - 3..]) < 1000
      && DigitsValue(r[..|r| - 10]) * 3600000 + DigitsValue(r[|r| - 9..|r| - 7]) * 60000
         + DigitsValue(r[|r| - 6..|r| - 4]) * 1000 + DigitsValue(r[|r| - 3..]) == ms
  {
    var (h, m, s, f) := TimeFields(ms);
    TimeFieldsSum(ms);
    var H, M, S, F := Pad(h, 2), Pad(m, 2), Pad(s, 2), Pad(f, 3);
    PaddedNat(m, 2);
    PaddedNat(s, 2);
    PaddedNat(f, 3);
    ZeroPadValue(h, 2);
    LayoutFields(H, M, S, F);
  }

  /** Milliseconds of a parsed time, truncated as `Line._calc_ms_label` does. */
  function ClockMs(c: Clock): nat {
    c.hour * 3600000 + c.minute * 60000 + c.second * 1000 + c.micro / 1000
  }

  /** A one- or two-digit field followed by its separator reads as its value. */
  lemma ClockFieldAt(r: string, i: nat, field: string, sep: char, max: nat)
    requires 1 <= |field| <= 2 && AllDigits(field) && !IsDigit(sep) && DigitsValue(field) <= max
    requires i + |field| < |r| && r[i..i + |field|] == field && r[i + |field|] == sep
    ensures ClockField(r, i, sep, max) == Some((DigitsValue(field), i + |field| + 1))
  {
    forall j | i <= j < i + |field| ensures IsDigit(r[j]) {
      assert r[j] == field[j - i];
    }
    DigitRunIs(r, i, |field|);
  }

  /** A time of a day or more puts an hour field of more than two digits, or above 23, in front. */
  lemma HoursRefused(r: string, H: string)
    requires |H| >= 2 && AllDigits(H) && |H| < |r| && r[..|H|] == H && r[|H|] == ':'
    requires |H| == 2 ==> DigitsValue(H) > 23
    ensures ClockField(r, 0, ':', 23).None?
  {
    forall j | 0 <= j < |H| ensures IsDigit(r[j]) {
      assert r[j] == H[j];
    }
    DigitRunIs(r, 0, |H|);
    assert r[0..|H|] == H;
  }

  lemma ParseSrtTimeNegative(ms: int)
    requires ms < 0
    ensures ParseClock(MsToSrtTime(ms)).None?
  {
    var r := MsToSrtTime(ms);
    var (h, m, s, f) := TimeFields(ms);
    TimeFieldsSum(ms);
    assert r[0] == Pad(h, 2)[0] == '-';
    assert ClockField(r, 0, ':', 23).None?;
  }

  /** A well-formed `HH:MM:SS,mmm` reads back field by field. */
  lemma ParseLayout(H: string, M: string, S: string, F: string)
    requires |H| == 2 && |M| == 2 && |S| == 2 && |F| == 3
    requires AllDigits(H) && AllDigits(M) && AllDigits(S) && AllDigits(F)
    requires DigitsValue(H) <= 23 && DigitsValue(M) <= 59 && DigitsValue(S) <= 59
    ensures ParseClock(Layout(H, M, S, F))
         == Some(Clock(DigitsValue(H), DigitsValue(M), DigitsValue(S), DigitsValue(F) * 1000))
  {
    var r := Layout(H, M, S, F);
    LayoutFields(H, M, S, F);
    ClockFieldAt(r, 0, H, ':', 23);
    ClockFieldAt(r, 3, M, ':', 59);
    ClockFieldAt(r, 6, S, ',', 61);
    assert r[9..] == F;
  }

  lemma ParseSrtTimeInDay(ms: int)
    requires 0 <= ms < 86400000
    ensures ParseClock(MsToSrtTime(ms)).Some?
    ensures ClockMs(ParseClock(MsToSrtTime(ms)).value) == ms
  {
    var (h, m, s, f) := TimeFields(ms);
    TimeFieldsSum(ms);
    PaddedNat(h, 2);
    PaddedNat(m, 2);
    PaddedNat(s, 2);
    PaddedNat(f, 3);
    ParseLayout(Pad(h, 2), Pad(m, 2), Pad(s, 2), Pad(f, 3));
  }

  lemma ParseSrtTimeBeyondDay(ms: int)
    requires ms >= 86400000
    ensures ParseClock(MsToSrtTime(ms)).None?
  {
    var r := MsToSrtTime(ms);
    var (h, m, s, f) := TimeFields(ms);
    TimeFieldsSum(ms);
    var H, M, S, F := Pad(h, 2), Pad(m, 2), Pad(s, 2), Pad(f, 3);
    PaddedNat(m, 2);
    PaddedNat(s, 2);
    PaddedNat(f, 3);
    LayoutFields(H, M, S, F);
    ZeroPadValue(h, 2);
    NatToStringLength(h, 2);
    HoursRefused(r, H);
  }

  /**
   * `ms_to_srt_time` reads back through `strptime` exactly when 0 <= ms < 24 h,
   * and then to the same number of milliseconds; negative times carry a minus
   * sign and times of a day or more an hour field above 23, and both are refused.
   */
  lemma ParseSrtTime(ms: int)
    ensures ParseClock(MsToSrtTime(ms)).Some? <==> 0 <= ms < 86400000
    ensures 0 <= ms < 86400000 ==> ClockMs(ParseClock(MsToSrtTime(ms)).value) == ms
  {
    if ms < 0 {
      ParseSrtTimeNegative(ms);
    } else if ms < 86400000 {
      ParseSrtTimeInDay(ms);
    } else {
      ParseSrtTimeBeyondDay(ms);
    }
  }
}
