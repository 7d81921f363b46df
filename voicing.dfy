/**
 * fastdub/voicer.py and FastDub/Voicer.py: the text-to-speech front end.
 * A voicer holds the engine's current voice (the engine's `voice`
 * property, a voice id) and a cache of synthesized texts keyed by a hash
 * of the text followed by that voice id. The engine's synthesis and the MD5
 * hash are foreign code and enter as functions.
 */
module Voicing {
  import opened Wrappers
  import opened Text
  import opened Audio

  /** One of the engine's voices. */
  datatype VoiceInfo = VoiceInfo(id: string, name: string)

  datatype VoiceError = UnknownVoice(name: string)

  // ---------------------------------------------------------------------
  // Case folding and line splitting

  /** `str.casefold` on ASCII letters. */
  function FoldChar(c: char): (f: char)
    ensures 'A' <= c <= 'Z' ==> f == c - 'A' + 'a'
    ensures !('A' <= c <= 'Z') ==> f == c
  {
    if 'A' <= c <= 'Z' then c - 'A' + 'a' else c
  }

  function CaseFold(s: string): (r: string)
    ensures |r| == |s|
    ensures forall i :: 0 <= i < |s| ==> r[i] == FoldChar(s[i])
  {
    seq(|s|, i requires 0 <= i < |s| => FoldChar(s[i]))
  }

  /** Folding a folded name changes nothing. */
  lemma CaseFoldIdempotent(s: string)
    ensures CaseFold(CaseFold(s)) == CaseFold(s)
  {
    var f := CaseFold(s);
    forall i | 0 <= i < |s|
      ensures CaseFold(f)[i] == f[i]
    {
      assert !('A' <= f[i] <= 'Z');
    }
  }

  /** The line boundaries of `str.splitlines`. */
  predicate IsLineBreak(c: char) {
    || c == '\n' || c == '\r' || c == '\U{B}' || c == '\U{C}'
    || c == '\U{1C}' || c == '\U{1D}' || c == '\U{1E}' || c == '\U{85}' || c == '\U{2028}' || c == '\U{2029}'
  }

  /** Text whose only line boundaries are `\n`. */
  predicate OnlyNewlines(s: string) {
    forall i :: 0 <= i < |s| ==> IsLineBreak(s[i]) ==> s[i] == '\n'
  }

  predicate NoLineBreak(s: string) {
    forall i :: 0 <= i < |s| ==> !IsLineBreak(s[i])
  }

  /** The first line boundary of `s`, if any. */
  function FirstBreak(s: string): (r: Option<nat>)
    ensures r.None? ==> NoLineBreak(s)
    ensures r.Some? ==> r.value < |s| && IsLineBreak(s[r.value]) && NoLineBreak(s[..r.value])
  {
    if s == [] then None
    else if IsLineBreak(s[0]) then Some(0)
    else
      match FirstBreak(s[1..])
      case None => None
      case Some(i) =>
        assert s[..i + 1] == [s[0]] + s[1..][..i];
        Some(i + 1)
  }

  /** How many characters the boundary at `i` takes: `\r\n` counts as one boundary. */
  function BreakWidth(s: string, i: nat): (w: nat)
    requires i < |s|
    ensures w == 1 || w == 2
    ensures i + w <= |s|
  {
    if s[i] == '\r' && i + 1 < |s| && s[i + 1] == '\n' then 2 else 1
  }

  /** `s.splitlines()`: no empty line after a final boundary, none at all for the empty string. */
  function SplitLines(s: string): (r: seq<string>)
    ensures s != [] <==> r != []
    ensures forall k :: 0 <= k < |r| ==> NoLineBreak(r[k])
    decreases |s|
  {
    if s == [] then []
    else
      match FirstBreak(s)
      case None => [s]
      case Some(i) =>
        var w := BreakWidth(s, i);
        [s[..i]] + (if i + w == |s| then [] else SplitLines(s[i + w..]))
  }

  /**
   * Text whose only boundaries are `\n`, and which does not end in one,
   * comes back from splitting and joining with `\n`.
   */
  lemma {:induction false} SplitLinesJoin(s: string)
    requires OnlyNewlines(s)
    requires s == [] || s[|s| - 1] != '\n'
    ensures Join(SplitLines(s), "\n") == s
    decreases |s|
  {
    if s != [] {
      match FirstBreak(s)
      case None =>
      case Some(i) =>
        var rest := s[i + 1..];
        SplitAtNewline(s, i);
        SplitLinesJoin(rest);
        JoinCons(s[..i], SplitLines(rest), "\n");
    }
  }

  /** At a `\n` boundary that does not end the text, the split is the line before it and the split of the rest. */
  lemma SplitAtNewline(s: string, i: nat)
    requires OnlyNewlines(s)
    requires s != [] && s[|s| - 1] != '\n'
    requires FirstBreak(s) == Some(i)
    ensures i + 1 < |s|
    ensures OnlyNewlines(s[i + 1..])
    ensures s == s[..i] + "\n" + s[i + 1..]
    ensures SplitLines(s[i + 1..]) != []
    ensures SplitLines(s) == [s[..i]] + SplitLines(s[i + 1..])
  {
    var c := s[i];
    assert c == '\n' by {
      assert IsLineBreak(s[i]);
    }
    assert i != |s| - 1;
    assert BreakWidth(s, i) == 1;
    AroundIndex(s, i);
    NewlinesAfter(s, i + 1);
  }

  lemma AroundIndex(s: string, i: nat)
    requires i < |s|
    ensures s == s[..i] + [s[i]] + s[i + 1..]
  {
    assert s[..i] + [s[i]] == s[..i + 1];
  }

  lemma NewlinesAfter(s: string, k: nat)
    requires OnlyNewlines(s) && k <= |s|
    ensures OnlyNewlines(s[k..])
  {
    var rest := s[k..];
    forall j | 0 <= j < |rest|
      ensures IsLineBreak(rest[j]) ==> rest[j] == '\n'
    {
      assert rest[j] == s[k + j];
    }
  }

  lemma JoinCons(x: string, parts: seq<string>, sep: string)
    requires parts != []
    ensures Join([x] + parts, sep) == x + sep + Join(parts, sep)
  {
    assert ([x] + parts)[1..] == parts;
  }

  /** The first line of a non-empty text and whatever follows it, lines joined back with `\n`. */
  function FirstLine(t: string): (l: string)
    requires t != []
    ensures NoLineBreak(l)
  {
    SplitLines(t)[0]
  }

  function OtherLines(t: string): string
    requires t != []
  {
    Join(SplitLines(t)[1..], "\n")
  }

  /** A line without boundaries, a `\n`, then `rest` splits into that line and `rest`. */
  lemma FirstLineSplit(line: string, rest: string)
    requires NoLineBreak(line)
    requires OnlyNewlines(rest)
    requires rest != [] && rest[|rest| - 1] != '\n'
    ensures FirstLine(line + "\n" + rest) == line
    ensures OtherLines(line + "\n" + rest) == rest
  {
    var t := line + "\n" + rest;
    assert t[|line|] == '\n';
    assert t[..|line|] == line;
    assert t[|line| + 1..] == rest;
    forall j | 0 <= j < |line|
      ensures !IsLineBreak(t[j])
    {
      assert t[j] == line[j];
    }
    assert FirstBreak(t) == Some(|line|);
    assert SplitLines(t) == [line] + SplitLines(rest);
    assert SplitLines(t)[1..] == SplitLines(rest);
    SplitLinesJoin(rest);
  }

  // ---------------------------------------------------------------------
  // The voice catalogue and set_voice

  /** `VOICES_NAMES` (casefolded name -> voice) and `VOICES_ID` (id -> voice). */
  datatype Catalogue = Catalogue(byName: map<string, VoiceInfo>, byId: map<string, VoiceInfo>)

  /** The two dicts built from the engine's voice list, a later voice replacing an earlier one on a clash. */
  function CatalogueOf(voices: seq<VoiceInfo>): (c: Catalogue)
    ensures forall n :: n in c.byName ==> CaseFold(c.byName[n].name) == n
    ensures forall id :: id in c.byId ==> c.byId[id].id == id
    decreases |voices|
  {
    if voices == [] then Catalogue(map[], map[])
    else
      var c := CatalogueOf(voices[..|voices| - 1]);
      var v := voices[|voices| - 1];
      Catalogue(c.byName[CaseFold(v.name) := v], c.byId[v.id := v])
  }

  /** Every id in `VOICES_ID` is the id of a listed voice. */
  lemma {:induction false} IdListed(voices: seq<VoiceInfo>, id: string) returns (k: nat)
    requires id in CatalogueOf(voices).byId
    ensures k < |voices| && voices[k].id == id
    decreases |voices|
  {
    var init := voices[..|voices| - 1];
    if id == voices[|voices| - 1].id {
      k := |voices| - 1;
    } else {
      k := IdListed(init, id);
      assert voices[k] == init[k];
    }
  }

  /** Every named voice's id leads back to a voice of that name, and every id's voice is named. */
  ghost predicate Consistent(cat: Catalogue) {
    && (forall n :: n in cat.byName ==>
          && CaseFold(cat.byName[n].name) == n
          && cat.byName[n].id in cat.byId
          && cat.byId[cat.byName[n].id].name == cat.byName[n].name)
    && (forall id :: id in cat.byId ==> CaseFold(cat.byId[id].name) in cat.byName)
  }

  /** With distinct ids the two dicts agree. */
  lemma {:induction false} CatalogueConsistent(voices: seq<VoiceInfo>)
    requires forall i, j :: 0 <= i < j < |voices| ==> voices[i].id != voices[j].id
    ensures Consistent(CatalogueOf(voices))
    decreases |voices|
  {
    if voices != [] {
      var init := voices[..|voices| - 1];
      var v := voices[|voices| - 1];
      CatalogueConsistent(init);
      var c := CatalogueOf(init);
      forall n | n in c.byName && n != CaseFold(v.name)
        ensures c.byName[n].id != v.id
      {
        var k := IdListed(init, c.byName[n].id);
        assert voices[k] == init[k];
      }
    }
  }

  /**
   * `set_voice(voice)`: the casefolded name must be a known voice, else
   * UnknownVoice; the engine's voice is written only when the current
   * voice's folded name differs. The result is the engine's new voice id.
   */
  function SelectVoice(cat: Catalogue, current: string, voice: string): (r: Result<string, VoiceError>)
    requires current in cat.byId
    ensures r.Err? <==> CaseFold(voice) !in cat.byName
    ensures r.Err? ==> r.error == UnknownVoice(CaseFold(voice))
  {
    var voiceName := CaseFold(voice);
    if voiceName !in cat.byName then Err(UnknownVoice(voiceName))
    else if CaseFold(cat.byId[current].name) != voiceName then Ok(cat.byName[voiceName].id)
    else Ok(current)
  }

  /** Afterwards the current voice's name is the requested one, and a voice already current stays as it is. */
  lemma SelectVoiceNames(cat: Catalogue, current: string, voice: string)
    requires Consistent(cat) && current in cat.byId
    ensures var r := SelectVoice(cat, current, voice);
      r.Ok? ==> r.value in cat.byId && CaseFold(cat.byId[r.value].name) == CaseFold(voice)
    ensures CaseFold(cat.byId[current].name) == CaseFold(voice) ==> SelectVoice(cat, current, voice) == Ok(current)
  {
  }

  // ---------------------------------------------------------------------
  // The cache

  /**
   * The cache lookup of `voice`: the file named by `key` is synthesized
   * only when missing; either way the clip is read back from it.
   */
  function Fetch(cache: map<string, Clip>, key: string, synthesized: Clip): (r: (map<string, Clip>, Clip))
    ensures key in r.0 && r.1 == r.0[key]
    ensures key in cache ==> r.0 == cache
    ensures key !in cache ==> r.0 == cache[key := synthesized]
    ensures forall k :: k in cache ==> k in r.0 && r.0[k] == cache[k]
  {
    if key in cache then (cache, cache[key]) else (cache[key := synthesized], synthesized)
  }

  /** Asking again for the same key synthesizes nothing and gives the same clip. */
  lemma FetchTwice(cache: map<string, Clip>, key: string, first: Clip, second: Clip)
    ensures Fetch(Fetch(cache, key, first).0, key, second) == Fetch(cache, key, first)
  {
  }

  // ---------------------------------------------------------------------
  // The voicers

  /** The voice switch a text asks for: its first line after a non-empty anchor. */
  function Directive(t: string, anchor: string): (d: Option<string>)
    requires t != []
    ensures anchor == [] ==> d.None?
    ensures d.Some? ==> FirstLine(t) == anchor + d.value
  {
    if anchor != [] && StartsWith(FirstLine(t), anchor) then Some(FirstLine(t)[|anchor|..]) else None
  }

  /** The text spoken: without the directive line when there was one. */
  function Spoken(t: string, switched: bool): string
    requires t != []
  {
    if switched then OtherLines(t) else t
  }

  /** A text opening with an anchored line switches to the rest of that line and speaks what follows. */
  lemma AnchoredLineSwitches(anchor: string, name: string, rest: string)
    requires anchor != [] && NoLineBreak(anchor + name)
    requires OnlyNewlines(rest)
    requires rest != [] && rest[|rest| - 1] != '\n'
    ensures Directive(anchor + name + "\n" + rest, anchor) == Some(name)
    ensures Spoken(anchor + name + "\n" + rest, true) == rest
  {
    FirstLineSplit(anchor + name, rest);
    assert (anchor + name)[..|anchor|] == anchor;
    assert (anchor + name)[|anchor|..] == name;
  }

  // ---------------------------------------------------------------------
  // `voice` on values

  /** What a voicer never changes: its catalogue, its anchor, the hash and the engine. */
  datatype Speaker = Speaker(catalogue: Catalogue, anchor: string, hash: string -> string,
                             synth: (string, string) -> Clip)

  /** What `voice` changes: the engine's voice id and the cache. */
  datatype VoiceState = VoiceState(voice: string, cache: map<string, Clip>)

  ghost predicate Ready(sp: Speaker, st: VoiceState) {
    st.voice in sp.catalogue.byId && Consistent(sp.catalogue)
  }

  /** A text `voice` raises on: its first line is a directive naming a voice the catalogue lacks. */
  predicate Rejected(sp: Speaker, text: string) {
    Strip(text) != [] && Directive(Strip(text), sp.anchor).Some?
    && CaseFold(Directive(Strip(text), sp.anchor).value) !in sp.catalogue.byName
  }

  function Rejection(sp: Speaker, text: string): VoiceError
    requires Rejected(sp, text)
  {
    UnknownVoice(CaseFold(Directive(Strip(text), sp.anchor).value))
  }

  /**
   * One `voice(text)` call: the state afterwards and the clip. It raises
   * exactly when the text opens with a directive naming an unknown voice,
   * and then changes nothing; a known directive leaves its voice current,
   * a text without one keeps the voice; cached clips stay as they were.
   */
  function VoiceStep(sp: Speaker, st: VoiceState, text: string): (r: (VoiceState, Result<Clip, VoiceError>))
    requires Ready(sp, st)
    ensures Ready(sp, r.0)
    ensures r.1.Err? <==> Rejected(sp, text)
    ensures r.1.Err? ==> r.0 == st && r.1.error == Rejection(sp, text)
    ensures r.1.Ok? && Strip(text) != [] && Directive(Strip(text), sp.anchor).Some? ==>
      CaseFold(sp.catalogue.byId[r.0.voice].name) == CaseFold(Directive(Strip(text), sp.anchor).value)
    ensures (Strip(text) == [] || Directive(Strip(text), sp.anchor).None?) ==> r.0.voice == st.voice
    ensures forall key :: key in st.cache ==> key in r.0.cache && r.0.cache[key] == st.cache[key]
  {
    var t := Strip(text);
    if t == [] then (st, Ok(Silent(0.0)))
    else
      var d := Directive(t, sp.anchor);
      var s := if d.Some? then SelectVoice(sp.catalogue, st.voice, d.value) else Ok(st.voice);
      if s.Err? then (st, Err(s.error))
      else
        SelectVoiceNames(sp.catalogue, st.voice, if d.Some? then d.value else "");
        var spoken := Spoken(t, d.Some?);
        var f := Fetch(st.cache, sp.hash(spoken + s.value), sp.synth(spoken, s.value));
        (VoiceState(s.value, f.0), Ok(f.1))
  }

  /** The clips of a run of `voice` calls, the state after it, and the error that ended it early. */
  datatype Voiced = Voiced(state: VoiceState, clips: seq<Clip>, failure: Option<VoiceError>)

  /** `clips` spoken before the run `r`. */
  function Preceded(clips: seq<Clip>, r: Voiced): Voiced {
    Voiced(r.state, clips + r.clips, r.failure)
  }

  /**
   * `[voice(t) for t in texts]`: one call per text in order, the state
   * carried from each call to the next; the first call that raises ends the
   * run with the clips voiced before it.
   */
  function VoiceAll(sp: Speaker, st: VoiceState, texts: seq<string>): (r: Voiced)
    requires Ready(sp, st)
    ensures Ready(sp, r.state)
    ensures |r.clips| <= |texts|
    ensures r.failure.None? <==> |r.clips| == |texts|
    decreases |texts|
  {
    if texts == [] then Voiced(st, [], None)
    else
      var first := VoiceStep(sp, st, texts[0]);
      match first.1
      case Err(e) => Voiced(first.0, [], Some(e))
      case Ok(c) =>
        var rest := VoiceAll(sp, first.0, texts[1..]);
        Preceded([c], rest)
  }

  /**
   * Voicing `a + b` is voicing `a`, then `b` from the state `a` left: a
   * directive in `a` carries over to `b`, and a failure in `a` means no
   * text of `b` is voiced.
   */
  lemma {:induction false} VoiceAllSplit(sp: Speaker, st: VoiceState, a: seq<string>, b: seq<string>)
    requires Ready(sp, st)
    ensures var ra := VoiceAll(sp, st, a);
      && (ra.failure.Some? ==> VoiceAll(sp, st, a + b) == ra)
      && (ra.failure.None? ==> VoiceAll(sp, st, a + b) == Preceded(ra.clips, VoiceAll(sp, ra.state, b)))
    decreases |a|
  {
    if a == [] {
      assert a + b == b;
    } else {
      var ab := a + b;
      assert ab[0] == a[0] && ab[1..] == a[1..] + b;
      var first := VoiceStep(sp, st, a[0]);
      if first.1.Ok? {
        VoiceAllSplit(sp, first.0, a[1..], b);
        var ra := VoiceAll(sp, first.0, a[1..]);
        var c := first.1.value;
        assert VoiceAll(sp, st, ab) == Preceded([c], VoiceAll(sp, first.0, a[1..] + b));
        assert VoiceAll(sp, st, a) == Preceded([c], ra);
        if ra.failure.None? {
          PrecededTwice([c], ra.clips, VoiceAll(sp, ra.state, b));
        }
      }
    }
  }

  /** Every text voiced before a run stops is one that names no unknown voice. */
  lemma {:induction false} VoicedNotRejected(sp: Speaker, st: VoiceState, texts: seq<string>)
    requires Ready(sp, st)
    ensures var r := VoiceAll(sp, st, texts);
      forall i :: 0 <= i < |r.clips| ==> !Rejected(sp, texts[i])
    decreases |texts|
  {
    if texts != [] {
      var first := VoiceStep(sp, st, texts[0]);
      if first.1.Ok? {
        VoicedNotRejected(sp, first.0, texts[1..]);
        var rest := VoiceAll(sp, first.0, texts[1..]);
        assert |VoiceAll(sp, st, texts).clips| == 1 + |rest.clips|;
        forall i | 0 <= i < 1 + |rest.clips|
          ensures !Rejected(sp, texts[i])
        {
          if i > 0 {
            assert texts[i] == texts[1..][i - 1];
          }
        }
      }
    }
  }

  /** A run that stops early stops at a text naming an unknown voice, with that voice as its error. */
  lemma {:induction false} StopsAtRejected(sp: Speaker, st: VoiceState, texts: seq<string>)
    requires Ready(sp, st)
    ensures var r := VoiceAll(sp, st, texts);
      r.failure.Some? ==> Rejected(sp, texts[|r.clips|]) && r.failure.value == Rejection(sp, texts[|r.clips|])
    decreases |texts|
  {
    if texts != [] {
      var first := VoiceStep(sp, st, texts[0]);
      if first.1.Ok? {
        StopsAtRejected(sp, first.0, texts[1..]);
        var rest := VoiceAll(sp, first.0, texts[1..]);
        assert VoiceAll(sp, st, texts) == Preceded([first.1.value], rest);
        if rest.failure.Some? {
          assert texts[1 + |rest.clips|] == texts[1..][|rest.clips|];
        }
      }
    }
  }

  /** A run fails exactly when one of its texts names an unknown voice. */
  lemma VoiceAllFailsIffRejected(sp: Speaker, st: VoiceState, texts: seq<string>)
    requires Ready(sp, st)
    ensures VoiceAll(sp, st, texts).failure.Some? <==> exists i :: 0 <= i < |texts| && Rejected(sp, texts[i])
  {
    VoicedNotRejected(sp, st, texts);
    StopsAtRejected(sp, st, texts);
    var r := VoiceAll(sp, st, texts);
    if r.failure.None? {
      assert forall i :: 0 <= i < |texts| ==> !Rejected(sp, texts[i]);
    }
  }

  /** A run after its first call. */
  lemma VoiceAllFirst(sp: Speaker, st: VoiceState, texts: seq<string>, next: VoiceState, c: Result<Clip, VoiceError>)
    requires Ready(sp, st) && texts != [] && (next, c) == VoiceStep(sp, st, texts[0])
    ensures Ready(sp, next)
    ensures c.Err? ==> VoiceAll(sp, st, texts) == Voiced(st, [], Some(c.error))
    ensures c.Ok? ==> VoiceAll(sp, st, texts) == Preceded([c.value], VoiceAll(sp, next, texts[1..]))
  {
  }

  /** The step of a loop that voices `texts` one by one, `clips` already voiced before the `k`-th. */
  lemma VoiceAllNext(sp: Speaker, start: VoiceState, texts: seq<string>, k: nat, clips: seq<Clip>,
                     before: VoiceState, next: VoiceState, c: Result<Clip, VoiceError>)
    requires Ready(sp, start) && Ready(sp, before) && k < |texts|
    requires VoiceAll(sp, start, texts) == Preceded(clips, VoiceAll(sp, before, texts[k..]))
    requires (next, c) == VoiceStep(sp, before, texts[k])
    ensures Ready(sp, next)
    ensures c.Err? ==> VoiceAll(sp, start, texts) == Voiced(next, clips, Some(c.error))
    ensures c.Ok? ==> VoiceAll(sp, start, texts) == Preceded(clips + [c.value], VoiceAll(sp, next, texts[k + 1..]))
  {
    assert texts[k..][0] == texts[k] && texts[k..][1..] == texts[k + 1..];
    VoiceAllFirst(sp, before, texts[k..], next, c);
    if c.Err? {
      assert clips + [] == clips;
    } else {
      PrecededTwice(clips, [c.value], VoiceAll(sp, next, texts[k + 1..]));
    }
  }

  /** The end of that loop. */
  lemma VoiceAllDone(sp: Speaker, start: VoiceState, texts: seq<string>, clips: seq<Clip>, last: VoiceState)
    requires Ready(sp, start) && Ready(sp, last)
    requires VoiceAll(sp, start, texts) == Preceded(clips, VoiceAll(sp, last, texts[|texts|..]))
    ensures VoiceAll(sp, start, texts) == Voiced(last, clips, None)
  {
    assert texts[|texts|..] == [] && clips + [] == clips;
  }

  /** Its start. */
  lemma VoiceAllStart(sp: Speaker, start: VoiceState, texts: seq<string>)
    requires Ready(sp, start)
    ensures VoiceAll(sp, start, texts) == Preceded([], VoiceAll(sp, start, texts[0..]))
  {
    assert texts[0..] == texts;
    var r := VoiceAll(sp, start, texts);
    assert [] + r.clips == r.clips;
  }

  lemma PrecededTwice(x: seq<Clip>, y: seq<Clip>, r: Voiced)
    ensures Preceded(x, Preceded(y, r)) == Preceded(x + y, r)
  {
    assert x + (y + r.clips) == (x + y) + r.clips;
  }

  /** Without an anchor no text switches the voice, so voicing never fails and keeps the voice. */
  lemma {:induction false} NoAnchorKeepsVoice(sp: Speaker, st: VoiceState, texts: seq<string>)
    requires Ready(sp, st) && sp.anchor == []
    ensures VoiceAll(sp, st, texts).failure.None?
    ensures VoiceAll(sp, st, texts).state.voice == st.voice
    decreases |texts|
  {
    if texts != [] {
      NoAnchorKeepsVoice(sp, VoiceStep(sp, st, texts[0]).0, texts[1..]);
    }
  }

  /** A text voiced a second time, with no directive in between, comes from the cache. */
  lemma {:induction false} RepeatFromCache(sp: Speaker, st: VoiceState, text: string)
    requires Ready(sp, st) && Strip(text) != [] && Directive(Strip(text), sp.anchor).None?
    ensures var once := VoiceStep(sp, st, text);
      VoiceStep(sp, once.0, text) == once
  {
    var t := Strip(text);
    var key := sp.hash(t + st.voice);
    FetchTwice(st.cache, key, sp.synth(t, st.voice), sp.synth(t, st.voice));
  }

  class Voicer {
    var engineVoice: string
    var cache: map<string, Clip>
    const anchor: string
    const catalogue: Catalogue
    const hash: string -> string
    const synth: (string, string) -> Clip

    ghost predicate Valid()
      reads this
    {
      engineVoice in catalogue.byId && Consistent(catalogue)
    }

    /** The parts of this voicer that `voice` never changes. */
    function Config(): Speaker {
      Speaker(catalogue, anchor, hash, synth)
    }

    function State(): VoiceState
      reads this
    {
      VoiceState(engineVoice, cache)
    }

    /**
     * `Voicer(cache_dir, anchor)`: the engine starts on `initialVoice`, the
     * cache directory holds `cached`.
     */
    constructor(catalogue: Catalogue, initialVoice: string, cached: map<string, Clip>,
                hash: string -> string, synth: (string, string) -> Clip, anchor: string := "!:")
      requires initialVoice in catalogue.byId && Consistent(catalogue)
      ensures Valid()
      ensures this.catalogue == catalogue && engineVoice == initialVoice && cache == cached
      ensures this.hash == hash && this.synth == synth && this.anchor == anchor
    {
      this.catalogue := catalogue;
      engineVoice := initialVoice;
      cache := cached;
      this.hash := hash;
      this.synth := synth;
      this.anchor := anchor;
    }

    /** `cleanup`: the cache directory is removed. */
    method Cleanup()
      modifies this
      ensures cache == map[] && engineVoice == old(engineVoice)
    {
      cache := map[];
    }

    method SetVoice(voice: string) returns (r: Result<(), VoiceError>)
      requires Valid()
      modifies this
      ensures Valid() && cache == old(cache)
      ensures var s := SelectVoice(catalogue, old(engineVoice), voice);
        (s.Err? ==> r == Err(s.error) && engineVoice == old(engineVoice))
        && (s.Ok? ==> r == Ok(()) && engineVoice == s.value)
    {
      SelectVoiceNames(catalogue, engineVoice, voice);
      var voiceName := CaseFold(voice);
      if voiceName !in catalogue.byName {
        return Err(UnknownVoice(voiceName));
      }
      if CaseFold(catalogue.byId[engineVoice].name) != voiceName {
        engineVoice := catalogue.byName[voiceName].id;
      }
      r := Ok(());
    }

    /**
     * `voice(text)`: whitespace-only text is a silent clip and touches
     * nothing; a first line with the anchor switches the voice (an unknown
     * one raises) and is not spoken; the clip comes from the cache, keyed by
     * the spoken text followed by the engine's voice id.
     */
    method Voice(text: string) returns (r: Result<Clip, VoiceError>)
      requires Valid()
      modifies this
      ensures Valid()
      ensures Strip(text) == [] ==> r == Ok(Silent(0.0)) && engineVoice == old(engineVoice) && cache == old(cache)
      ensures var t := Strip(text);
        t != [] ==>
          var d := Directive(t, anchor);
          var s := if d.Some? then SelectVoice(catalogue, old(engineVoice), d.value) else Ok(old(engineVoice));
          && (s.Err? ==> r == Err(s.error) && engineVoice == old(engineVoice) && cache == old(cache))
          && (s.Ok? ==>
                var spoken := Spoken(t, d.Some?);
                var f := Fetch(old(cache), hash(spoken + s.value), synth(spoken, s.value));
                engineVoice == s.value && cache == f.0 && r == Ok(f.1))
      ensures (State(), r) == VoiceStep(Config(), old(State()), text)
    {
      var t := Strip(text);
      if t == [] {
        return Ok(Silent(0.0));
      }
      var lines := SplitLines(t);
      var spoken := t;
      var d := Directive(t, anchor);
      if d.Some? {
        var switched := SetVoice(d.value);
        if switched.Err? {
          return Err(switched.error);
        }
        spoken := Join(lines[1..], "\n");
      }
      var cached := hash(spoken + engineVoice);
      if cached !in cache {
        cache := cache[cached := synth(spoken, engineVoice)];
      }
      r := Ok(cache[cached]);
    }
  }

  /** The older voicer's switch: a hard-coded `!:` honoured only when `change_voice` is set. */
  function LegacyDirective(t: string, changeVoice: bool): (d: Option<string>)
    requires t != []
    ensures !changeVoice ==> d.None?
  {
    if changeVoice && StartsWith(FirstLine(t), "!:") then Some(FirstLine(t)[2..]) else None
  }

  /** With `change_voice` set the older voicer reads directives as the newer one does with its default anchor. */
  lemma LegacyDirectiveIsDefaultAnchor(t: string)
    requires t != []
    ensures LegacyDirective(t, true) == Directive(t, "!:")
  {
  }

  class LegacyVoicer {
    var engineVoice: string
    var cache: map<string, Clip>
    const catalogue: Catalogue
    const hash: string -> string
    const synth: (string, string) -> Clip

    ghost predicate Valid()
      reads this
    {
      engineVoice in catalogue.byId && Consistent(catalogue)
    }

    /** With `change_voice` set this voicer acts as a newer one with the anchor `!:`. */
    function Config(): Speaker {
      Speaker(catalogue, "!:", hash, synth)
    }

    function State(): VoiceState
      reads this
    {
      VoiceState(engineVoice, cache)
    }

    constructor(catalogue: Catalogue, initialVoice: string, cached: map<string, Clip>,
                hash: string -> string, synth: (string, string) -> Clip)
      requires initialVoice in catalogue.byId && Consistent(catalogue)
      ensures Valid()
      ensures this.catalogue == catalogue && engineVoice == initialVoice && cache == cached
      ensures this.hash == hash && this.synth == synth
    {
      this.catalogue := catalogue;
      engineVoice := initialVoice;
      cache := cached;
      this.hash := hash;
      this.synth := synth;
    }

    method Cleanup()
      modifies this
      ensures cache == map[] && engineVoice == old(engineVoice)
    {
      cache := map[];
    }

    method SetVoice(voice: string) returns (r: Result<(), VoiceError>)
      requires Valid()
      modifies this
      ensures Valid() && cache == old(cache)
      ensures var s := SelectVoice(catalogue, old(engineVoice), voice);
        (s.Err? ==> r == Err(s.error) && engineVoice == old(engineVoice))
        && (s.Ok? ==> r == Ok(()) && engineVoice == s.value)
    {
      SelectVoiceNames(catalogue, engineVoice, voice);
      var voiceName := CaseFold(voice);
      if voiceName !in catalogue.byName {
        return Err(UnknownVoice(voiceName));
      }
      if CaseFold(catalogue.byId[engineVoice].name) != voiceName {
        engineVoice := catalogue.byName[voiceName].id;
      }
      r := Ok(());
    }

    /** `voice(text, change_voice)`. */
    method Voice(text: string, changeVoice: bool := true) returns (r: Result<Clip, VoiceError>)
      requires Valid()
      modifies this
      ensures Valid()
      ensures Strip(text) == [] ==> r == Ok(Silent(0.0)) && engineVoice == old(engineVoice) && cache == old(cache)
      ensures var t := Strip(text);
        t != [] ==>
          var d := LegacyDirective(t, changeVoice);
          var s := if d.Some? then SelectVoice(catalogue, old(engineVoice), d.value) else Ok(old(engineVoice));
          && (s.Err? ==> r == Err(s.error) && engineVoice == old(engineVoice) && cache == old(cache))
          && (s.Ok? ==>
                var spoken := Spoken(t, d.Some?);
                var f := Fetch(old(cache), hash(spoken + s.value), synth(spoken, s.value));
                engineVoice == s.value && cache == f.0 && r == Ok(f.1))
      ensures changeVoice ==> (State(), r) == VoiceStep(Config(), old(State()), text)
    {
      var t := Strip(text);
      if t == [] {
        return Ok(Silent(0.0));
      }
      LegacyDirectiveIsDefaultAnchor(t);
      var spoken := t;
      if changeVoice {
        var lines := SplitLines(t);
        if StartsWith(lines[0], "!:") {
          var switched := SetVoice(lines[0][2..]);
          if switched.Err? {
            return Err(switched.error);
          }
          spoken := Join(lines[1..], "\n");
        }
      }
      var cached := hash(spoken + engineVoice);
      if cached !in cache {
        cache := cache[cached := synth(spoken, engineVoice)];
      }
      r := Ok(cache[cached]);
    }
  }
}
