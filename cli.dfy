/**
 * The command line of fastdub/__main__.py and FastDub/__init__.py: the
 * `BooleanOptionalAction` that gives every flag a negated twin, the
 * thread-count argument type, and the normalisation `main` applies to the
 * formats and to a YouTube search query. argparse itself is not modelled:
 * an action's option strings, destination, default and help are plain
 * values, and the parsed namespace is a map from attribute names to flags.
 */
module Cli {
  import opened Wrappers
  import opened Text
  import opened Paths

  // ---------------------------------------------------------------------
  // Negated option strings

  /** The twin of one option string: `--x` becomes `--no-x`, a single-dash `-x` becomes `-n-x`. */
  function Negation(o: string): (n: string)
    ensures StartsWith(o, "--") ==> n == "--no-" + o[2..]
    ensures StartsWith(o, "-") && !StartsWith(o, "--") ==> n == "-n-" + o[1..]
    ensures !StartsWith(o, "-") ==> n == o
  {
    if StartsWith(o, "--") then "--no-" + o[2..]
    else if StartsWith(o, "-") then "-n-" + o[1..]
    else o
  }

  /** Whether a used option string turns the flag off. */
  predicate TurnsOff(used: string) {
    StartsWith(used, "--no-") || StartsWith(used, "-n-")
  }

  /** The option string a twin was made from. */
  function Original(n: string): (o: string)
    ensures StartsWith(n, "--no-") ==> o == "--" + n[5..]
    ensures !StartsWith(n, "--no-") && StartsWith(n, "-n-") ==> o == "-" + n[3..]
  {
    if StartsWith(n, "--no-") then "--" + n[5..]
    else if StartsWith(n, "-n-") then "-" + n[3..]
    else n
  }

  /** Every dashed option string's twin turns the flag off and leads back to it. */
  lemma NegationRoundTrip(o: string)
    requires StartsWith(o, "-")
    ensures TurnsOff(Negation(o))
    ensures Original(Negation(o)) == o
  {
    if StartsWith(o, "--") {
      assert Negation(o)[..5] == "--no-";
      assert Negation(o)[5..] == o[2..];
      assert o == "--" + o[2..];
    } else {
      assert Negation(o)[..3] == "-n-";
      assert Negation(o)[3..] == o[1..];
      assert !StartsWith(Negation(o), "--no-");
      assert o == "-" + o[1..];
    }
  }

  /** The twins of all option strings, in order. */
  function Negations(opts: seq<string>): (r: seq<string>)
    ensures |r| == |opts| && forall i :: 0 <= i < |opts| ==> r[i] == Negation(opts[i])
  {
    seq(|opts|, i requires 0 <= i < |opts| => Negation(opts[i]))
  }

  /**
   * The option strings of the newer action: the originals followed by one
   * twin each, in the same order (an undashed string kept as it is; see
   * `OptionStringsAsWritten` for what the source puts there).
   */
  function OptionStrings(opts: seq<string>): (r: seq<string>)
    ensures |r| == 2 * |opts|
    ensures r[..|opts|] == opts
  {
    opts + Negations(opts)
  }

  /** An entry of the option-string tuple as the source builds it: a string, or the whole list given. */
  datatype OptionEntry = Single(name: string) | Whole(names: seq<string>)

  /**
   * The option strings exactly as the generator expression writes them: for
   * an option string with no leading dash it inserts `option_strings`, the
   * whole list, instead of the string.
   */
  function OptionStringsAsWritten(opts: seq<string>): (r: seq<OptionEntry>)
    ensures |r| == 2 * |opts|
  {
    seq(|opts|, i requires 0 <= i < |opts| => Single(opts[i]))
      + seq(|opts|, i requires 0 <= i < |opts| =>
          if StartsWith(opts[i], "-") then Single(Negation(opts[i])) else Whole(opts))
  }

  /** `' | '.join(entries)`: a list among them is a TypeError. */
  function UsageOfEntries(entries: seq<OptionEntry>): (r: Option<string>)
    ensures r.None? <==> exists i :: 0 <= i < |entries| && entries[i].Whole?
  {
    if forall i :: 0 <= i < |entries| ==> entries[i].Single? then
      Some(Join(seq(|entries|, i requires 0 <= i < |entries| => entries[i].name), " | "))
    else None
  }

  /** With the parser's usual `-` prefix the source's tuple is the corrected one, and its usage line is the same. */
  lemma AsWrittenAgreesWhenDashed(opts: seq<string>)
    requires forall i :: 0 <= i < |opts| ==> StartsWith(opts[i], "-")
    ensures forall i :: 0 <= i < 2 * |opts| ==> OptionStringsAsWritten(opts)[i] == Single(OptionStrings(opts)[i])
    ensures UsageOfEntries(OptionStringsAsWritten(opts)) == Some(FormatUsage(OptionStrings(opts)))
  {
    var w := OptionStringsAsWritten(opts);
    var c := OptionStrings(opts);
    assert forall i :: 0 <= i < 2 * |opts| ==> w[i] == Single(c[i]);
    assert seq(|w|, i requires 0 <= i < |w| => w[i].name) == c;
  }

  /**
   * An option string without a dash puts a list into the tuple. On a parser
   * (`prefix_chars='+'`, say) `add_argument` then raises TypeError, the list
   * being unhashable; an action built directly fails in `format_usage`.
   */
  lemma UndashedOptionBreaksUsage()
    ensures OptionStringsAsWritten(["+v"]) == [Single("+v"), Whole(["+v"])]
    ensures UsageOfEntries(OptionStringsAsWritten(["+v"])).None?
    ensures OptionStrings(["+v"]) == ["+v", "+v"]
  {
    var w := OptionStringsAsWritten(["+v"]);
    assert "+v"[..1] == "+";
    assert !StartsWith("+v", "-");
    assert w[1].Whole?;
  }

  /** `format_usage`: the option strings joined with ` | `. */
  function FormatUsage(optionStrings: seq<string>): (u: string)
    ensures forall i :: 0 <= i < |optionStrings| ==> Contains(u, optionStrings[i])
  {
    JoinContains(optionStrings, " | ");
    Join(optionStrings, " | ")
  }

  /** Every part occurs in the joined text. */
  lemma {:induction false} JoinContains(parts: seq<string>, sep: string)
    ensures forall i :: 0 <= i < |parts| ==> Contains(Join(parts, sep), parts[i])
    decreases |parts|
  {
    if |parts| > 1 {
      var rest := Join(parts[1..], sep);
      var j := Join(parts, sep);
      assert j == parts[0] + sep + rest;
      JoinContains(parts[1..], sep);
      forall i | 0 <= i < |parts|
        ensures Contains(j, parts[i])
      {
        if i == 0 {
          assert OccursAt(j, parts[0], 0);
        } else {
          assert parts[1..][i - 1] == parts[i];
          var k: nat :| k <= |rest| && OccursAt(rest, parts[i], k);
          var off := |parts[0]| + |sep|;
          assert j[off..] == rest;
          assert j[off + k..off + k + |parts[i]|] == rest[k..k + |parts[i]|];
          assert OccursAt(j, parts[i], off + k);
        }
      }
    } else if |parts| == 1 {
      assert OccursAt(Join(parts, sep), parts[0], 0);
    }
  }

  /** The argument default: none, `argparse.SUPPRESS`, or a value. */
  datatype Default = NoDefault | Suppress | Value(shown: string)

  /** The help text: ` (default: %(default)s)` is added only when there is help and a default that is not SUPPRESS. */
  function HelpWithDefault(help: Option<string>, default: Default): (h: Option<string>)
    ensures help.None? ==> h.None?
    ensures help.Some? && default.Value? ==> h == Some(help.value + " (default: %(default)s)")
    ensures help.Some? && !default.Value? ==> h == help
  {
    if help.Some? && default.Value? then Some(help.value + " (default: %(default)s)") else help
  }

  /** The parsed arguments' boolean attributes. */
  class Namespace {
    var flags: map<string, bool>

    constructor (flags: map<string, bool>)
      ensures this.flags == flags
    {
      this.flags := flags;
    }
  }

  /** The flag an option string sets, if the action knows it. */
  function Effect(optionStrings: seq<string>, used: Option<string>, off: string -> bool): (e: Option<bool>)
    ensures e.Some? <==> used.Some? && used.value in optionStrings
    ensures e.Some? ==> e.value == !off(used.value)
  {
    if used.Some? && used.value in optionStrings then Some(!off(used.value)) else None
  }

  /** `BooleanOptionalAction` of fastdub/__main__.py. */
  class BooleanOptionalAction {
    const optionStrings: seq<string>
    const dest: string
    const default: Default
    const help: Option<string>

    constructor (opts: seq<string>, dest: string, default: Default, help: Option<string>)
      ensures optionStrings == OptionStrings(opts)
      ensures this.dest == dest && this.default == default
      ensures this.help == HelpWithDefault(help, default)
    {
      optionStrings := OptionStrings(opts);
      this.dest := dest;
      this.default := default;
      this.help := HelpWithDefault(help, default);
    }

    /** `__call__`: a known option string sets `dest`, to False exactly for the `--no-`/`-n-` forms; anything else changes nothing. */
    method Call(ns: Namespace, used: Option<string>)
      modifies ns
      ensures Effect(optionStrings, used, TurnsOff).Some? ==>
        ns.flags == old(ns.flags)[dest := Effect(optionStrings, used, TurnsOff).value]
      ensures Effect(optionStrings, used, TurnsOff).None? ==> ns.flags == old(ns.flags)
    {
      if used.Some? && used.value in optionStrings {
        ns.flags := ns.flags[dest := !TurnsOff(used.value)];
      }
    }

    method Usage() returns (u: string)
      ensures u == FormatUsage(optionStrings)
    {
      u := Join(optionStrings, " | ");
    }
  }

  /** Each dashed option switches the flag on, unless it is itself a `--no-`/`-n-` form, and its twin switches it off. */
  lemma NewerActionEffects(opts: seq<string>, i: nat)
    requires i < |opts| && StartsWith(opts[i], "-")
    ensures Effect(OptionStrings(opts), Some(opts[i]), TurnsOff) == Some(!TurnsOff(opts[i]))
    ensures Effect(OptionStrings(opts), Some(Negation(opts[i])), TurnsOff) == Some(false)
  {
    var r := OptionStrings(opts);
    assert r[i] == opts[i];
    assert r[|opts| + i] == Negation(opts[i]);
    NegationRoundTrip(opts[i]);
  }

  // ---------------------------------------------------------------------
  // The fallback action of FastDub/__init__.py

  /** One option string and, for a `--` option, its `--no-` twin right after it. */
  function LegacyPair(o: string): (r: seq<string>)
    ensures |r| >= 1 && r[0] == o
    ensures StartsWith(o, "--") ==> r == [o, "--no-" + o[2..]]
    ensures !StartsWith(o, "--") ==> r == [o]
  {
    if StartsWith(o, "--") then [o, "--no-" + o[2..]] else [o]
  }

  /** The fallback's option strings: each original followed by its `--no-` twin; single-dash options get none. */
  function LegacyOptionStrings(opts: seq<string>): seq<string>
    decreases |opts|
  {
    if opts == [] then [] else LegacyOptionStrings(opts[..|opts| - 1]) + LegacyPair(opts[|opts| - 1])
  }

  /** The fallback's constructor loop, which grows a tuple option string by option string. */
  method BuildLegacyOptionStrings(opts: seq<string>) returns (r: seq<string>)
    ensures r == LegacyOptionStrings(opts)
  {
    r := [];
    for i := 0 to |opts|
      invariant r == LegacyOptionStrings(opts[..i])
    {
      assert opts[..i + 1][..i] == opts[..i];
      r := r + [opts[i]];
      if StartsWith(opts[i], "--") {
        r := r + ["--no-" + opts[i][2..]];
      }
    }
    assert opts[..|opts|] == opts;
  }

  /** The fallback offers exactly the originals and the twins of the `--` options. */
  lemma {:induction false} LegacyOptionStringsMembers(opts: seq<string>, s: string)
    ensures s in LegacyOptionStrings(opts) <==>
      s in opts || exists i :: 0 <= i < |opts| && StartsWith(opts[i], "--") && s == Negation(opts[i])
    decreases |opts|
  {
    if opts != [] {
      var init := opts[..|opts| - 1];
      var o := opts[|opts| - 1];
      LegacyOptionStringsMembers(init, s);
      assert opts == init + [o];
      if s in LegacyOptionStrings(opts) && !(s in LegacyOptionStrings(init)) {
        assert s in LegacyPair(o);
      }
      if exists i :: 0 <= i < |opts| && StartsWith(opts[i], "--") && s == Negation(opts[i]) {
        var i :| 0 <= i < |opts| && StartsWith(opts[i], "--") && s == Negation(opts[i]);
        if i < |init| {
          assert init[i] == opts[i];
        } else {
          assert s in LegacyPair(o);
        }
      }
    }
  }

  /** With only `--` options both actions offer the same option strings, interleaved in the fallback and grouped in the newer action. */
  lemma {:induction false} LegacyIsNewerReordered(opts: seq<string>)
    requires forall i :: 0 <= i < |opts| ==> StartsWith(opts[i], "--")
    ensures multiset(LegacyOptionStrings(opts)) == multiset(OptionStrings(opts))
    decreases |opts|
  {
    if opts != [] {
      var init, o := opts[..|opts| - 1], opts[|opts| - 1];
      var ni, no := Negations(init), Negation(o);
      assert opts == init + [o];
      assert Negations(opts) == ni + [no];
      assert LegacyOptionStrings(opts) == LegacyOptionStrings(init) + [o, no];
      calc {
        multiset(LegacyOptionStrings(opts));
        multiset(LegacyOptionStrings(init)) + multiset([o, no]);
        { LegacyIsNewerReordered(init); }
        multiset(init + ni) + multiset([o, no]);
        { MultisetRegroup(init, ni, o, no); }
        multiset((init + [o]) + (ni + [no]));
        multiset(OptionStrings(opts));
      }
    }
  }

  /** Two items added to the two halves of a sequence give the same multiset as added at its end. */
  lemma MultisetRegroup(a: seq<string>, b: seq<string>, x: string, y: string)
    ensures multiset(a + b) + multiset([x, y]) == multiset((a + [x]) + (b + [y]))
  {
    assert multiset([x, y]) == multiset([x]) + multiset([y]);
  }

  /** The fallback's `__call__` test: only `--no-` turns the flag off. */
  predicate LegacyTurnsOff(used: string) {
    StartsWith(used, "--no-")
  }

  /** The fallback `BooleanOptionalAction` of FastDub/__init__.py. */
  class LegacyBooleanOptionalAction {
    const optionStrings: seq<string>
    const dest: string
    const default: Default
    const help: Option<string>

    constructor (opts: seq<string>, dest: string, default: Default, help: Option<string>)
      ensures optionStrings == LegacyOptionStrings(opts)
      ensures this.dest == dest && this.default == default
      ensures this.help == HelpWithDefault(help, default)
    {
      var built := BuildLegacyOptionStrings(opts);
      optionStrings := built;
      this.dest := dest;
      this.default := default;
      this.help := HelpWithDefault(help, default);
    }

    /** `__call__`: a known option string sets `dest`, to False exactly for the `--no-` forms. */
    method Call(ns: Namespace, used: Option<string>)
      modifies ns
      ensures Effect(optionStrings, used, LegacyTurnsOff).Some? ==>
        ns.flags == old(ns.flags)[dest := Effect(optionStrings, used, LegacyTurnsOff).value]
      ensures Effect(optionStrings, used, LegacyTurnsOff).None? ==> ns.flags == old(ns.flags)
    {
      if used.Some? && used.value in optionStrings {
        ns.flags := ns.flags[dest := !LegacyTurnsOff(used.value)];
      }
    }

    method Usage() returns (u: string)
      ensures u == FormatUsage(optionStrings)
    {
      u := Join(optionStrings, " | ");
    }
  }

  /** A single-dash option has no twin in the fallback, so `-n-x` is unknown to it while the newer action turns the flag off. */
  lemma SingleDashOnlyNewer(x: string)
    requires x != [] && x[0] != '-'
    ensures Effect(LegacyOptionStrings(["-" + x]), Some("-n-" + x), LegacyTurnsOff).None?
    ensures Effect(OptionStrings(["-" + x]), Some("-n-" + x), TurnsOff) == Some(false)
  {
    var o := "-" + x;
    assert !StartsWith(o, "--") by { assert o[1] == x[0]; }
    var none: seq<string> := [];
    assert [o][..0] == none;
    assert LegacyOptionStrings([o]) == [o];
    assert "-n-" + x != o by { assert ("-n-" + x)[1] == 'n'; }
    assert o[1..] == x;
    NewerActionEffects([o], 0);
  }

  // ---------------------------------------------------------------------
  // `_thread_count_type`

  datatype ValueError = ValueError(text: string)

  /** The text after an optional leading sign. */
  function Unsigned(t: string): (u: string)
    ensures |u| <= |t|
  {
    if t != [] && (t[0] == '+' || t[0] == '-') then t[1..] else t
  }

  predicate Negative(t: string) {
    t != [] && t[0] == '-'
  }

  /** `int(s)` for decimal text: surrounding whitespace, an optional sign, then at least one digit. */
  function ParseInt(s: string): Result<int, ValueError> {
    match ParseSigned(Strip(s))
    case Some(v) => Ok(v)
    case None => Err(ValueError(s))
  }

  /** An optional sign followed by at least one digit, and nothing else. */
  function ParseSigned(t: string): (r: Option<int>)
    ensures r.Some? <==> Unsigned(t) != [] && AllDigits(Unsigned(t))
  {
    var digits := Unsigned(t);
    if digits != [] && AllDigits(digits) then
      Some(if Negative(t) then -(DigitsValue(digits) as int) else DigitsValue(digits))
    else None
  }

  /** A decimal number as written: its sign, the digits before the point and those after it. */
  datatype Decimal = Decimal(negative: bool, whole: string, frac: string)

  /** `float(s)` for plain decimal text: an optional sign, digits with at most one `.`, at least one digit. */
  function ParseDecimal(s: string): (r: Result<Decimal, ValueError>)
    ensures r.Ok? ==> AllDigits(r.value.whole) && AllDigits(r.value.frac)
    ensures r.Ok? ==> r.value.whole != [] || r.value.frac != []
  {
    var t := Strip(s);
    var body := Unsigned(t);
    var (whole, frac) := match FirstIndexOf(body, '.')
      case None => (body, "")
      case Some(i) => (body[..i], body[i + 1..]);
    if AllDigits(whole) && AllDigits(frac) && (whole != [] || frac != []) then
      Ok(Decimal(Negative(t), whole, frac))
    else Err(ValueError(s))
  }

  /** The number a decimal stands for, as a fraction over a power of ten. */
  function Numerator(d: Decimal): nat
    requires AllDigits(d.whole) && AllDigits(d.frac)
  {
    DigitsValue(d.whole) * Pow10(|d.frac|) + DigitsValue(d.frac)
  }

  /** `int(cpus * x)`: the product truncated toward zero. */
  function ScaledCount(cpus: nat, d: Decimal): int
    requires AllDigits(d.whole) && AllDigits(d.frac)
  {
    var q := (cpus * Numerator(d)) / Pow10(|d.frac|);
    if d.negative then -q else q
  }

  /** `_thread_count_type(tc)`: `*N` is N times the processor count, truncated; anything else is read as an integer. */
  function ThreadCount(tc: string, cpus: nat): Result<int, ValueError>
  {
    if StartsWith(tc, "*") then
      match ParseDecimal(RemovePrefix(tc, "*"))
      case Ok(d) => Ok(ScaledCount(cpus, d))
      case Err(e) => Err(e)
    else ParseInt(tc)
  }

  /** The count is the product of the processors and the multiplier, rounded toward zero. */
  lemma ScaledCountTruncates(cpus: nat, d: Decimal)
    requires AllDigits(d.whole) && AllDigits(d.frac)
    ensures var x := cpus * Numerator(d);
      var den := Pow10(|d.frac|);
      var c := ScaledCount(cpus, d);
      && (!d.negative ==> c * den <= x < (c + 1) * den)
      && (d.negative ==> -c * den <= x < (-c + 1) * den)
  {
    var x := cpus * Numerator(d);
    var den := Pow10(|d.frac|);
    var q := x / den;
    assert x == den * q + x % den;
    assert q * den == den * q;
    assert (q + 1) * den == den * q + den;
  }

  /** Text that is all digits, perhaps after a minus sign, has no whitespace to strip. */
  lemma SignedDigitsStripped(s: string)
    requires s != [] && forall k :: 0 <= k < |s| ==> IsDigit(s[k]) || s[k] == '-'
    ensures Strip(s) == s
  {
    assert IsStripped(s) by {
      assert IsDigit(s[0]) || s[0] == '-';
      assert IsDigit(s[|s| - 1]) || s[|s| - 1] == '-';
    }
    StripOfStripped(s);
  }

  /** `str(n)` reads back as `n`. */
  lemma ParseIntOfString(n: int)
    ensures ParseInt(IntToString(n)) == Ok(n)
  {
    if n < 0 {
      ParseIntOfNegative(n);
    } else {
      SignedDigitsStripped(IntToString(n));
      ParseIntOfNat(n);
    }
  }

  lemma ParseIntOfNat(n: nat)
    requires Strip(NatToString(n)) == NatToString(n)
    ensures ParseInt(NatToString(n)) == Ok(n)
  {
    var s := NatToString(n);
    assert IsDigit(s[0]);
    assert Unsigned(s) == s && !Negative(s);
    DigitsValueOfNatToString(n);
    assert ParseSigned(s) == Some(n);
  }

  lemma ParseIntOfNegative(n: int)
    requires n < 0
    ensures ParseInt(IntToString(n)) == Ok(n)
  {
    var m: nat := -n;
    var u := NatToString(m);
    assert IntToString(n) == "-" + u;
    DigitsValueOfNatToString(m);
    ParseIntOfMinus(u, n);
  }

  /** A minus sign and digits read back as the negated digits. */
  lemma ParseIntOfMinus(u: string, v: int)
    requires u != [] && AllDigits(u) && DigitsValue(u) as int == -v
    ensures ParseInt("-" + u) == Ok(v)
  {
    MinusDigitsStripped(u);
    ParseSignedMinus(u, v);
    ParseIntOfStripped("-" + u, v);
  }

  /** Text with nothing to strip is read as its sign and digits. */
  lemma ParseIntOfStripped(s: string, v: int)
    requires Strip(s) == s && ParseSigned(s) == Some(v)
    ensures ParseInt(s) == Ok(v)
  {
  }

  lemma MinusDigitsStripped(u: string)
    requires u != [] && AllDigits(u)
    ensures Strip("-" + u) == "-" + u
  {
    var s := "-" + u;
    assert IsStripped(s) by {
      assert s[|s| - 1] == u[|u| - 1];
      assert IsDigit(u[|u| - 1]);
    }
    StripOfStripped(s);
  }

  lemma ParseSignedMinus(u: string, v: int)
    requires u != [] && AllDigits(u) && DigitsValue(u) as int == -v
    ensures ParseSigned("-" + u) == Some(v)
  {
    var s := "-" + u;
    assert Unsigned(s) == u && Negative(s);
  }

  /** A whole number of digits reads back as that number, with nothing after the point. */
  lemma ParseDecimalOfNat(m: nat)
    ensures ParseDecimal(NatToString(m)) == Ok(Decimal(false, NatToString(m), ""))
  {
    var s := NatToString(m);
    SignedDigitsStripped(s);
    assert IsDigit(s[0]);
    assert Unsigned(s) == s;
    assert '.' !in s by {
      forall k | 0 <= k < |s| ensures s[k] != '.' {
        assert IsDigit(s[k]);
      }
    }
  }

  /** `*N` for a whole N runs N threads per processor. */
  lemma ThreadCountMultiplier(cpus: nat, m: nat)
    ensures ThreadCount("*" + NatToString(m), cpus) == Ok(cpus * m)
  {
    var t := "*" + NatToString(m);
    assert StartsWith(t, "*") && RemovePrefix(t, "*") == NatToString(m);
    ParseDecimalOfNat(m);
    DigitsValueOfNatToString(m);
    assert DigitsValue("") == 0;
    assert Numerator(Decimal(false, NatToString(m), "")) == m;
  }

  /** A plain number runs that many threads. */
  lemma ThreadCountPlain(cpus: nat, n: int)
    ensures ThreadCount(IntToString(n), cpus) == Ok(n)
  {
    var s := IntToString(n);
    assert !StartsWith(s, "*") by { assert s[0] == '-' || IsDigit(s[0]); }
    ParseIntOfString(n);
  }

  /** `0.5` is read as five tenths. */
  lemma ParseHalf()
    ensures ParseDecimal("0.5") == Ok(Decimal(false, "0", "5"))
  {
    var s := "0.5";
    assert IsStripped(s);
    StripOfStripped(s);
    assert Unsigned(s) == s;
    assert FirstIndexOf(s, '.') == Some(1);
    assert s[..1] == "0" && s[2..] == "5";
  }

  /** `*0.5` is half the processors, rounded down. */
  lemma HalfThreadCount(cpus: nat)
    ensures ThreadCount("*0.5", cpus) == Ok(cpus / 2)
  {
    var d := Decimal(false, "0", "5");
    StarHalf();
    ParseHalf();
    ScaledHalf(cpus, d);
    StarThreadCount("*0.5", "0.5", cpus, d);
  }

  lemma StarHalf()
    ensures StartsWith("*0.5", "*") && RemovePrefix("*0.5", "*") == "0.5"
  {
    assert "*0.5"[..1] == "*" && "*0.5"[1..] == "0.5";
  }

  /** Five tenths of the processors, truncated, is half of them rounded down. */
  lemma ScaledHalf(cpus: nat, d: Decimal)
    requires d == Decimal(false, "0", "5")
    ensures ScaledCount(cpus, d) == cpus / 2
  {
    assert DigitsValue("0") == 0 && DigitsValue("5") == 5;
    assert Numerator(d) == 5;
    assert Pow10(1) == 10;
    FiveTenths(cpus);
  }

  /** A `*` before a decimal scales the processor count by it. */
  lemma StarThreadCount(tc: string, rest: string, cpus: nat, d: Decimal)
    requires StartsWith(tc, "*") && RemovePrefix(tc, "*") == rest && ParseDecimal(rest) == Ok(d)
    ensures ThreadCount(tc, cpus) == Ok(ScaledCount(cpus, d))
  {
  }

  lemma FiveTenths(c: nat)
    ensures (c * 5) / 10 == c / 2
  {
    var q := c / 2;
    var r := c % 2;
    assert c == 2 * q + r;
    assert c * 5 == 10 * q + 5 * r;
  }

  // ---------------------------------------------------------------------
  // Formats and the search query in `main`

  /** The three formats as `main` passes them on. */
  datatype Formats = Formats(video: string, subtitles: string, audio: string)

  /** The video and subtitle formats get a leading dot only when it is missing; the audio format loses one leading dot. */
  function NormaliseFormats(video: string, subtitles: string, audio: string): (f: Formats)
    ensures StartsWith(f.video, ".") && StartsWith(f.subtitles, ".")
    ensures StartsWith(audio, ".") ==> audio == "." + f.audio
    ensures !StartsWith(audio, ".") ==> f.audio == audio
  {
    Formats(Dotted(video), Dotted(subtitles), RemovePrefix(audio, "."))
  }

  /** Normalising the video and subtitle formats twice changes nothing; the audio format loses one dot per pass. */
  lemma NormaliseFormatsTwice(video: string, subtitles: string, audio: string)
    ensures var f := NormaliseFormats(video, subtitles, audio);
      var g := NormaliseFormats(f.video, f.subtitles, f.audio);
      g.video == f.video && g.subtitles == f.subtitles
    ensures NormaliseFormats(video, subtitles, "..mp3").audio == ".mp3"
  {
    DottedIdempotent(video);
    DottedIdempotent(subtitles);
    assert StartsWith("..mp3", ".");
  }

  /** With the search flag a query without a leading `?` is stripped and gets one; otherwise it is left as it is. */
  function SearchQuery(query: string, search: bool): (q: string)
    ensures search ==> StartsWith(q, "?")
    ensures !search || StartsWith(query, "?") ==> q == query
    ensures search && !StartsWith(query, "?") ==> q == "?" + Strip(query)
  {
    if search && !StartsWith(query, "?") then "?" + Strip(query) else query
  }

  /** Marking a query as a search twice is the same as once. */
  lemma SearchQueryIdempotent(query: string, search: bool)
    ensures SearchQuery(SearchQuery(query, search), search) == SearchQuery(query, search)
  {
  }
}
