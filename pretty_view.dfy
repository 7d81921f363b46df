/**
 * fastdub/__init__.py, `PrettyViewPrefix`: a size shown with a unit prefix.
 * The size is divided by `div` while it is at least `div` and prefixes
 * remain; the last prefix takes whatever is left. The `:,g` rendering of
 * the number is not modelled: the result is the scaled value, the chosen
 * prefix and the base unit.
 */
module PrettyView {
  import opened Wrappers

  /** `f'{size:,g}{prefix}{base}'` before the number is rendered. */
  datatype Pretty = Pretty(value: real, prefix: string, base: string)

  /** `prefixes[-1]` of an empty tuple, or `size /= 0.`. */
  datatype PrettyError = NoPrefixes | DivisionByZero

  /** `div` to the power `k`. */
  function Power(div: real, k: nat): (p: real)
    ensures div > 0.0 ==> p > 0.0
  {
    if k == 0 then 1.0 else div * Power(div, k - 1)
  }

  /**
   * `from_any(size, div, base, prefixes)`: the first prefix that leaves the
   * size below `div`, the last one when none does.
   */
  function FromAny(size: real, div: real, base: string, prefixes: seq<string>): (r: Result<Pretty, PrettyError>)
    ensures prefixes == [] <==> r == Err(NoPrefixes)
    ensures prefixes != [] && size < div ==> r == Ok(Pretty(size, prefixes[0], base))
    ensures r.Ok? ==> r.value.base == base && r.value.prefix in prefixes
    decreases |prefixes|
  {
    if prefixes == [] then Err(NoPrefixes)
    else if |prefixes| == 1 then Ok(Pretty(size, prefixes[0], base))
    else if size < div then Ok(Pretty(size, prefixes[0], base))
    else if div == 0.0 then Err(DivisionByZero)
    else FromAny(size / div, div, base, prefixes[1..])
  }

  /** The loop of `from_any`: `size` is divided in place, one prefix at a time. */
  method FromAnyLoop(size: real, div: real, base: string, prefixes: seq<string>) returns (r: Result<Pretty, PrettyError>)
    ensures r == FromAny(size, div, base, prefixes)
  {
    var scaled := size;
    var i := 0;
    while i + 1 < |prefixes|
      invariant 0 <= i && (prefixes == [] ==> i == 0) && (prefixes != [] ==> i < |prefixes|)
      invariant FromAny(size, div, base, prefixes) == FromAny(scaled, div, base, prefixes[i..])
    {
      if scaled < div {
        return Ok(Pretty(scaled, prefixes[i], base));
      }
      if div == 0.0 {
        return Err(DivisionByZero);
      }
      assert prefixes[i..][1..] == prefixes[i + 1..];
      FromAnyStep(scaled, div, base, prefixes[i..]);
      scaled := scaled / div;
      i := i + 1;
    }
    if prefixes == [] {
      return Err(NoPrefixes);
    }
    r := Ok(Pretty(scaled, prefixes[|prefixes| - 1], base));
  }

  /** One round of the loop: a size at least `div` is divided once and the first prefix dropped. */
  lemma FromAnyStep(size: real, div: real, base: string, prefixes: seq<string>)
    requires |prefixes| >= 2 && size >= div && div != 0.0
    ensures FromAny(size, div, base, prefixes) == FromAny(size / div, div, base, prefixes[1..])
  {
  }

  /**
   * For a positive `div` the chosen prefix is `prefixes[k]` for the least
   * `k` that leaves `size / div^k` below `div`, or the last prefix when no
   * earlier one does; the value shown is `size / div^k`, after exactly `k`
   * divisions, never more than `|prefixes| - 1`.
   */
  lemma {:induction false} PrefixChoice(size: real, div: real, base: string, prefixes: seq<string>) returns (k: nat)
    requires div > 0.0 && prefixes != []
    ensures k < |prefixes|
    ensures FromAny(size, div, base, prefixes) == Ok(Pretty(size / Power(div, k), prefixes[k], base))
    ensures forall j :: 0 <= j < k ==> size / Power(div, j) >= div
    ensures k < |prefixes| - 1 ==> size / Power(div, k) < div
    decreases |prefixes|
  {
    if |prefixes| == 1 || size < div {
      k := 0;
      PrefixFirst(size, div, base, prefixes);
    } else {
      var k' := PrefixChoice(size / div, div, base, prefixes[1..]);
      k := k' + 1;
      PrefixLater(size, div, base, prefixes, k');
    }
  }

  /** A size below `div`, or a single prefix, takes the first prefix after no division. */
  lemma PrefixFirst(size: real, div: real, base: string, prefixes: seq<string>)
    requires div > 0.0 && prefixes != [] && (|prefixes| == 1 || size < div)
    ensures FromAny(size, div, base, prefixes) == Ok(Pretty(size / Power(div, 0), prefixes[0], base))
  {
    assert Power(div, 0) == 1.0;
  }

  /** The choice made for `size / div` over the remaining prefixes, one division and one prefix later. */
  lemma PrefixLater(size: real, div: real, base: string, prefixes: seq<string>, k': nat)
    requires div > 0.0 && |prefixes| >= 2 && size >= div
    requires k' < |prefixes| - 1
    requires FromAny(size / div, div, base, prefixes[1..]) == Ok(Pretty((size / div) / Power(div, k'), prefixes[1..][k'], base))
    requires forall j :: 0 <= j < k' ==> (size / div) / Power(div, j) >= div
    requires k' < |prefixes[1..]| - 1 ==> (size / div) / Power(div, k') < div
    ensures FromAny(size, div, base, prefixes) == Ok(Pretty(size / Power(div, k' + 1), prefixes[k' + 1], base))
    ensures forall j :: 0 <= j < k' + 1 ==> size / Power(div, j) >= div
    ensures k' + 1 < |prefixes| - 1 ==> size / Power(div, k' + 1) < div
  {
    var k := k' + 1;
    assert prefixes[1..][k'] == prefixes[k];
    FromAnyStep(size, div, base, prefixes);
    PowerQuotient(size, div, k);
    forall j | 0 <= j < k
      ensures size / Power(div, j) >= div
    {
      if j > 0 {
        PowerQuotient(size, div, j);
      } else {
        assert Power(div, 0) == 1.0;
      }
    }
  }

  /** Dividing by `div^j` is dividing by `div`, then by `div^(j-1)`. */
  lemma PowerQuotient(size: real, div: real, j: nat)
    requires div > 0.0 && j > 0
    ensures size / Power(div, j) == (size / div) / Power(div, j - 1)
  {
    var p := Power(div, j - 1);
    assert Power(div, j) == div * p;
    assert size / (div * p) == (size / div) / p;
  }

  /** A size below `div`, in particular any negative size, is never divided. */
  lemma NegativeNeverDivided(size: real, div: real, base: string, prefixes: seq<string>)
    requires prefixes != [] && size < 0.0 && div > 0.0
    ensures FromAny(size, div, base, prefixes) == Ok(Pretty(size, prefixes[0], base))
  {
  }

  /** The decimal prefixes of `from_bytes`. */
  const BytePrefixes: seq<string> := ["", "k", "M", "G", "T", "P", "E", "Z", "Y"]

  /** `from_bytes(size)`: steps of 1000 from bytes up to yottabytes. */
  function FromBytes(size: real): (r: Result<Pretty, PrettyError>)
    ensures r.Ok? && r.value.base == "B" && r.value.prefix in BytePrefixes
  {
    FromAny(size, 1000.0, "B", BytePrefixes)
  }

  /** `from_seconds(size)`: steps of 60 through `s`, `m` and `h`. */
  function FromSeconds(size: real): (r: Result<Pretty, PrettyError>)
    ensures r.Ok? && r.value.base == "" && r.value.prefix in ["s", "m", "h"]
  {
    FromAny(size, 60.0, "", ["s", "m", "h"])
  }

  /** Seconds are shown as seconds below a minute, minutes below an hour, and hours from then on, however large. */
  lemma SecondsUnits(size: real)
    ensures size < 60.0 ==> FromSeconds(size) == Ok(Pretty(size, "s", ""))
    ensures 60.0 <= size < 3600.0 ==> FromSeconds(size) == Ok(Pretty(size / 60.0, "m", ""))
    ensures 3600.0 <= size ==> FromSeconds(size) == Ok(Pretty(size / 3600.0, "h", ""))
  {
    var ps := ["s", "m", "h"];
    assert ps[1..] == ["m", "h"] && ps[1..][1..] == ["h"];
    if 60.0 <= size {
      assert size / 60.0 / 60.0 == size / 3600.0;
      if size < 3600.0 {
        assert size / 60.0 < 60.0;
      } else {
        assert size / 60.0 >= 60.0;
      }
    }
  }

  /** Between a kilobyte and a megabyte, sizes are shown in kilobytes. */
  lemma KilobyteRange(size: real)
    requires 1000.0 <= size < 1000000.0
    ensures FromBytes(size) == Ok(Pretty(size / 1000.0, "k", "B"))
  {
    assert BytePrefixes[1..][0] == "k";
    assert size / 1000.0 < 1000.0;
  }
}
