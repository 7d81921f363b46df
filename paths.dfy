/**
 * The two `os.path` helpers (POSIX flavour) the dubbers use to group the
 * files of a directory: `splitext` and `join`.
 */
module Paths {
  import opened Text

  /** `str.rfind(c)`: the last index of `c`, or -1. */
  function RFind(s: string, c: char): (i: int)
    ensures -1 <= i < |s|
    ensures i >= 0 ==> s[i] == c
    ensures forall j :: i < j < |s| ==> s[j] != c
  {
    if s == [] then -1
    else if s[|s| - 1] == c then |s| - 1
    else RFind(s[..|s| - 1], c)
  }

  /** The final component of `p` between its last `/` and `dot` holds something other than dots. */
  predicate HasStemBefore(p: string, sep: int, dot: int)
    requires -1 <= sep && dot <= |p|
  {
    exists k :: sep + 1 <= k < dot && p[k] != '.'
  }

  /**
   * `os.path.splitext(p)`: the extension runs from the last dot of the final
   * component to the end, unless that component is nothing but dots before
   * it (`.bashrc`, `..x`), in which case there is none.
   */
  function SplitExt(p: string): (r: (string, string))
    ensures r.0 + r.1 == p
    ensures r.1 == [] || (r.1[0] == '.' && forall j :: 0 < j < |r.1| ==> r.1[j] != '.' && r.1[j] != '/')
  {
    var sep := RFind(p, '/');
    var dot := RFind(p, '.');
    if dot > sep && HasStemBefore(p, sep, dot) then
      assert p[..dot] + p[dot..] == p;
      (p[..dot], p[dot..])
    else (p, "")
  }

  /** A name whose final component has a non-dot character before a later dot has the extension from that dot on. */
  lemma SplitExtOfName(stem: string, ext: string)
    requires stem != [] && stem[0] != '.' && forall j :: 0 <= j < |stem| ==> stem[j] != '/'
    requires ext == [] || (ext[0] == '.' && forall j :: 0 < j < |ext| ==> ext[j] != '.' && ext[j] != '/')
    requires ext == [] ==> forall j :: 0 <= j < |stem| ==> stem[j] != '.'
    ensures SplitExt(stem + ext) == (stem, ext)
  {
    var p := stem + ext;
    forall j | 0 <= j < |p|
      ensures p[j] != '/'
      ensures |stem| < j ==> p[j] != '.'
      ensures ext == [] ==> p[j] != '.'
    {
      if j < |stem| {
        assert p[j] == stem[j];
      } else {
        assert p[j] == ext[j - |stem|];
      }
    }
    var sep := RFind(p, '/');
    var dot := RFind(p, '.');
    if ext != [] {
      assert p[|stem|] == ext[0] == '.';
      assert p[0] == stem[0];
      assert HasStemBefore(p, sep, dot);
      assert p[..dot] == stem;
    } else {
      assert p == stem;
    }
  }

  /** `os.path.join(a, b)` for a relative `b`: one `/` between them unless `a` is empty or already ends in one. */
  function PathJoin(a: string, b: string): (r: string)
    ensures EndsWith(r, b)
    ensures StartsWith(b, "/") ==> r == b
    ensures !StartsWith(b, "/") ==> StartsWith(r, a)
    ensures !StartsWith(b, "/") && a != [] && a[|a| - 1] != '/' ==> r == a + "/" + b
  {
    if StartsWith(b, "/") then b
    else if a == [] || a[|a| - 1] == '/' then a + b
    else a + "/" + b
  }

  /** Drops every trailing `/`. */
  function RStripSlashes(s: string): (r: string)
    ensures StartsWith(s, r)
    ensures r == [] || r[|r| - 1] != '/'
    ensures forall j :: |r| <= j < |s| ==> s[j] == '/'
  {
    if s != [] && s[|s| - 1] == '/' then RStripSlashes(s[..|s| - 1]) else s
  }

  /**
   * `os.path.dirname(p)`: everything up to the last `/`, with its trailing
   * slashes dropped unless it is nothing but slashes (`/` stays `/`).
   */
  function Dirname(p: string): (r: string)
    ensures StartsWith(p, r)
    ensures RFind(p, '/') == -1 ==> r == []
  {
    var head := p[..RFind(p, '/') + 1];
    if head != [] && RStripSlashes(head) != [] then RStripSlashes(head) else head
  }

  /** The directory of a plain name joined onto a directory without a trailing slash is that directory. */
  lemma DirnameOfJoin(dir: string, name: string)
    requires dir != [] && dir[|dir| - 1] != '/'
    requires forall j :: 0 <= j < |name| ==> name[j] != '/'
    ensures Dirname(PathJoin(dir, name)) == dir
  {
    var p := dir + "/" + name;
    assert !StartsWith(name, "/") by {
      if name != [] {
        assert name[0] != '/';
      }
    }
    assert PathJoin(dir, name) == p;
    forall j | |dir| < j < |p|
      ensures p[j] != '/'
    {
      assert p[j] == name[j - |dir| - 1];
    }
    assert p[|dir|] == '/';
    assert RFind(p, '/') == |dir|;
    var head := p[..|dir| + 1];
    assert head == dir + "/";
    assert head[..|head| - 1] == dir;
    assert RStripSlashes(head) == dir;
  }

  /** A format given with or without its dot (`mp4`, `.mp4`) as an extension: a dot is added only when missing. */
  function Dotted(fmt: string): (r: string)
    ensures StartsWith(r, ".")
    ensures StartsWith(fmt, ".") ==> r == fmt
    ensures !StartsWith(fmt, ".") ==> r == "." + fmt
  {
    if StartsWith(fmt, ".") then fmt else "." + fmt
  }

  /** Adding the dot twice changes nothing. */
  lemma DottedIdempotent(fmt: string)
    ensures Dotted(Dotted(fmt)) == Dotted(fmt)
  {
  }
}
