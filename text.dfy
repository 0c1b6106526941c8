/**
 * The few pieces of Python's string handling the loaders rely on: `str(i)` for a
 * non-negative int, `%0Nd` zero padding, `str.endswith`, `os.path.splitext` and
 * `pathlib.PurePath.stem` (POSIX flavour, for a bare file name).
 */
module Text {

  predicate IsDigit(c: char) {
    '0' <= c <= '9'
  }

  predicate AllDigits(s: string) {
    forall i :: 0 <= i < |s| ==> IsDigit(s[i])
  }

  function DigitChar(d: nat): (c: char)
    requires d < 10
    ensures IsDigit(c) && DigitValue(c) == d
  {
    "0123456789"[d]
  }

  function DigitValue(c: char): (d: nat)
    requires IsDigit(c)
    ensures d < 10
  {
    (c as int - '0' as int) as nat
  }

  function Pow10(n: nat): (p: nat)
    ensures p >= 1
  {
    if n == 0 then 1 else 10 * Pow10(n - 1)
  }

  /** The number a string of decimal digits denotes (most significant digit first). */
  function ReadDecimal(s: string): nat
    requires AllDigits(s)
  {
    if s == [] then 0 else ReadDecimal(s[..|s| - 1]) * 10 + DigitValue(s[|s| - 1])
  }

  /** Python's `str(n)` for `n >= 0`: shortest decimal form, no sign, no leading zero. */
  function NatToString(n: nat): (s: string)
    ensures |s| > 0 && AllDigits(s)
    ensures |s| > 1 ==> s[0] != '0'
  {
    if n < 10 then [DigitChar(n)] else NatToString(n / 10) + [DigitChar(n % 10)]
  }

  /** Reading back `str(n)` gives `n`. */
  lemma {:induction false} ReadNatToString(n: nat)
    ensures ReadDecimal(NatToString(n)) == n
  {
    var s := NatToString(n);
    if n >= 10 {
      ReadNatToString(n / 10);
      assert s[..|s| - 1] == NatToString(n / 10);
    }
  }

  /** `str` is injective on non-negative ints. */
  lemma NatToStringInjective(m: nat, n: nat)
    requires NatToString(m) == NatToString(n)
    ensures m == n
  {
    ReadNatToString(m);
    ReadNatToString(n);
  }

  /** `"%0*d" % (width, n)` for an `n` that fits in `width` digits. */
  function ZeroPadded(n: nat, width: nat): (s: string)
    requires n < Pow10(width)
    ensures |s| == width && AllDigits(s)
  {
    if width == 0 then [] else ZeroPadded(n / 10, width - 1) + [DigitChar(n % 10)]
  }

  lemma {:induction false} ReadZeroPadded(n: nat, width: nat)
    requires n < Pow10(width)
    ensures ReadDecimal(ZeroPadded(n, width)) == n
  {
    if width > 0 {
      var q, d := n / 10, n % 10;
      assert q < Pow10(width - 1);
      var prefix := ZeroPadded(q, width - 1);
      var s := prefix + [DigitChar(d)];
      assert ZeroPadded(n, width) == s;
      assert s[..|s| - 1] == prefix;
      ReadZeroPadded(q, width - 1);
      assert ReadDecimal(s) == q * 10 + d;
    }
  }

  predicate EndsWith(s: string, suffix: string) {
    |suffix| <= |s| && s[|s| - |suffix|..] == suffix
  }

  /** Python's `s.rfind(c)`: the last index holding `c`, or -1. */
  function RFind(s: string, c: char): (i: int)
    ensures -1 <= i < |s|
    ensures 0 <= i ==> s[i] == c
    ensures forall j :: i < j < |s| ==> s[j] != c
  {
    if s == [] then -1
    else if s[|s| - 1] == c then |s| - 1
    else RFind(s[..|s| - 1], c)
  }

  /**
   * `os.path.splitext(p)[0]` on POSIX: the last dot starts the extension only when it
   * follows the last '/' and some character between them is not a dot, so that
   * leading dots of a hidden file never start an extension.
   */
  function SplitextRoot(p: string): (root: string)
    ensures root <= p
    ensures |root| < |p| ==> p[|root|] == '.' && forall j :: |root| < j < |p| ==> p[j] != '.' && p[j] != '/'
    ensures |root| < |p| ==> exists k :: 0 <= k < |root| && root[k] != '.' && forall j :: k < j < |root| ==> root[j] != '/'
  {
    var sepIndex := RFind(p, '/');
    var dotIndex := RFind(p, '.');
    if sepIndex < dotIndex && exists k :: sepIndex + 1 <= k < dotIndex && p[k] != '.'
    then p[..dotIndex]
    else p
  }

  /** `pathlib.PurePosixPath(name).stem` for a bare file name (no '/'). */
  function PathStem(name: string): (stem: string)
    ensures stem <= name
    ensures |stem| < |name| ==>
              0 < |stem| < |name| - 1 && name[|stem|] == '.' && forall j :: |stem| < j < |name| ==> name[j] != '.'
  {
    var i := RFind(name, '.');
    if 0 < i < |name| - 1 then name[..i] else name
  }

  /** A file name with something other than dots before its `.fit` extension. */
  predicate RegularFitName(name: string) {
    && EndsWith(name, ".fit")
    && (forall j :: 0 <= j < |name| ==> name[j] != '/')
    && exists k :: 0 <= k < |name| - 4 && name[k] != '.'
  }

  /** For a regular `.fit` name, `splitext` and `stem` agree: both drop the extension. */
  lemma RootAndStemDropExtension(name: string)
    requires RegularFitName(name)
    ensures SplitextRoot(name) == name[..|name| - 4]
    ensures PathStem(name) == name[..|name| - 4]
  {
    assert name[|name| - 4..] == ".fit";
    assert name[|name| - 4] == '.';
    var k :| 0 <= k < |name| - 4 && name[k] != '.';
    assert RFind(name, '.') == |name| - 4;
    assert RFind(name, '/') == -1;
  }

  /** Dropping the extension of regular `.fit` names is injective. */
  lemma SplitextRootInjective(a: string, b: string)
    requires RegularFitName(a) && RegularFitName(b)
    requires SplitextRoot(a) == SplitextRoot(b)
    ensures a == b
  {
    RootAndStemDropExtension(a);
    RootAndStemDropExtension(b);
    assert a == a[..|a| - 4] + ".fit";
    assert b == b[..|b| - 4] + ".fit";
  }

  /** On "..fit" the two disagree: `splitext` keeps the whole name, `stem` drops ".fit". */
  lemma DoubleDotFitName()
    ensures SplitextRoot("..fit") == "..fit" && PathStem("..fit") == "."
  {
    assert "..fit"[..4] == "..fi" && "..fi"[..3] == "..f" && "..f"[..2] == "..";
    assert RFind("..fit", '.') == 1;
  }

  /** A name that is only the extension is its own root: a leading dot starts no extension. */
  lemma DotFitName()
    ensures SplitextRoot(".fit") == ".fit"
  {
    assert ".fit"[..3] == ".fi" && ".fi"[..2] == ".f" && ".f"[..1] == ".";
    assert RFind(".fit", '.') == 0;
  }

  /** ".fit.fit" loses its last extension and so has the same root as ".fit". */
  lemma DotFitFitName()
    ensures SplitextRoot(".fit.fit") == ".fit"
  {
    assert ".fit.fit"[..7] == ".fit.fi" && ".fit.fi"[..6] == ".fit.f" && ".fit.f"[..5] == ".fit.";
    assert RFind(".fit.fit", '.') == 4;
    assert ".fit.fit"[1] != '.';
    assert ".fit.fit"[..4] == ".fit";
  }
}
