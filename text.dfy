/**
 * String operations the segmentation code takes from Python's `str`:
 * `replace` of one character, `title()`, and the decimal rendering behind
 * `str(i)` and the format `{i:06d}`.
 *
 * Only the ASCII letters are treated as cased characters.
 */
module Text {

  predicate IsUpper(c: char) { 'A' <= c <= 'Z' }
  predicate IsLower(c: char) { 'a' <= c <= 'z' }

  /** A cased character in the sense of Python's `str.title`. */
  predicate IsCased(c: char) { IsUpper(c) || IsLower(c) }

  function Upper(c: char): (u: char)
    ensures IsCased(u) <==> IsCased(c)
    ensures !IsLower(u)
    ensures !IsCased(c) ==> u == c
  {
    if IsLower(c) then (c as int - 32) as char else c
  }

  function Lower(c: char): (l: char)
    ensures IsCased(l) <==> IsCased(c)
    ensures !IsUpper(l)
    ensures !IsCased(c) ==> l == c
  {
    if IsUpper(c) then (c as int + 32) as char else c
  }

  lemma CaseRoundTrip(c: char)
    ensures Upper(Lower(c)) == Upper(c) && Lower(Upper(c)) == Lower(c)
    ensures Upper(Upper(c)) == Upper(c) && Lower(Lower(c)) == Lower(c)
  {
  }

  /** `s.replace(from, to)` for single characters. */
  function ReplaceChar(s: string, from: char, to: char): (r: string)
    ensures |r| == |s|
    ensures forall i :: 0 <= i < |s| ==> r[i] == (if s[i] == from then to else s[i])
  {
    if s == [] then [] else [if s[0] == from then to else s[0]] + ReplaceChar(s[1..], from, to)
  }

  /** Title-cases `s` when the character before it was (`afterCased`) or was not cased. */
  function TitleFrom(s: string, afterCased: bool): (r: string)
    ensures |r| == |s|
  {
    if s == [] then []
    else [if afterCased then Lower(s[0]) else Upper(s[0])] + TitleFrom(s[1..], IsCased(s[0]))
  }

  /**
   * Python's `str.title()`: a cased character that follows a cased character
   * is lower-cased, every other character is upper-cased.
   */
  function Title(s: string): (r: string)
    ensures |r| == |s|
  {
    TitleFrom(s, false)
  }

  /** Whether Title turns position `i` of `s` to lower case. */
  predicate FollowsCased(s: string, i: int)
    requires 0 <= i < |s|
  {
    i > 0 && IsCased(s[i - 1])
  }

  lemma {:induction false} TitleFromAt(s: string, afterCased: bool, i: int)
    requires 0 <= i < |s|
    ensures TitleFrom(s, afterCased)[i] ==
      if (if i == 0 then afterCased else IsCased(s[i - 1])) then Lower(s[i]) else Upper(s[i])
  {
    if i > 0 {
      TitleFromAt(s[1..], IsCased(s[0]), i - 1);
    }
  }

  /** Each character of `Title(s)` depends only on itself and the character before it. */
  lemma TitleAt(s: string, i: int)
    requires 0 <= i < |s|
    ensures Title(s)[i] == if FollowsCased(s, i) then Lower(s[i]) else Upper(s[i])
  {
    TitleFromAt(s, false, i);
  }

  /** Title-casing is idempotent: a title-cased string is its own title. */
  lemma TitleIdempotent(s: string)
    ensures Title(Title(s)) == Title(s)
  {
    var t := Title(s);
    forall i | 0 <= i < |s| ensures Title(t)[i] == t[i] {
      TitleAt(s, i);
      TitleAt(t, i);
      if i > 0 {
        TitleAt(s, i - 1);
      }
      CaseRoundTrip(s[i]);
    }
  }

  /** Title-casing changes only letters. */
  lemma TitleKeepsNonLetters(s: string, c: char)
    requires !IsCased(c)
    ensures forall i :: 0 <= i < |s| ==> (Title(s)[i] == c <==> s[i] == c)
  {
    forall i | 0 <= i < |s| ensures Title(s)[i] == c <==> s[i] == c {
      TitleAt(s, i);
    }
  }

  predicate IsDigit(c: char) { '0' <= c <= '9' }

  function DigitChar(d: int): (c: char)
    requires 0 <= d <= 9
    ensures IsDigit(c)
  {
    ('0' as int + d) as char
  }

  function DigitValue(c: char): (d: int)
    requires IsDigit(c)
    ensures 0 <= d <= 9 && DigitChar(d) == c
  {
    c as int - '0' as int
  }

  /** `str(n)` for a natural number: its decimal digits without leading zeros. */
  function Decimal(n: nat): (s: string)
    ensures |s| >= 1
    ensures forall i :: 0 <= i < |s| ==> IsDigit(s[i])
    decreases n
  {
    if n < 10 then [DigitChar(n)] else Decimal(n / 10) + [DigitChar(n % 10)]
  }

  /** `str(n)` for any integer: a minus sign before the digits of a negative number. */
  function IntString(n: int): (s: string)
    ensures n >= 0 ==> s == Decimal(n)
    ensures n < 0 ==> s == ['-'] + Decimal(-n)
  {
    if n < 0 then ['-'] + Decimal(-n) else Decimal(n)
  }

  /** The number a string of decimal digits denotes: less than ten to the power of its length. */
  function ValueOf(s: string): (v: nat)
    requires forall i :: 0 <= i < |s| ==> IsDigit(s[i])
    ensures v < Pow10(|s|)
  {
    if s == [] then 0 else 10 * ValueOf(s[..|s| - 1]) + DigitValue(s[|s| - 1])
  }

  /** Reading back the rendering of `n` gives `n`. */
  lemma {:induction false} DecimalRoundTrip(n: nat)
    ensures ValueOf(Decimal(n)) == n
  {
    if n >= 10 {
      var s := Decimal(n);
      assert s[..|s| - 1] == Decimal(n / 10);
      DecimalRoundTrip(n / 10);
    }
  }

  /** Numbers below `10^k` (k at least one) take at most `k` digits. */
  lemma {:induction false} DecimalLength(n: nat, k: nat, bound: nat)
    requires k >= 1 && bound == Pow10(k) && n < bound
    ensures |Decimal(n)| <= k
  {
    if n >= 10 {
      assert k >= 2;
      assert n / 10 < Pow10(k - 1);
      DecimalLength(n / 10, k - 1, Pow10(k - 1));
    }
  }

  function Pow10(k: nat): (p: nat)
    ensures p >= 1
  {
    if k == 0 then 1 else 10 * Pow10(k - 1)
  }

  function Zeros(k: nat): (z: string)
    ensures |z| == k && forall i :: 0 <= i < k ==> z[i] == '0'
  {
    if k == 0 then [] else Zeros(k - 1) + ['0']
  }

  /** The format `{n:0<width>d}`: `str(n)` left-padded with zeros to at least `width`. */
  function ZeroPadded(n: nat, width: nat): (s: string)
    ensures |s| == if |Decimal(n)| < width then width else |Decimal(n)|
    ensures forall i :: 0 <= i < |s| ==> IsDigit(s[i])
  {
    var d := Decimal(n);
    if |d| < width then Zeros(width - |d|) + d else d
  }

  lemma {:induction false} LeadingZerosAddNothing(k: nat, s: string)
    requires forall i :: 0 <= i < |s| ==> IsDigit(s[i])
    ensures forall i :: 0 <= i < |Zeros(k) + s| ==> IsDigit((Zeros(k) + s)[i])
    ensures ValueOf(Zeros(k) + s) == ValueOf(s)
    decreases |s|
  {
    var t := Zeros(k) + s;
    if s == [] {
      assert t == Zeros(k);
      ZerosValue(k);
    } else {
      assert t[..|t| - 1] == Zeros(k) + s[..|s| - 1];
      LeadingZerosAddNothing(k, s[..|s| - 1]);
    }
  }

  lemma {:induction false} ZerosValue(k: nat)
    ensures ValueOf(Zeros(k)) == 0
  {
    if k > 0 {
      assert Zeros(k)[..k - 1] == Zeros(k - 1);
      ZerosValue(k - 1);
    }
  }

  /** Reading back a zero-padded rendering of `n` gives `n`. */
  lemma ZeroPaddedRoundTrip(n: nat, width: nat)
    ensures ValueOf(ZeroPadded(n, width)) == n
  {
    DecimalRoundTrip(n);
    var d := Decimal(n);
    if |d| < width {
      LeadingZerosAddNothing(width - |d|, d);
    }
  }

  /** Zero-padded renderings of different numbers differ. */
  lemma ZeroPaddedInjective(a: nat, b: nat, width: nat)
    requires a != b
    ensures ZeroPadded(a, width) != ZeroPadded(b, width)
  {
    ZeroPaddedRoundTrip(a, width);
    ZeroPaddedRoundTrip(b, width);
  }
}
