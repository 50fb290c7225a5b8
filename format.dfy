/** The two pieces of Python's string formatting the long listing relies on:
    the decimal rendering of a non-negative `int`, and right justification in
    a field (`f"{size:>10}"`). */
module Format {

  predicate IsDigit(c: char) {
    '0' <= c <= '9'
  }

  predicate AllDigits(s: string) {
    forall i :: 0 <= i < |s| ==> IsDigit(s[i])
  }

  function DigitChar(d: nat): (c: char)
    requires d < 10
    ensures IsDigit(c) && c as int - '0' as int == d
  {
    (('0' as int) + d) as char
  }

  /** `str(n)` for `n >= 0`: at least one digit, no sign, no leading zero. */
  function Decimal(n: nat): (r: string)
    ensures |r| >= 1 && AllDigits(r)
    ensures |r| > 1 ==> r[0] != '0'
  {
    if n < 10 then [DigitChar(n)] else Decimal(n / 10) + [DigitChar(n % 10)]
  }

  /** `int(s)` for a string of decimal digits. */
  function ParseDecimal(s: string): (n: nat)
    requires AllDigits(s)
  {
    if s == [] then 0 else 10 * ParseDecimal(s[..|s| - 1]) + (s[|s| - 1] as int - '0' as int)
  }

  lemma {:induction false} DecimalRoundTrip(n: nat)
    ensures ParseDecimal(Decimal(n)) == n
  {
    if n >= 10 {
      var s := Decimal(n);
      assert s[..|s| - 1] == Decimal(n / 10);
      DecimalRoundTrip(n / 10);
    }
  }

  function Pow10(k: nat): (p: nat) {
    if k == 0 then 1 else 10 * Pow10(k - 1)
  }

  /** A number below 10^k takes at most k digits. */
  lemma {:induction false} DecimalFitsIn(n: nat, k: nat)
    requires 1 <= k && n < Pow10(k)
    ensures |Decimal(n)| <= k
  {
    if n >= 10 {
      assert Pow10(1) == 10;
      assert n / 10 < Pow10(k - 1);
      DecimalFitsIn(n / 10, k - 1);
    }
  }

  function Spaces(k: nat): (r: string)
    ensures |r| == k && forall i :: 0 <= i < k ==> r[i] == ' '
  {
    seq(k, _ => ' ')
  }

  /** `format(s, ">width")`: pads on the left with spaces up to `width`,
      and never truncates. */
  function RightJustify(s: string, width: nat): (r: string)
    ensures |r| == if |s| < width then width else |s|
    ensures r[|r| - |s|..] == s
    ensures forall i :: 0 <= i < |r| - |s| ==> r[i] == ' '
  {
    if |s| < width then Spaces(width - |s|) + s else s
  }

  /** The size column of the long listing, `f"{size:>10}"`: `str(size)`
      behind enough spaces to fill ten columns. */
  function SizeField(size: nat): (r: string)
    ensures var digits := Decimal(size);
      && |r| == (if |digits| < 10 then 10 else |digits|)
      && r[|r| - |digits|..] == digits
      && (forall i :: 0 <= i < |r| - |digits| ==> r[i] == ' ')
  {
    RightJustify(Decimal(size), 10)
  }

  /** `s.lstrip(" ")`. */
  function StripLeadingSpaces(s: string): (r: string)
    ensures r == [] || r[0] != ' '
    ensures |r| <= |s| && s[|s| - |r|..] == r
    ensures forall i :: 0 <= i < |s| - |r| ==> s[i] == ' '
  {
    if s != [] && s[0] == ' ' then StripLeadingSpaces(s[1..]) else s
  }

  lemma {:induction false} StripSpacesBefore(k: nat, s: string)
    requires s == [] || s[0] != ' '
    ensures StripLeadingSpaces(Spaces(k) + s) == s
  {
    if k > 0 {
      assert (Spaces(k) + s)[1..] == Spaces(k - 1) + s;
      StripSpacesBefore(k - 1, s);
    } else {
      assert Spaces(k) + s == s;
    }
  }

  /** The size column is `max(10, digits)` wide, exactly 10 wide for sizes
      below 10^10, and stripping its padding gives back `str(size)`, which
      reads back as `size`. */
  lemma SizeFieldRoundTrip(size: nat)
    ensures var digits := Decimal(size);
      |SizeField(size)| == (if |digits| < 10 then 10 else |digits|)
      && StripLeadingSpaces(SizeField(size)) == digits
      && ParseDecimal(StripLeadingSpaces(SizeField(size))) == size
    ensures size < Pow10(10) ==> |SizeField(size)| == 10
  {
    var digits := Decimal(size);
    StripSpacesBefore(if |digits| < 10 then 10 - |digits| else 0, digits);
    DecimalRoundTrip(size);
    if size < Pow10(10) {
      DecimalFitsIn(size, 10);
    }
  }
}
