/** Python's `int(text)` in base 10, and decimal rendering of naturals. */
module Numerals {
  import opened Outcomes
  import opened Text

  function DigitValue(c: char): nat
    requires IsDigit(c)
  {
    c as int - '0' as int
  }

  /** The value of a string of decimal digits, most significant first. */
  function DigitsValue(ds: string): nat
    requires AllDigits(ds)
    decreases |ds|
  {
    if |ds| == 0 then 0
    else DigitsValue(ds[..|ds| - 1]) * 10 + DigitValue(ds[|ds| - 1])
  }

  /** The digit part `int()` accepts: digits, with single underscores
      allowed between two digits. */
  predicate IsIntBody(b: string)
  {
    && |b| > 0
    && IsDigit(b[0])
    && IsDigit(b[|b| - 1])
    && (forall k :: 0 <= k < |b| ==> IsDigit(b[k]) || b[k] == '_')
    && (forall k :: 0 <= k < |b| - 1 ==> b[k] == '_' ==> b[k + 1] != '_')
  }

  function DropUnderscores(b: string): (ds: string)
    requires forall k :: 0 <= k < |b| ==> IsDigit(b[k]) || b[k] == '_'
    ensures AllDigits(ds)
    ensures AllDigits(b) ==> ds == b
    decreases |b|
  {
    if |b| == 0 then []
    else
      var rest := DropUnderscores(b[..|b| - 1]);
      if b[|b| - 1] == '_' then rest else rest + [b[|b| - 1]]
  }

  /** The whitespace `int()` skips around the number: the ASCII space, tab,
      newline, vertical tab, form feed and carriage return, and every
      non-ASCII character `str.isspace()` accepts. The separators U+001C to
      U+001F are whitespace to `strip()` and `split()` but not to `int()`. */
  const IntSpace: set<char> := Whitespace - {'\U{1C}', '\U{1D}', '\U{1E}', '\U{1F}'}

  /** Python's `int(text)`: optional surrounding whitespace, an optional
      sign, then the digits; anything else is a `ValueError` (`None`). A
      bare run of digits reads as its decimal value, blank text is refused,
      and only a leading minus gives a negative number. */
  function PyInt(text: string): (r: Option<int>)
    ensures var t := Strip(text, IntSpace); |t| > 0 && AllDigits(t) ==> r == Some(DigitsValue(t))
    ensures AllIn(text, IntSpace) ==> r.None?
    ensures r.Some? && r.value < 0 ==> Strip(text, IntSpace)[0] == '-'
  {
    SignedInt(Strip(text, IntSpace))
  }

  /** `int()` on text already stripped of surrounding whitespace. */
  function SignedInt(t: string): Option<int>
  {
    var negative := |t| > 0 && t[0] == '-';
    var body := if |t| > 0 && (t[0] == '-' || t[0] == '+') then t[1..] else t;
    if IsIntBody(body) then
      var n: int := DigitsValue(DropUnderscores(body));
      Some(if negative then -n else n)
    else None
  }

  lemma SignedIntOfDigits(ds: string)
    requires |ds| > 0 && AllDigits(ds)
    ensures SignedInt(ds) == Some(DigitsValue(ds))
  {
  }

  /** A plain run of digits converts to its decimal value. */
  lemma PyIntOfDigits(ds: string)
    requires |ds| > 0 && AllDigits(ds)
    ensures PyInt(ds) == Some(DigitsValue(ds))
  {
    DigitNotSpace(ds[0]);
    DigitNotSpace(ds[|ds| - 1]);
    StripUnpadded(ds, IntSpace);
    SignedIntOfDigits(ds);
  }

  /** A leading minus before digits gives the negative value. */
  lemma PyIntOfNegative(ds: string)
    requires |ds| > 0 && AllDigits(ds)
    ensures PyInt("-" + ds) == Some(-(DigitsValue(ds) as int))
  {
    var t := "-" + ds;
    assert t[0] == '-' && t[1..] == ds && t[|t| - 1] == ds[|ds| - 1];
    DigitNotSpace(ds[|ds| - 1]);
    StripUnpadded(t, IntSpace);
  }

  /** `int()` ignores the whitespace it skips around the number. */
  lemma PyIntPadded(w1: string, ds: string, w2: string)
    requires |ds| > 0 && AllDigits(ds)
    requires AllIn(w1, IntSpace) && AllIn(w2, IntSpace)
    ensures PyInt(w1 + ds + w2) == Some(DigitsValue(ds))
  {
    DigitNotSpace(ds[0]);
    DigitNotSpace(ds[|ds| - 1]);
    StripPadded(w1, ds, w2, IntSpace);
    SignedIntOfDigits(ds);
  }

  /** An information separator next to the digits is not skipped: `int()`
      refuses the text. */
  lemma PyIntRejectsSeparator(ds: string)
    requires |ds| > 0 && AllDigits(ds)
    ensures PyInt(ds + "\U{1C}") == None
  {
    var t := ds + "\U{1C}";
    assert t[|t| - 1] == '\U{1C}' && '\U{1C}' !in IntSpace;
    DigitNotSpace(t[0]);
    StripUnpadded(t, IntSpace);
    assert !IsIntBody(t) && !IsIntBody(t[1..]);
  }

  function DigitChar(d: nat): (c: char)
    requires d < 10
    ensures IsDigit(c) && DigitValue(c) == d
  {
    ('0' as int + d) as char
  }

  /** Decimal rendering of a natural number, without leading zeros. */
  function NatToString(n: nat): (r: string)
    ensures |r| > 0 && AllDigits(r)
    ensures DigitsValue(r) == n
    ensures n < 10 <==> |r| == 1
    ensures n < 100 <==> |r| <= 2
    ensures 10 <= n < 10000 <==> 2 <= |r| <= 4
    decreases n
  {
    if n < 10 then [DigitChar(n)]
    else
      var r := NatToString(n / 10) + [DigitChar(n % 10)];
      assert r[..|r| - 1] == NatToString(n / 10);
      r
  }

  /** Rendering a natural number and reading it back with `int()` is the
      identity. */
  lemma IntOfNatToString(n: nat)
    ensures PyInt(NatToString(n)) == Some(n)
  {
    PyIntOfDigits(NatToString(n));
  }
}
