/** Python's `int()` applied to a `str`. The decimal rendering `str()` is here as
    the reference that `int()` inverts. */
module PyInt {
  import opened Wrappers
  import opened PyText

  /** The whitespace `int()` skips around a literal. CPython skips the ASCII
      whitespace space, `\t`, `\n`, `\v`, `\f` and `\r`, and, in a text that is
      not pure ASCII, every non-ASCII character for which `str.isspace()` holds.
      The information separators U+001C..U+001F count as whitespace for
      `str.isspace()` and `split()`, but not for `int()`. */
  predicate IsIntSpace(c: char) {
    IsSpace(c) && !('\U{1C}' <= c <= '\U{1F}')
  }

  predicate AllIntSpace(s: string) {
    forall i :: 0 <= i < |s| ==> IsIntSpace(s[i])
  }

  /** Number of characters `int()` skips at the start of `s`. */
  function LeadingSpaces(s: string): (n: nat)
    ensures n <= |s| && AllIntSpace(s[..n])
    ensures n == |s| || !IsIntSpace(s[n])
    decreases |s|
  {
    if |s| > 0 && IsIntSpace(s[0]) then 1 + LeadingSpaces(s[1..]) else 0
  }

  /** Number of characters `int()` skips at the end of `s`. */
  function TrailingSpaces(s: string): (n: nat)
    ensures n <= |s| && AllIntSpace(s[|s| - n..])
    ensures n == |s| || !IsIntSpace(s[|s| - n - 1])
    decreases |s|
  {
    if |s| > 0 && IsIntSpace(s[|s| - 1]) then 1 + TrailingSpaces(s[..|s| - 1]) else 0
  }

  /** `s` without the whitespace `int()` skips in front. */
  function TrimLeft(s: string): string {
    s[LeadingSpaces(s)..]
  }

  /** `s` without the whitespace `int()` skips at the end. */
  function TrimRight(s: string): string {
    s[..|s| - TrailingSpaces(s)]
  }

  /** The text `int()` reads after skipping surrounding whitespace: empty exactly
      when `s` is all such whitespace, and otherwise starting and ending with a
      character `int()` does not skip. */
  function Trim(s: string): (r: string)
    ensures r == [] <==> AllIntSpace(s)
    ensures r != [] ==> !IsIntSpace(r[0]) && !IsIntSpace(r[|r| - 1])
  {
    var t := TrimLeft(s);
    assert AllIntSpace(t) ==> AllIntSpace(s) by {
      assert s == s[..LeadingSpaces(s)] + t;
    }
    TrimRight(t)
  }

  /** Leading whitespace adds up: any prefix of skipped characters is skipped. */
  lemma {:induction false} LeadingSpacesAppend(w: string, s: string)
    requires AllIntSpace(w)
    ensures LeadingSpaces(w + s) == |w| + LeadingSpaces(s)
    decreases |w|
  {
    if w == [] {
      assert w + s == s;
    } else {
      assert (w + s)[0] == w[0];
      assert (w + s)[1..] == w[1..] + s;
      LeadingSpacesAppend(w[1..], s);
    }
  }

  /** Trailing whitespace adds up: any suffix of skipped characters is skipped. */
  lemma {:induction false} TrailingSpacesAppend(s: string, w: string)
    requires AllIntSpace(w)
    ensures TrailingSpaces(s + w) == TrailingSpaces(s) + |w|
    decreases |w|
  {
    if w == [] {
      assert s + w == s;
    } else {
      assert (s + w)[|s + w| - 1] == w[|w| - 1];
      assert (s + w)[..|s + w| - 1] == s + w[..|w| - 1];
      TrailingSpacesAppend(s, w[..|w| - 1]);
    }
  }

  lemma TrimLeftSpaces(w: string, s: string)
    requires AllIntSpace(w)
    ensures TrimLeft(w + s) == TrimLeft(s)
  {
    LeadingSpacesAppend(w, s);
    assert (w + s)[|w| + LeadingSpaces(s)..] == s[LeadingSpaces(s)..];
  }

  lemma TrimRightSpaces(s: string, w: string)
    requires AllIntSpace(w)
    ensures TrimRight(s + w) == TrimRight(s)
  {
    TrailingSpacesAppend(s, w);
    assert (s + w)[..|s| - TrailingSpaces(s)] == s[..|s| - TrailingSpaces(s)];
  }

  /** Surrounding skipped whitespace of any length is exactly what `Trim` removes. */
  lemma TrimPadded(w1: string, t: string, w2: string)
    requires AllIntSpace(w1) && AllIntSpace(w2)
    requires t != [] && !IsIntSpace(t[0]) && !IsIntSpace(t[|t| - 1])
    ensures Trim(w1 + t + w2) == t
  {
    var tw := t + w2;
    assert w1 + t + w2 == w1 + tw;
    TrimLeftSpaces(w1, tw);
    assert tw[0] == t[0];
    assert LeadingSpaces(tw) == 0;
    assert TrimLeft(tw) == tw;
    TrimRightSpaces(t, w2);
    assert TrailingSpaces(t) == 0;
    assert TrimRight(t) == t;
  }

  predicate IsDigit(c: char) {
    '0' <= c <= '9'
  }

  predicate IsDigits(s: string) {
    forall i :: 0 <= i < |s| ==> IsDigit(s[i])
  }

  function DigitValue(c: char): nat
    requires IsDigit(c)
  {
    c as int - '0' as int
  }

  function DigitChar(d: nat): (c: char)
    requires d < 10
    ensures IsDigit(c) && DigitValue(c) == d
  {
    ('0' as int + d) as char
  }

  /** The value of a string of decimal digits, most significant digit first. */
  function DigitsValue(s: string): nat
    requires IsDigits(s)
    decreases |s|
  {
    if s == [] then 0 else 10 * DigitsValue(s[..|s| - 1]) + DigitValue(s[|s| - 1])
  }

  /** `str(n)` for a non-negative `n`: decimal digits with no leading zero. */
  function ShowNat(n: nat): (s: string)
    ensures s != [] && IsDigits(s)
    ensures s[0] == '0' ==> n == 0
    decreases n
  {
    if n < 10 then [DigitChar(n)] else ShowNat(n / 10) + [DigitChar(n % 10)]
  }

  /** `str(n)`: a minus sign for negative numbers, then the digits of the magnitude. */
  function ShowInt(n: int): (s: string)
    ensures s != [] && NoSpace(s)
  {
    if n < 0 then "-" + ShowNat(-n) else ShowNat(n)
  }

  /** The integer an already stripped text spells: an optional `+` or `-` followed
      by one or more decimal digits, and nothing else. */
  function ReadLiteral(t: string): (r: Option<int>)
    ensures r.Some? ==> t != [] && forall i :: 0 < i < |t| ==> IsDigit(t[i])
    ensures r.Some? && r.value < 0 ==> t[0] == '-'
  {
    if |t| > 1 && (t[0] == '+' || t[0] == '-') && IsDigits(t[1..]) then
      assert forall i :: 0 < i < |t| ==> t[i] == t[1..][i - 1];
      var v: int := DigitsValue(t[1..]);
      Some(if t[0] == '-' then -v else v)
    else if |t| > 0 && IsDigits(t) then
      Some(DigitsValue(t))
    else
      None
  }

  /** `int(s)`: surrounding whitespace is ignored and the rest must be a literal;
      anything else is a `ValueError` (`None` here). */
  function ParseInt(s: string): (r: Option<int>)
    ensures AllIntSpace(s) ==> r == None
    ensures r.Some? ==> Trim(s) != [] && forall i :: 0 < i < |Trim(s)| ==> IsDigit(Trim(s)[i])
    ensures r.Some? && r.value < 0 ==> Trim(s)[0] == '-'
  {
    ReadLiteral(Trim(s))
  }

  /** Reading back the digits `str` writes gives the number again. */
  lemma {:induction false} DigitsValueShowNat(n: nat)
    ensures DigitsValue(ShowNat(n)) == n
    decreases n
  {
    if n >= 10 {
      var s := ShowNat(n);
      assert s[..|s| - 1] == ShowNat(n / 10);
      DigitsValueShowNat(n / 10);
    }
  }

  /** `int(str(n)) == n` for every integer `n`. */
  lemma ParseIntShow(n: int)
    ensures ParseInt(ShowInt(n)) == Some(n)
  {
    ParseIntPadded([], n, []);
    assert [] + ShowInt(n) + [] == ShowInt(n);
  }

  lemma ReadLiteralNegative(n: int)
    requires n < 0
    ensures ReadLiteral(ShowInt(n)) == Some(n)
  {
    var t := ShowInt(n);
    assert t[0] == '-';
    assert t[1..] == ShowNat(-n);
    DigitsValueShowNat(-n);
  }

  lemma ReadLiteralNatural(n: int)
    requires n >= 0
    ensures ReadLiteral(ShowInt(n)) == Some(n)
  {
    assert ShowInt(n) == ShowNat(n);
    assert IsDigit(ShowNat(n)[0]);
    DigitsValueShowNat(n);
  }

  /** Whatever the surrounding whitespace, text that strips to `str(n)` reads as `n`. */
  lemma ParseIntOfShown(s: string, n: int)
    requires Trim(s) == ShowInt(n)
    ensures ParseInt(s) == Some(n)
  {
    if n < 0 {
      ReadLiteralNegative(n);
    } else {
      ReadLiteralNatural(n);
    }
  }

  /** `int()` accepts the rendering of `n` with any whitespace around it. */
  lemma ParseIntPadded(w1: string, n: int, w2: string)
    requires AllIntSpace(w1) && AllIntSpace(w2)
    ensures ParseInt(w1 + ShowInt(n) + w2) == Some(n)
  {
    TrimPadded(w1, ShowInt(n), w2);
    ParseIntOfShown(w1 + ShowInt(n) + w2, n);
  }

  /** The value of the digits `ds` after the sign `sign`. */
  function SignedValue(sign: string, ds: string): int
    requires IsDigits(ds)
  {
    var v: int := DigitsValue(ds);
    if sign == "-" then -v else v
  }

  /** Any optionally signed digit string is a literal, leading zeros included
      ("007", "+3", "-0"): a `-` negates the value of the digits, a `+` keeps it. */
  lemma ReadLiteralSigned(sign: string, ds: string)
    requires sign == "" || sign == "+" || sign == "-"
    requires ds != [] && IsDigits(ds)
    ensures ReadLiteral(sign + ds) == Some(SignedValue(sign, ds))
  {
    var t := sign + ds;
    if sign == "" {
      assert t == ds;
    } else {
      assert t[0] == sign[0] && t[1..] == ds;
    }
  }

  /** `int()` accepts every optionally signed digit string, with any whitespace it
      skips around it, and reads the digits' value with the sign applied. */
  lemma ParseIntLiteral(w1: string, sign: string, ds: string, w2: string)
    requires AllIntSpace(w1) && AllIntSpace(w2)
    requires sign == "" || sign == "+" || sign == "-"
    requires ds != [] && IsDigits(ds)
    ensures ParseInt(w1 + (sign + ds) + w2) == Some(SignedValue(sign, ds))
  {
    var t := sign + ds;
    assert t[|t| - 1] == ds[|ds| - 1];
    assert t[0] == if sign == "" then ds[0] else sign[0];
    TrimPadded(w1, t, w2);
    ReadLiteralSigned(sign, ds);
  }

  /** An information separator (U+001C..U+001F) in front of a number makes `int()`
      fail, although `str.isspace()` holds for it. */
  lemma ParseIntRejectsSeparator(c: char, n: int)
    requires '\U{1C}' <= c <= '\U{1F}'
    ensures ParseInt([c] + ShowInt(n)) == None
  {
    var s := [c] + ShowInt(n);
    assert LeadingSpaces(s) == 0;
    assert s[|s| - 1] == ShowInt(n)[|ShowInt(n)| - 1];
    assert TrailingSpaces(s) == 0;
    assert Trim(s) == s;
  }

  /** Conversely, every text `int()` accepts is, once the whitespace it skips is
      removed, an optional sign followed by digits, and its value is the digits'
      value with the sign applied. */
  lemma ParseIntAccepted(s: string)
    requires ParseInt(s).Some?
    ensures exists sign, ds ::
              && (sign == "" || sign == "+" || sign == "-")
              && ds != [] && IsDigits(ds)
              && Trim(s) == sign + ds
              && ParseInt(s) == Some(SignedValue(sign, ds))
  {
    var t := Trim(s);
    if |t| > 1 && (t[0] == '+' || t[0] == '-') && IsDigits(t[1..]) {
      var sign := [t[0]];
      assert t == sign + t[1..];
      assert ParseInt(s) == Some(SignedValue(sign, t[1..]));
    } else {
      assert t == "" + t;
      assert ParseInt(s) == Some(SignedValue("", t));
    }
  }
}
