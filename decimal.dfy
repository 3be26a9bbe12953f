/**
 * Decimal text of integers as .NET writes and reads it with the invariant
 * culture: `ToString()` on `int` and `long` (used by the string
 * interpolations that build callback data and referral links) and
 * `int.TryParse(string, out int)` (used to decode a selected channel id),
 * whose number style allows leading and trailing white space and a leading
 * sign, and which fails when the value does not fit in an `int`.
 */
module Decimal {
  import opened Wrappers
  import opened Ints

  predicate IsDigit(c: char) {
    '0' <= c <= '9'
  }

  predicate AllDigits(s: string) {
    forall i :: 0 <= i < |s| ==> IsDigit(s[i])
  }

  function DigitValue(c: char): (d: nat)
    requires IsDigit(c)
    ensures d < 10
  {
    c as int - '0' as int
  }

  function DigitChar(d: nat): (c: char)
    requires d < 10
    ensures IsDigit(c) && DigitValue(c) == d
  {
    ('0' as int + d) as char
  }

  /** The shortest decimal numeral of `n`: no leading zero except for 0 itself. */
  function NatDigits(n: nat): (s: string)
    ensures 0 < |s| && AllDigits(s)
    ensures s[0] == '0' ==> n == 0
    decreases n
  {
    if n < 10 then [DigitChar(n)] else NatDigits(n / 10) + [DigitChar(n % 10)]
  }

  /** The number a non-empty run of decimal digits denotes (leading zeros allowed). */
  function DigitsValue(s: string): nat
    requires AllDigits(s)
    decreases |s|
  {
    if s == [] then 0 else DigitsValue(s[..|s| - 1]) * 10 + DigitValue(s[|s| - 1])
  }

  lemma {:induction false} DigitsValueOfNatDigits(n: nat)
    ensures DigitsValue(NatDigits(n)) == n
    decreases n
  {
    if n >= 10 {
      var s := NatDigits(n);
      assert s[..|s| - 1] == NatDigits(n / 10);
      DigitsValueOfNatDigits(n / 10);
    }
  }

  /** `n.ToString()`: an optional minus sign followed by the shortest numeral of |n|. */
  function FormatInt(n: int): (s: string)
    ensures 0 < |s|
    ensures forall i :: 0 <= i < |s| ==> IsDigit(s[i]) || (i == 0 && s[i] == '-')
    ensures s[0] == '-' <==> n < 0
  {
    if n < 0 then "-" + NatDigits(-n) else NatDigits(n)
  }

  /**
   * The core of the integer grammar, without white space and without a range
   * check: an optional `-` or `+` followed by at least one digit.
   */
  function ParseSignedDigits(t: string): Option<int> {
    if 0 < |t| && (t[0] == '-' || t[0] == '+') then
      var digits := t[1..];
      if digits != [] && AllDigits(digits) then
        Some(if t[0] == '-' then -(DigitsValue(digits) as int) else DigitsValue(digits))
      else
        None
    else if t != [] && AllDigits(t) then
      Some(DigitsValue(t))
    else
      None
  }

  /** Reading back what `ToString` wrote gives the number back, for every integer. */
  lemma ParseFormatInt(n: int)
    ensures ParseSignedDigits(FormatInt(n)) == Some(n)
  {
    var s := FormatInt(n);
    if n < 0 {
      assert s[1..] == NatDigits(-n);
      DigitsValueOfNatDigits(-n);
    } else {
      DigitsValueOfNatDigits(n);
    }
  }

  /** Distinct integers are written differently. */
  lemma FormatIntInjective(a: int, b: int)
    requires FormatInt(a) == FormatInt(b)
    ensures a == b
  {
    ParseFormatInt(a);
    ParseFormatInt(b);
  }

  /** A sign followed by digits denotes the signed value of the digits. */
  lemma ParseSigned(sign: char, digits: string)
    requires sign == '+' || sign == '-'
    requires digits != [] && AllDigits(digits)
    ensures ParseSignedDigits([sign] + digits) ==
      Some(if sign == '-' then -(DigitsValue(digits) as int) else DigitsValue(digits))
  {
    assert ([sign] + digits)[1..] == digits;
  }

  /** A character other than a digit or a sign cannot occur in a numeral. */
  lemma ParseSignedDigitsRejects(t: string, k: nat)
    requires k < |t| && !IsDigit(t[k]) && t[k] != '-' && t[k] != '+'
    ensures ParseSignedDigits(t) == None
  {
    if 0 < |t| && (t[0] == '-' || t[0] == '+') {
      assert t[1..][k - 1] == t[k];
    }
  }

  /** The white space `int.TryParse` skips: U+0009 to U+000D and U+0020. */
  predicate IsWhiteSpace(c: char) {
    c == ' ' || '\t' <= c <= '\r'
  }

  predicate AllWhiteSpace(s: string) {
    forall i :: 0 <= i < |s| ==> IsWhiteSpace(s[i])
  }

  /** `s` without its leading white space. */
  function TrimStart(s: string): (r: string)
    ensures |r| <= |s| && r == s[|s| - |r|..]
    ensures AllWhiteSpace(s[..|s| - |r|])
    ensures r != [] ==> !IsWhiteSpace(r[0])
    decreases |s|
  {
    if s != [] && IsWhiteSpace(s[0]) then
      var r := TrimStart(s[1..]);
      assert s[..|s| - |r|] == [s[0]] + s[1..][..|s| - 1 - |r|];
      r
    else
      s
  }

  /** `s` without its trailing white space. */
  function TrimEnd(s: string): (r: string)
    ensures |r| <= |s| && r == s[..|r|]
    ensures AllWhiteSpace(s[|r|..])
    ensures r != [] ==> !IsWhiteSpace(r[|r| - 1])
    decreases |s|
  {
    if s != [] && IsWhiteSpace(s[|s| - 1]) then
      var r := TrimEnd(s[..|s| - 1]);
      assert s[|r|..] == s[..|s| - 1][|r|..] + [s[|s| - 1]];
      r
    else
      s
  }

  /** `s` without white space at either end. */
  function Trim(s: string): string {
    TrimEnd(TrimStart(s))
  }

  /**
   * `int.TryParse(s, out v)`: `Some(v)` where the C# call returns true and
   * stores `v`, `None` where it returns false.
   */
  function TryParseInt32(s: string): Option<int32> {
    match ParseSignedDigits(Trim(s))
    case Some(v) => if InInt32(v) then Some(v as int32) else None
    case None => None
  }

  lemma {:induction false} TrimStartSkipsWhiteSpace(w: string, t: string)
    requires AllWhiteSpace(w)
    requires t != [] && !IsWhiteSpace(t[0])
    ensures TrimStart(w + t) == t
    decreases |w|
  {
    if w == [] {
      assert w + t == t;
    } else {
      var s := w + t;
      assert s[0] == w[0];
      assert s[1..] == w[1..] + t;
      TrimStartSkipsWhiteSpace(w[1..], t);
      assert TrimStart(s) == TrimStart(s[1..]);
    }
  }

  lemma {:induction false} TrimEndSkipsWhiteSpace(t: string, w: string)
    requires AllWhiteSpace(w)
    requires t != [] && !IsWhiteSpace(t[|t| - 1])
    ensures TrimEnd(t + w) == t
    decreases |w|
  {
    if w == [] {
      assert t + w == t;
    } else {
      assert (t + w)[..|t + w| - 1] == t + w[..|w| - 1];
      TrimEndSkipsWhiteSpace(t, w[..|w| - 1]);
    }
  }

  /** White space around a text that neither starts nor ends with white space is trimmed off exactly. */
  lemma TrimOf(lead: string, t: string, trail: string)
    requires AllWhiteSpace(lead) && AllWhiteSpace(trail)
    requires t != [] && !IsWhiteSpace(t[0]) && !IsWhiteSpace(t[|t| - 1])
    ensures Trim(lead + t + trail) == t
  {
    assert lead + t + trail == lead + (t + trail);
    TrimStartSkipsWhiteSpace(lead, t + trail);
    TrimEndSkipsWhiteSpace(t, trail);
  }

  /**
   * The numeral `ToString` writes for `n`, with any white space around it, is
   * read back as `n` exactly when `n` fits in an `int`; otherwise the parse
   * fails (overflow).
   */
  lemma TryParseInt32Format(lead: string, n: int, trail: string)
    requires AllWhiteSpace(lead) && AllWhiteSpace(trail)
    ensures TryParseInt32(lead + FormatInt(n) + trail) == if InInt32(n) then Some(n as int32) else None
  {
    TrimOf(lead, FormatInt(n), trail);
    ParseFormatInt(n);
  }

  /**
   * Any run of digits (leading zeros allowed) with white space around it is
   * read as its value when that fits in an `int`; otherwise the parse fails.
   */
  lemma TryParseInt32Digits(lead: string, digits: string, trail: string)
    requires AllWhiteSpace(lead) && AllWhiteSpace(trail)
    requires digits != [] && AllDigits(digits)
    ensures TryParseInt32(lead + digits + trail) ==
      if InInt32(DigitsValue(digits)) then Some(DigitsValue(digits) as int32) else None
  {
    TrimOf(lead, digits, trail);
  }

  /**
   * A `+` or `-` sign followed by a run of digits (leading zeros allowed),
   * with white space around it, is read as the signed value when that fits
   * in an `int`; otherwise the parse fails.
   */
  lemma TryParseInt32Signed(lead: string, sign: char, digits: string, trail: string)
    requires AllWhiteSpace(lead) && AllWhiteSpace(trail)
    requires sign == '+' || sign == '-'
    requires digits != [] && AllDigits(digits)
    ensures var v := if sign == '-' then -(DigitsValue(digits) as int) else DigitsValue(digits);
      TryParseInt32(lead + [sign] + digits + trail) == if InInt32(v) then Some(v as int32) else None
  {
    var t := [sign] + digits;
    assert lead + [sign] + digits + trail == lead + t + trail;
    TrimOf(lead, t, trail);
    ParseSigned(sign, digits);
  }

  /** A string with suffix `a`, where `a` has prefix `t`, is what precedes `a`, then `t`, then what follows `t`. */
  lemma Split3(s: string, a: string, t: string)
    requires |a| <= |s| && a == s[|s| - |a|..]
    requires |t| <= |a| && t == a[..|t|]
    ensures s == s[..|s| - |a|] + t + a[|t|..]
  {
    assert a == t + a[|t|..];
    assert s == s[..|s| - |a|] + a;
  }

  /** A string is its leading white space, its trimmed text and its trailing white space. */
  lemma TrimSplit(s: string)
    ensures var lead := s[..|s| - |TrimStart(s)|];
      var trail := TrimStart(s)[|Trim(s)|..];
      s == lead + Trim(s) + trail && AllWhiteSpace(lead) && AllWhiteSpace(trail)
  {
    var a := TrimStart(s);
    var t := TrimEnd(a);
    assert t == Trim(s);
    assert AllWhiteSpace(s[..|s| - |a|]);
    assert AllWhiteSpace(a[|t|..]);
    Split3(s, a, t);
  }

  /** What the signed-digit grammar accepts: digits, or a sign followed by digits, with their value. */
  lemma ParseSignedDigitsAccepted(t: string)
    requires ParseSignedDigits(t).Some?
    ensures var v := ParseSignedDigits(t).value;
      (t != [] && AllDigits(t) && v == DigitsValue(t)) ||
      (1 < |t| && (t[0] == '+' || t[0] == '-') && AllDigits(t[1..]) &&
       v == if t[0] == '-' then -(DigitsValue(t[1..]) as int) else DigitsValue(t[1..]))
  {
  }

  /**
   * The converse of the parsing lemmas: whatever `int.TryParse` accepts is
   * white space, then either digits or a sign followed by digits, then white
   * space, and the value read is the (signed) value of those digits. So
   * `"1 2"`, `"+-1"`, `"1-"`, `"+"`, `""` and `"  "` are all refused.
   */
  lemma TryParseInt32Accepted(s: string)
    requires TryParseInt32(s).Some?
    ensures var t := Trim(s);
      var lead := s[..|s| - |TrimStart(s)|];
      var trail := TrimStart(s)[|t|..];
      var v := TryParseInt32(s).value as int;
      s == lead + t + trail && AllWhiteSpace(lead) && AllWhiteSpace(trail) &&
      ((t != [] && AllDigits(t) && v == DigitsValue(t)) ||
       (1 < |t| && (t[0] == '+' || t[0] == '-') && AllDigits(t[1..]) &&
        v == if t[0] == '-' then -(DigitsValue(t[1..]) as int) else DigitsValue(t[1..])))
  {
    TrimSplit(s);
    ParseSignedDigitsAccepted(Trim(s));
  }

  /** The numeral of an `int` is read back as that `int`. */
  lemma TryParseInt32OfFormatInt(n: int32)
    ensures TryParseInt32(FormatInt(n as int)) == Some(n)
  {
    var t := FormatInt(n as int);
    assert !IsWhiteSpace(t[0]) && !IsWhiteSpace(t[|t| - 1]);
    assert TrimStart(t) == t;
    assert TrimEnd(t) == t;
    ParseFormatInt(n as int);
  }

  /** Trimming the start never removes a character that is not white space. */
  lemma {:induction false} TrimStartKeeps(s: string, k: nat)
    requires k < |s| && !IsWhiteSpace(s[k])
    ensures |s| - |TrimStart(s)| <= k
    decreases |s|
  {
    if IsWhiteSpace(s[0]) {
      TrimStartKeeps(s[1..], k - 1);
    }
  }

  /** Trimming the end never removes a character that is not white space. */
  lemma {:induction false} TrimEndKeeps(s: string, k: nat)
    requires k < |s| && !IsWhiteSpace(s[k])
    ensures k < |TrimEnd(s)|
    decreases |s|
  {
    if IsWhiteSpace(s[|s| - 1]) {
      TrimEndKeeps(s[..|s| - 1], k);
    }
  }

  /** Trimming keeps a character that is not white space, shifted by what was cut from the start. */
  lemma TrimKeeps(s: string, k: nat)
    requires k < |s| && !IsWhiteSpace(s[k])
    ensures var from := |s| - |TrimStart(s)|;
      from <= k && k - from < |Trim(s)| && Trim(s)[k - from] == s[k]
  {
    var a := TrimStart(s);
    var from := |s| - |a|;
    TrimStartKeeps(s, k);
    assert a[k - from] == s[k];
    TrimEndKeeps(a, k - from);
  }

  /** A character that is neither a digit, a sign nor white space makes the parse fail. */
  lemma TryParseInt32RejectsForeign(s: string, k: nat)
    requires k < |s|
    requires !IsDigit(s[k]) && !IsWhiteSpace(s[k]) && s[k] != '-' && s[k] != '+'
    ensures TryParseInt32(s) == None
  {
    TrimKeeps(s, k);
    var t := Trim(s);
    var j := k - (|s| - |TrimStart(s)|);
    assert t[j] == s[k];
    ParseSignedDigitsRejects(t, j);
  }
}
