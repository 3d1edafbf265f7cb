/**
 * Python's `int(s)` on a string, as `_read_csv` uses it to read port numbers:
 * surrounding whitespace is ignored, an optional sign may come first, and the
 * digits may be grouped by single underscores ("1_000"), and there may be at
 * most `MaxStrDigits` digits. Anything else makes `int` raise, which this model
 * renders as `None`.
 */
module PyInt {
  import opened Wrappers

  /**
   * The whitespace `int` skips around the number. An ASCII character is kept
   * as it is and only tab, line feed, vertical tab, form feed, carriage return
   * and space are skipped; so U+001C to U+001F, which `str.isspace` accepts,
   * make `int` raise. A non-ASCII character is first turned into a space when
   * `str.isspace` accepts it.
   */
  predicate IsSpace(c: char)
  {
    ('\t' <= c <= '\r') || c == ' ' || c == '\U{85}' || c == '\U{A0}' ||
    c == '\U{1680}' || ('\U{2000}' <= c <= '\U{200A}') || c == '\U{2028}' || c == '\U{2029}' ||
    c == '\U{202F}' || c == '\U{205F}' || c == '\U{3000}'
  }

  predicate IsDigit(c: char)
  {
    '0' <= c <= '9'
  }

  function TrimStart(s: string): string
  {
    if s != [] && IsSpace(s[0]) then TrimStart(s[1..]) else s
  }

  function TrimEnd(s: string): string
  {
    if s != [] && IsSpace(s[|s| - 1]) then TrimEnd(s[..|s| - 1]) else s
  }

  /** Digits, where each underscore sits between two digits. */
  predicate WellFormedDigits(s: string)
  {
    |s| > 0 && IsDigit(s[|s| - 1]) &&
    (forall i :: 0 <= i < |s| ==> IsDigit(s[i]) || s[i] == '_') &&
    (forall i :: 0 < i < |s| && s[i] == '_' ==> IsDigit(s[i - 1])) &&
    IsDigit(s[0])
  }

  function DropUnderscores(s: string): string
  {
    if s == [] then [] else (if s[0] == '_' then [] else [s[0]]) + DropUnderscores(s[1..])
  }

  function DigitValue(c: char): nat
    requires IsDigit(c)
  {
    c as int - '0' as int
  }

  /** The value of a string of decimal digits, most significant first. */
  function DigitsValue(s: string): nat
    requires forall i :: 0 <= i < |s| ==> IsDigit(s[i])
  {
    if s == [] then 0 else 10 * DigitsValue(s[..|s| - 1]) + DigitValue(s[|s| - 1])
  }

  lemma {:induction false} DropUnderscoresDigits(s: string)
    requires forall i :: 0 <= i < |s| ==> IsDigit(s[i]) || s[i] == '_'
    ensures forall i :: 0 <= i < |DropUnderscores(s)| ==> IsDigit(DropUnderscores(s)[i])
  {
    if s != [] {
      DropUnderscoresDigits(s[1..]);
    }
  }

  /**
   * The default of `sys.get_int_max_str_digits()`: a decimal string with more
   * digits than this (underscores not counted) makes `int` raise ValueError.
   */
  const MaxStrDigits := 4300

  function ParseDigits(s: string): Option<nat>
  {
    if WellFormedDigits(s) && |DropUnderscores(s)| <= MaxStrDigits then
      DropUnderscoresDigits(s);
      Some(DigitsValue(DropUnderscores(s)))
    else None
  }

  /** `int(s)`: `Some(n)` where Python returns `n`, `None` where it raises. */
  function ParseInt(s: string): Option<int>
  {
    var t := TrimEnd(TrimStart(s));
    if t != [] && (t[0] == '+' || t[0] == '-') then
      match ParseDigits(t[1..])
      case None => None
      case Some(n) => var v: int := if t[0] == '-' then -(n as int) else n; Some(v)
    else ParseDigits(t)
  }

  function DigitChar(d: nat): (c: char)
    requires d < 10
    ensures IsDigit(c) && DigitValue(c) == d
  {
    ('0' as int + d) as char
  }

  /** Decimal notation of a natural number, without leading zeros. */
  function ShowNat(n: nat): (s: string)
    ensures |s| > 0 && forall i :: 0 <= i < |s| ==> IsDigit(s[i])
  {
    if n < 10 then [DigitChar(n)] else ShowNat(n / 10) + [DigitChar(n % 10)]
  }

  /** Decimal notation of an integer, as Python's `str(n)` writes it. */
  function ShowInt(n: int): string
  {
    if n < 0 then "-" + ShowNat(-n) else ShowNat(n)
  }

  lemma {:induction false} DigitsValueShowNat(n: nat)
    ensures DigitsValue(ShowNat(n)) == n
  {
    if n >= 10 {
      var s := ShowNat(n);
      assert s[..|s| - 1] == ShowNat(n / 10);
      DigitsValueShowNat(n / 10);
    }
  }

  lemma {:induction false} DropUnderscoresNone(s: string)
    requires forall i :: 0 <= i < |s| ==> IsDigit(s[i])
    ensures DropUnderscores(s) == s
  {
    if s != [] {
      DropUnderscoresNone(s[1..]);
    }
  }

  lemma ParseDigitsShowNat(n: nat)
    requires |ShowNat(n)| <= MaxStrDigits
    ensures ParseDigits(ShowNat(n)) == Some(n)
  {
    DropUnderscoresNone(ShowNat(n));
    DigitsValueShowNat(n);
  }

  /** Leading whitespace is dropped, and nothing else. */
  lemma {:induction false} TrimStartSkipsSpaces(sp: string, t: string)
    requires forall i :: 0 <= i < |sp| ==> IsSpace(sp[i])
    requires t != [] && !IsSpace(t[0])
    ensures TrimStart(sp + t) == t
  {
    if sp == [] {
      assert sp + t == t;
    } else {
      assert (sp + t)[1..] == sp[1..] + t;
      TrimStartSkipsSpaces(sp[1..], t);
    }
  }

  /** Trailing whitespace is dropped, and nothing else. */
  lemma {:induction false} TrimEndSkipsSpaces(t: string, sp: string)
    requires forall i :: 0 <= i < |sp| ==> IsSpace(sp[i])
    requires t != [] && !IsSpace(t[|t| - 1])
    ensures TrimEnd(t + sp) == t
  {
    if sp == [] {
      assert t + sp == t;
    } else {
      assert (t + sp)[..|t + sp| - 1] == t + sp[..|sp| - 1];
      TrimEndSkipsSpaces(t, sp[..|sp| - 1]);
    }
  }

  /** Whitespace on both sides is stripped, and nothing else. */
  lemma TrimBoth(sp1: string, t: string, sp2: string)
    requires forall i :: 0 <= i < |sp1| ==> IsSpace(sp1[i])
    requires forall i :: 0 <= i < |sp2| ==> IsSpace(sp2[i])
    requires t != [] && !IsSpace(t[0]) && !IsSpace(t[|t| - 1])
    ensures TrimEnd(TrimStart(sp1 + t + sp2)) == t
  {
    assert sp1 + t + sp2 == sp1 + (t + sp2);
    TrimStartSkipsSpaces(sp1, t + sp2);
    TrimEndSkipsSpaces(t, sp2);
  }

  /**
   * `int` reads back what `str` writes, whatever whitespace surrounds it:
   * `int(sp1 + str(n) + sp2) == n`, for every `n` of at most `MaxStrDigits`
   * digits.
   */
  lemma ParseIntShowInt(n: int, sp1: string, sp2: string)
    requires forall i :: 0 <= i < |sp1| ==> IsSpace(sp1[i])
    requires forall i :: 0 <= i < |sp2| ==> IsSpace(sp2[i])
    requires |ShowNat(if n < 0 then -n else n)| <= MaxStrDigits
    ensures ParseInt(sp1 + ShowInt(n) + sp2) == Some(n)
  {
    var t := ShowInt(n);
    if n < 0 {
      assert t == "-" + ShowNat(-n) && t[1..] == ShowNat(-n);
      assert IsDigit(t[|t| - 1]);
      TrimBoth(sp1, t, sp2);
      ParseDigitsShowNat(-n);
    } else {
      assert IsDigit(t[0]) && IsDigit(t[|t| - 1]);
      TrimBoth(sp1, t, sp2);
      ParseDigitsShowNat(n);
    }
  }

  /** A run of more than `MaxStrDigits` digits is refused, whatever its value. */
  lemma ParseIntTooManyDigits(s: string)
    requires |s| > MaxStrDigits && forall i :: 0 <= i < |s| ==> IsDigit(s[i])
    ensures ParseInt(s) == None
  {
    assert TrimStart(s) == s;
    assert TrimEnd(s) == s;
    DropUnderscoresNone(s);
  }

  /** The information separators U+001C to U+001F are not skipped: `int("\x1c80")` raises. */
  lemma SeparatorIsNotSpace()
    ensures ParseInt("\U{1C}80") == None
  {
    assert TrimStart("\U{1C}80") == "\U{1C}80";
    assert TrimEnd("\U{1C}80") == "\U{1C}80";
  }
}
