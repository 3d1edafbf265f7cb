/**
 * Column widths of text on a terminal-like display, and the fixed-width
 * "slice and fill" helper that pads each field of an output line
 * (`get_display_width` and `zen_slice_and_fill` in infra.py).
 *
 * Unicode's East Asian Width property is not modelled: every member takes a
 * predicate `wide` that says which characters occupy two columns (the
 * characters whose East Asian Width is F, W or A); all others occupy one.
 */
module Display {

  /** Columns taken by one character: 2 if it is wide, otherwise 1. */
  function CharWidth(wide: char -> bool, c: char): nat
  {
    if wide(c) then 2 else 1
  }

  /** The sum of the column widths of the characters of `s` (`get_display_width`). */
  function DisplayWidth(wide: char -> bool, s: string): nat
  {
    if s == [] then 0 else CharWidth(wide, s[0]) + DisplayWidth(wide, s[1..])
  }

  /** `' ' * n` in Python: `n` spaces, and the empty string when `n` is not positive. */
  function Spaces(n: int): (r: string)
    ensures |r| == if n < 0 then 0 else n
    ensures forall i :: 0 <= i < |r| ==> r[i] == ' '
  {
    if n <= 0 then "" else " " + Spaces(n - 1)
  }

  /** The width of a concatenation is the sum of the widths. */
  lemma {:induction false} DisplayWidthAppend(wide: char -> bool, a: string, b: string)
    ensures DisplayWidth(wide, a + b) == DisplayWidth(wide, a) + DisplayWidth(wide, b)
  {
    if a == [] {
      assert a + b == b;
    } else {
      assert (a + b)[1..] == a[1..] + b;
      DisplayWidthAppend(wide, a[1..], b);
    }
  }

  /** Every character takes one or two columns, so a string is between |s| and 2|s| wide. */
  lemma {:induction false} DisplayWidthBounds(wide: char -> bool, s: string)
    ensures |s| <= DisplayWidth(wide, s) <= 2 * |s|
  {
    if s != [] {
      DisplayWidthBounds(wide, s[1..]);
    }
  }

  /** A string of narrow characters takes one column per character. */
  lemma {:induction false} NarrowWidth(wide: char -> bool, s: string)
    requires forall i :: 0 <= i < |s| ==> !wide(s[i])
    ensures DisplayWidth(wide, s) == |s|
  {
    if s != [] {
      NarrowWidth(wide, s[1..]);
    }
  }

  /** With a narrow space, `n` spaces take exactly `n` columns (none when `n` is not positive). */
  lemma {:induction false} SpacesWidth(wide: char -> bool, n: int)
    requires !wide(' ')
    ensures DisplayWidth(wide, Spaces(n)) == if n < 0 then 0 else n
  {
    if n > 0 {
      assert Spaces(n)[1..] == Spaces(n - 1);
      SpacesWidth(wide, n - 1);
    }
  }

  /**
   * The number of leading characters of `text` that are kept when at most
   * `budget` columns are available: characters are taken one by one until the
   * next one would go over the budget.
   */
  function FitPrefix(wide: char -> bool, text: string, budget: int): (k: nat)
    ensures k <= |text|
  {
    if text == [] || CharWidth(wide, text[0]) > budget then 0
    else 1 + FitPrefix(wide, text[1..], budget - CharWidth(wide, text[0]))
  }

  /**
   * FitPrefix picks the longest prefix that fits: the kept prefix takes at most
   * `budget` columns (when the budget is not negative), and one more character
   * would go over it.
   */
  lemma {:induction false} FitPrefixIsLongest(wide: char -> bool, text: string, budget: int)
    ensures budget >= 0 ==> DisplayWidth(wide, text[..FitPrefix(wide, text, budget)]) <= budget
    ensures FitPrefix(wide, text, budget) < |text| ==>
              DisplayWidth(wide, text[..FitPrefix(wide, text, budget) + 1]) > budget
  {
    var k := FitPrefix(wide, text, budget);
    if text != [] && CharWidth(wide, text[0]) <= budget {
      var w := CharWidth(wide, text[0]);
      FitPrefixIsLongest(wide, text[1..], budget - w);
      assert text[..k][1..] == text[1..][..k - 1];
      if k < |text| {
        assert text[..k + 1][1..] == text[1..][..k];
      }
    }
  }

  /**
   * What `zen_slice_and_fill(text, width)` returns: the longest prefix of
   * `text` that fits in `width - 1` columns; if the text was cut, one space for
   * the column that could not be filled; then spaces up to `width` columns.
   */
  function SliceAndFill(wide: char -> bool, text: string, width: int): string
  {
    var k := FitPrefix(wide, text, width - 1);
    if k < |text| then text[..k] + " " + Spaces(width - 1 - DisplayWidth(wide, text[..k]))
    else text + Spaces(width - DisplayWidth(wide, text))
  }

  /**
   * For a positive width the result is a prefix of `text` followed by at least
   * one space, and that prefix is the longest one that fits in `width - 1`
   * columns.
   */
  lemma SliceAndFillShape(wide: char -> bool, text: string, width: int)
    requires width >= 1
    ensures var k := FitPrefix(wide, text, width - 1);
            var pad := width - DisplayWidth(wide, text[..k]);
            pad >= 1 && SliceAndFill(wide, text, width) == text[..k] + Spaces(pad)
  {
    var k := FitPrefix(wide, text, width - 1);
    FitPrefixIsLongest(wide, text, width - 1);
    var pad := width - DisplayWidth(wide, text[..k]);
    if k < |text| {
      assert " " + Spaces(pad - 1) == Spaces(pad);
    } else {
      assert text[..k] == text;
    }
  }

  /** For a positive width and a narrow space, the result is exactly `width` columns wide. */
  lemma SliceAndFillWidth(wide: char -> bool, text: string, width: int)
    requires width >= 1 && !wide(' ')
    ensures DisplayWidth(wide, SliceAndFill(wide, text, width)) == width
  {
    var k := FitPrefix(wide, text, width - 1);
    var pad := width - DisplayWidth(wide, text[..k]);
    SliceAndFillShape(wide, text, width);
    DisplayWidthAppend(wide, text[..k], Spaces(pad));
    SpacesWidth(wide, pad);
  }

  /** An empty text becomes `width` spaces (none when the width is not positive). */
  lemma SliceAndFillEmpty(wide: char -> bool, width: int)
    ensures SliceAndFill(wide, "", width) == Spaces(width)
  {
  }

  /**
   * When the width is not positive no column is available: a non-empty text
   * becomes a single space, wider than asked for.
   */
  lemma SliceAndFillNonPositive(wide: char -> bool, text: string, width: int)
    requires width <= 0 && text != []
    ensures SliceAndFill(wide, text, width) == " "
  {
  }

  lemma FitPrefixStep(wide: char -> bool, text: string, i: nat, budget: int)
    requires i < |text|
    ensures FitPrefix(wide, text[i..], budget) ==
              if CharWidth(wide, text[i]) > budget then 0
              else 1 + FitPrefix(wide, text[i + 1..], budget - CharWidth(wide, text[i]))
  {
    assert text[i..][1..] == text[i + 1..];
  }

  lemma DisplayWidthStep(wide: char -> bool, text: string, i: nat)
    requires i < |text|
    ensures text[..i + 1] == text[..i] + [text[i]]
    ensures DisplayWidth(wide, text[..i + 1]) == DisplayWidth(wide, text[..i]) + CharWidth(wide, text[i])
  {
    assert text[..i + 1] == text[..i] + [text[i]];
    DisplayWidthAppend(wide, text[..i], [text[i]]);
  }

  /** The imperative helper: walks the text column by column and stops at the first character that does not fit. */
  method ZenSliceAndFill(wide: char -> bool, text: string, width: int) returns (r: string)
    ensures r == SliceAndFill(wide, text, width)
  {
    var currW := 0;
    var sliced := "";
    var i := 0;
    while i < |text|
      invariant 0 <= i <= |text|
      invariant sliced == text[..i]
      invariant currW == DisplayWidth(wide, text[..i])
      invariant FitPrefix(wide, text, width - 1) == i + FitPrefix(wide, text[i..], width - 1 - currW)
    {
      var charW := if wide(text[i]) then 2 else 1;
      FitPrefixStep(wide, text, i, width - 1 - currW);
      if currW + charW > width - 1 {
        sliced := sliced + " ";
        currW := currW + 1;
        break;
      }
      DisplayWidthStep(wide, text, i);
      sliced := sliced + [text[i]];
      currW := currW + charW;
      i := i + 1;
    }
    assert i == |text| ==> text[..i] == text;
    r := sliced + Spaces(width - currW);
  }
}
