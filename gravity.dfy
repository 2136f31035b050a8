/**
 * `OverlayService.getGravity(String)`: the location preference, a decimal
 * corner code, becomes an `android.view.Gravity` value that pins the overlay
 * to one corner of the screen.
 */
module Gravity {
  import opened Wrappers
  import opened JavaLang

  /** The `android.view.Gravity` constants the mapping combines. */
  const GRAVITY_TOP: bv32 := 0x30
  const GRAVITY_BOTTOM: bv32 := 0x50
  const GRAVITY_LEFT: bv32 := 0x03
  const GRAVITY_RIGHT: bv32 := 0x05
  const VERTICAL_GRAVITY_MASK: bv32 := 0x70
  const HORIZONTAL_GRAVITY_MASK: bv32 := 0x07

  datatype Vertical = Top | Bottom
  datatype Horizontal = Left | Right
  /** A screen corner. */
  datatype Corner = Corner(vertical: Vertical, horizontal: Horizontal)

  /** The gravity flags of a corner: one vertical flag or-ed with one horizontal flag. */
  function Flags(c: Corner): (g: bv32)
    ensures g & VERTICAL_GRAVITY_MASK == (if c.vertical == Top then GRAVITY_TOP else GRAVITY_BOTTOM)
    ensures g & HORIZONTAL_GRAVITY_MASK == (if c.horizontal == Left then GRAVITY_LEFT else GRAVITY_RIGHT)
  {
    (if c.vertical == Top then GRAVITY_TOP else GRAVITY_BOTTOM)
      | (if c.horizontal == Left then GRAVITY_LEFT else GRAVITY_RIGHT)
  }

  /** Distinct corners have distinct flags, so the flags name the corner. */
  lemma FlagsInjective(c: Corner, d: Corner)
    requires Flags(c) == Flags(d)
    ensures c == d
  {
    assert Flags(c) & VERTICAL_GRAVITY_MASK == Flags(d) & VERTICAL_GRAVITY_MASK;
    assert Flags(c) & HORIZONTAL_GRAVITY_MASK == Flags(d) & HORIZONTAL_GRAVITY_MASK;
  }

  /** The switch on the parsed corner code: 0 to 3 name the four corners, anything else is top-left. */
  function CornerOf(code: int): (c: Corner)
    ensures c.vertical == Bottom <==> code == 2 || code == 3
    ensures c.horizontal == Right <==> code == 1 || code == 3
  {
    if code == 1 then Corner(Top, Right)
    else if code == 2 then Corner(Bottom, Left)
    else if code == 3 then Corner(Bottom, Right)
    else Corner(Top, Left)
  }

  /** The code the preference screen uses for a corner. */
  function CodeOf(c: Corner): (code: int)
    ensures 0 <= code <= 3 && CornerOf(code) == c
  {
    (if c.vertical == Bottom then 2 else 0) + (if c.horizontal == Right then 1 else 0)
  }

  /** Every code outside 0..3 falls back to top-left. */
  lemma OutOfRangeIsTopLeft(code: int)
    requires code < 0 || code > 3
    ensures CornerOf(code) == Corner(Top, Left)
    ensures CornerOf(code) == CornerOf(0)
  {
  }

  /**
   * `getGravity(preferenceValue)`. `Integer.parseInt` is not guarded, so a value
   * that does not parse yields `None`, the `NumberFormatException` that escapes.
   */
  function GravityFor(preferenceValue: string): (r: Option<bv32>)
    ensures r.None? <==> ParseInt(preferenceValue).None?
  {
    match ParseInt(preferenceValue)
    case None => None
    case Some(code) => Some(Flags(CornerOf(code)))
  }

  /** The four codes the preference screen offers give TOP|LEFT, TOP|RIGHT, BOTTOM|LEFT and BOTTOM|RIGHT. */
  lemma GravityTable()
    ensures GravityFor("0") == Some(GRAVITY_TOP | GRAVITY_LEFT)
    ensures GravityFor("1") == Some(GRAVITY_TOP | GRAVITY_RIGHT)
    ensures GravityFor("2") == Some(GRAVITY_BOTTOM | GRAVITY_LEFT)
    ensures GravityFor("3") == Some(GRAVITY_BOTTOM | GRAVITY_RIGHT)
  {
    assert ParseInt("0") == Some(0);
    assert ParseInt("1") == Some(1);
    assert ParseInt("2") == Some(2);
    assert ParseInt("3") == Some(3);
  }

  /** The decimal text of any 32-bit code maps to that code's corner; outside 0..3 that is TOP|LEFT. */
  lemma GravityForDecimal(code: int)
    requires INT_MIN <= code <= INT_MAX
    ensures GravityFor(Show(code)) == Some(Flags(CornerOf(code)))
    ensures (code < 0 || code > 3) ==> GravityFor(Show(code)) == Some(GRAVITY_TOP | GRAVITY_LEFT)
  {
    ParseShow(code);
  }

  /** Text that is not an integer is outside the mapping's domain: the parse throws. */
  lemma GravityForNonNumeric(preferenceValue: string, i: nat)
    requires i < |preferenceValue| && !IsDigit(preferenceValue[i])
    requires i > 0 || (preferenceValue[0] != '-' && preferenceValue[0] != '+')
    ensures GravityFor(preferenceValue).None?
  {
    ParseIntRejectsNonDigit(preferenceValue, i);
  }

  /** In particular the empty string and a word do not map to a default. */
  lemma GravityForEmptyOrWord()
    ensures GravityFor("").None? && GravityFor("top").None? && GravityFor("-").None?
  {
    GravityForNonNumeric("top", 0);
  }
}
