/**
 * The pure step of `OverlayService.updateColor`: the colour preference gets a
 * leading `#` when it lacks one, and a colour that `Color.parseColor` rejects
 * becomes the colour value 0 (fully transparent).
 */
module TextColor {
  import opened Wrappers
  import opened JavaLang

  /** The colour read from the preferences when none is stored. */
  const DEFAULT_COLOR: string := "#fff"
  /** The colour applied when parsing fails. */
  const TRANSPARENT: int := 0

  /** Prefixes `#` unless the colour already starts with one. */
  function Normalized(color: string): (r: string)
    ensures StartsWith(r, "#")
    ensures StartsWith(color, "#") ==> r == color
    ensures !StartsWith(color, "#") ==> r == "#" + color
  {
    if StartsWith(color, "#") then color else "#" + color
  }

  /** Normalising twice is normalising once. */
  lemma NormalizedIdempotent(color: string)
    ensures Normalized(Normalized(color)) == Normalized(color)
  {
  }

  /** A colour without its `#` normalises to the same string as with it. */
  lemma NormalizedHashOptional(color: string)
    requires !StartsWith(color, "#")
    ensures Normalized(color) == Normalized("#" + color)
  {
    assert ("#" + color)[..1] == "#";
  }

  /**
   * The text colour `updateColor` applies, for a given behaviour of
   * `Color.parseColor` (`None` where it throws `IllegalArgumentException`).
   */
  function ColorValue(parseColor: string -> Option<int>, color: string): (c: int)
    ensures parseColor(Normalized(color)).None? ==> c == TRANSPARENT
    ensures parseColor(Normalized(color)).Some? ==> c == parseColor(Normalized(color)).value
  {
    match parseColor(Normalized(color))
    case Some(v) => v
    case None => TRANSPARENT
  }

  /** "fff" and "#fff" give the same colour, whatever the parser. */
  lemma ColorValueHashOptional(parseColor: string -> Option<int>, color: string)
    requires !StartsWith(color, "#")
    ensures ColorValue(parseColor, color) == ColorValue(parseColor, "#" + color)
  {
    NormalizedHashOptional(color);
  }

  /** The parser is only ever asked about strings that start with `#`. */
  lemma ColorValueOnlyAsksHashed(p: string -> Option<int>, q: string -> Option<int>, color: string)
    requires forall s :: StartsWith(s, "#") ==> p(s) == q(s)
    ensures ColorValue(p, color) == ColorValue(q, color)
  {
  }
}
