/** The colour theme: the three radio choices and their RGB codes for the
    point map. */
module Theme {
  import opened Outcomes

  /** The radio button's choices. */
  const Colors: seq<string> := ["Red", "Green", "Blue"]

  predicate IsChannel(x: int)
  {
    0 <= x <= 255
  }

  /** RGB code of a colour name; green is the web's half-intensity green, not
      lime. Any other name yields nothing. */
  function ColorToRgb(color: string): (rgb: Option<seq<int>>)
    ensures rgb.Some? <==> color in Colors
    ensures rgb.Some? ==> |rgb.value| == 3 && forall i :: 0 <= i < 3 ==> IsChannel(rgb.value[i])
  {
    if color == "Red" then Some([255, 0, 0])
    else if color == "Green" then Some([0, 128, 0])
    else if color == "Blue" then Some([0, 0, 255])
    else None
  }

  /** Every radio choice has a code, and distinct choices have distinct
      codes. */
  lemma ThemeCodesDistinct(c1: string, c2: string)
    requires c1 in Colors && c2 in Colors
    ensures ColorToRgb(c1).Some?
    ensures ColorToRgb(c1) == ColorToRgb(c2) ==> c1 == c2
  {
  }

  /** The codes handed to the point map for each radio choice. */
  lemma ThemeCodes()
    ensures ColorToRgb("Red") == Some([255, 0, 0])
    ensures ColorToRgb("Green") == Some([0, 128, 0])
    ensures ColorToRgb("Blue") == Some([0, 0, 255])
  {
  }
}
