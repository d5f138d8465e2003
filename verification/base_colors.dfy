/** The palette of the current generation (`TRSBaseColorDefinitions`). */
module BaseColors {
  import opened Colors
  import Hex

  const White: TRSColor := Make("WHITE", 0xFFFFFF)
  const Ground: TRSColor := Make("GROUND", 0xE9E9E6)
  const Accent: TRSColor := Make("ACCENT", 0xD1D0C7)
  const Secondary: TRSColor := Make("SECONDARY", 0xADABA0)
  const Text: TRSColor := Make("TEXT", 0x1B1818)
  const Primary: TRSColor := Make("PRIMARY", 0x0F0F10)
  const Shadow: TRSColor := WithOpacity(Text, 0.1)
  const Red: TRSColor := Make("RED", 0xFF0000)
  const Yellow: TRSColor := Make("YELLOW", 0xFFFF00)
  const Green: TRSColor := Make("GREEN", 0x708C64)
  const None: TRSColor := TRSColor("NONE", "n/a", 0x000000, 0.0)

  /** Every entry, in declaration order. */
  const Entries: seq<TRSColor> := [White, Ground, Accent, Secondary, Text, Primary, Shadow, Red, Yellow, Green, None]

  /**
   * Every entry carries the initialiser's default RAL code and fits in 24
   * bits; all are opaque except `shadow` and `none`.
   */
  lemma EntriesWellFormed()
    ensures |Entries| == 11
    ensures forall c :: c in Entries ==> c.ral == "n/a" && c.hex <= 0xFF_FFFF
    ensures forall c :: c in Entries && c != Shadow && c != None ==> c.opacity == 1.0
  {
  }

  /** `shadow` is `text` at 10% opacity: same name, same colour. */
  lemma ShadowIsTranslucentText()
    ensures Shadow == WithOpacity(Text, 0.1)
    ensures Shadow.name == "TEXT" && Shadow.hex == 0x1B1818 && Shadow.opacity == 0.1
  {
  }

  /** Replacing the opacity does not change the hex string: `shadow` prints as "#1B1818". */
  lemma ShadowHexString()
    ensures HexString(Shadow) == HexString(Text) == "#1B1818"
  {
    TextDigits();
    assert Text.hex % 0x1_0000_0000 == 0x1B1818;
  }

  lemma TextDigits()
    ensures Hex.Format06X(0x1B1818) == "1B1818"
  {
    Hex.ToHexStep(0x1B, 0x1, 0xB);
    Hex.ToHexStep(0x1B1, 0x1B, 0x1);
    Hex.ToHexStep(0x1B18, 0x1B1, 0x8);
    Hex.ToHexStep(0x1B181, 0x1B18, 0x1);
    Hex.ToHexStep(0x1B1818, 0x1B181, 0x8);
    assert Hex.ToHex(0x1B1818) == "1B1818";
  }

  /** `none` is fully transparent black. */
  lemma NoneIsTransparentBlack()
    ensures None.hex == 0 && None.opacity == 0.0
  {
  }

  /** Names are pairwise distinct, except that `shadow` shares "TEXT" with `text`. */
  lemma NamesDistinctExceptShadow()
    ensures forall i, j :: 0 <= i < j < |Entries| && Entries[i].name == Entries[j].name ==>
      Entries[i] == Text && Entries[j] == Shadow
  {
  }
}
