/**
 * The earlier copy of the legacy colour model (`TRSColors.swift` of the
 * `trs-system` tree). Its colour type, palette, swatches and dynamic roles
 * are the same definitions as `LegacyColors`; only the scheme detection
 * differs: the application object is used without a nil check.
 */
module EarlyColors {
  import opened Wrappers
  import L = LegacyColors

  /**
   * `getCurrentColorScheme()`. `NSApp` is implicitly unwrapped here, so
   * without an application object the call traps (`None`).
   */
  function CurrentColorScheme(appearance: Option<string>): (s: Option<L.ColorScheme>)
    ensures s.Some? <==> appearance.Some?
    ensures s == Some(L.Dark) <==> appearance == Some(L.DarkAquaName) || appearance == Some(L.VibrantDarkName)
  {
    match appearance
    case None => None
    case Some(name) => Some(if name == L.DarkAquaName || name == L.VibrantDarkName then L.Dark else L.Light)
  }

  /**
   * With an application object the two generations decide alike; without
   * one the earlier copy traps where the later one answers light.
   */
  lemma AgreesWithLaterDetection(appearance: Option<string>)
    ensures appearance.Some? ==> CurrentColorScheme(appearance) == Some(L.CurrentColorScheme(appearance))
    ensures appearance.None? ==> CurrentColorScheme(appearance).None? && L.CurrentColorScheme(appearance) == L.Light
  {
  }

  /** `init()` and the appearance notification: publish the detected scheme, or trap. */
  function Refresh(appearance: Option<string>): (m: Option<L.ColorManager>)
    ensures m.Some? <==> appearance.Some?
    ensures m.Some? ==> m.value == L.Refresh(appearance)
  {
    match CurrentColorScheme(appearance)
    case None => None
    case Some(s) => Some(L.ColorManager(s))
  }

  /**
   * Ids and descriptions embed the scheme: the same role gets different
   * ids and different descriptions under the two schemes.
   */
  lemma SchemeSeparatesIds(d: L.DynamicTRSColor)
    ensures L.DynamicId(d, L.Light) != L.DynamicId(d, L.Dark)
    ensures L.Description(d, L.Light) != L.Description(d, L.Dark)
  {
    L.DynamicIdInjective(d, L.Light, d, L.Dark);
    var light, dark := L.Description(d, L.Light), L.Description(d, L.Dark);
    assert light[|light| - 2] == 't' && dark[|dark| - 2] == 'k';
  }
}
