# TRS design system — a Dafny model of its deterministic core

The TRS design system is a SwiftUI/AppKit component library. This project models
the logic inside it that does not depend on the host toolkit, and proves
properties of that model:

- the packed-`0xRRGGBB` colour value;
- the palettes;
- the themes and theme managers;
- the scheme-dependent legacy palette;
- the size, padding and font scales;
- the list-selection state machine;
- the toast queue;
- the sidebar width clamp;
- the line-graph drawing.

The repository holds three successive generations of these definitions. They
disagree with each other, so each generation has its own modules:

| module | models |
|---|---|
| `Colors`, `BaseColors`, `ThemeElements`, `Themes`, `ThemeManagers` | `TRSColor`, the palette, the 16-role `ThemeElement`, `Theme` and `ThemeManager` of the current generation (`sources/TRSSystem/styles/colors/TRSColor.swift`, `sources/TRSSystem/styles/theme/`, `sources/trs_system/styles/theme/`) |
| `LegacyThemeElements`, `LegacyThemes`, `LegacyThemeManagers` | the older 13-role `ThemeElement`, `Theme` and `ThemeManager` (`sources/TRSSystem/styles/colors/`) |
| `LegacyColors` | the legacy `TRSColor` with RAL codes, `TRSColors`, `DynamicTRSColor` and the colour manager (`sources/TRSSystem/styles/colors/TRSColors.swift`) |
| `EarlyColors` | the earlier copy of that file (`sources/trs-system/styles/colors/TRSColors.swift`) |
| `Sizes`, `SendableSizes`, `Padding` | `TRSSizes` (two copies) and `TRSPadding` |
| `Fonts`, `EarlyFonts` | the two `TRSFonts.swift` files |
| `ListSelection` | `TRSList` selection |
| `Toasts`, `EarlyToasts` | the two `ToastManager`s |
| `Sidebar` | `SidebarStack`'s resizer |
| `LineGraph` | `CALineGraphLayer.draw` |

Helper modules:
- `Wrappers` (`Option`);
- `Arith` (small arithmetic facts);
- `Hex` (the `%06X` formatter and a hex parser);
- `Scale` (the shared constants).

`EarlyColors` reuses `LegacyColors`' definitions. Apart from layout and `return` keywords, the two files differ only in how they detect the colour scheme.

Modelling choices:
- `BASE_SIZE`, `GOLDEN_RATIO` and `BASE_OPACITY` are declared outside the modelled files. Here they are constants without a value, so every property holds whatever they are.
- `pow` is a function constant. The only thing known about it is that `pow(r, 0) == 1`.
- `NSColor.blended(withFraction:of:)` is also a function constant. For components and a fraction in [0, 1], it answers a colour whose components are in [0, 1].
- `Double`, `CGFloat` and the line graph's `Float` data are modelled as `real`.
- `UInt` is the naturals below 2^64. Converting a `Double` to `UInt` truncates and traps outside (-1, 2^64).
- `String(format: "%06X", hex)` formats the low 32 bits of `hex`, because `%X` reads a C `unsigned int`.
- Host inputs become parameters: the colour scheme, the appearance name, the shift key, whether a font exists, the loaded font's point size, the view bounds and the drag translation.
- Swift traps (`fatalError`, a force unwrap, an overflowing `UInt` or `UInt64`) are modelled as `None`. Floating-point infinities and NaN are not modelled, so neither are the traps they cause.

Two behaviours of `blend` are easy to misread:
- Blending a colour with itself keeps its hex and opacity, but the result is a different colour: its name becomes `"A x A"` and its RAL code `"n/a"` (`Colors.BlendWithSelf`). The same renaming applies at ratio 0 and 1, so there only the hex and opacity are the operand's (`Colors.BlendBoundaries`).
- The current `blend` clamps the ratio to [0, 1]; the legacy one passes the fraction straight to the host's blend.

## Model

| member | source | states |
|---|---|---|
| Colors.Pack | sources/TRSSystem/styles/colors/TRSColor.swift:38 | packing three bytes gives a value below 2^24 from which shift-and-mask decoding recovers each byte |
| Colors.PackUnpack | sources/TRSSystem/styles/colors/TRSColor.swift:16-18 | the three decoded bytes of any `hex` repack to `hex` modulo 2^24: decoding sees exactly the low 24 bits |
| Colors.Components | sources/TRSSystem/styles/colors/TRSColor.swift:16-19 | the decoded red, green and blue lie in [0, 1] for every `hex`, alpha is the opacity, and each channel times 255 recovers its byte |
| Colors.ComponentsRoundTrip | sources/TRSSystem/styles/colors/TRSColor.swift:16-18 | the decoded components re-encode to `hex` modulo 2^24 |
| Colors.WithOpacity | sources/TRSSystem/styles/colors/TRSColor.swift:23-25 | `withOpacity` keeps name, RAL code and hex and sets only the opacity |
| Colors.WithOpacityLastWins | sources/TRSSystem/styles/colors/TRSColor.swift:23-25 | of two opacity changes only the last counts; re-applying a colour's own opacity gives the colour back |
| Colors.Clamp | sources/TRSSystem/styles/colors/TRSColor.swift:29 | the clamped ratio lies in [0, 1], equals the ratio inside that range, and is 0 below it and 1 above it |
| Colors.LerpBetween | sources/TRSSystem/styles/colors/TRSColor.swift:32-39 | interpolating with a weight in [0, 1] lands between the two endpoints |
| Colors.BlendChannel | sources/TRSSystem/styles/colors/TRSColor.swift:32-38 | a blended channel is the linear interpolation of the two input channels truncated to an integer: a byte lying between them, at most the interpolation and less than one below it |
| Colors.Blend | sources/TRSSystem/styles/colors/TRSColor.swift:28-43 | the ratio defaults to one half; the blend is named "A x B" with RAL code "n/a", its hex fits in 24 bits even for wider inputs, and its opacity lies between the two opacities |
| Colors.BlendClampsRatio | sources/TRSSystem/styles/colors/TRSColor.swift:29-30 | any ratio at or below 0 blends exactly like 0, any ratio at or above 1 exactly like 1 |
| Colors.BlendChannelsTruncateLerp | sources/TRSSystem/styles/colors/TRSColor.swift:29-38 | each channel of the blended hex is the interpolation of the inputs' channels at the clamped ratio, truncated to an integer |
| Colors.BlendChannelsBetween | sources/TRSSystem/styles/colors/TRSColor.swift:32-38 | each channel of the blended hex lies between the corresponding channels of the two inputs |
| Colors.BlendBoundaries | sources/TRSSystem/styles/colors/TRSColor.swift:29-39 | at ratio 0 the blend has the receiver's 24-bit hex and opacity, at ratio 1 the argument's |
| Colors.BlendWithSelf | sources/TRSSystem/styles/colors/TRSColor.swift:28-43 | blending a 24-bit colour with itself keeps its hex and opacity but never returns the same colour, because the name changes |
| Colors.HexString | sources/TRSSystem/styles/colors/TRSColor.swift:46-48 | `hexString` is "#" followed by at least six upper-case hex digits |
| Colors.HexStringRoundTrip | sources/TRSSystem/styles/colors/TRSColor.swift:46-48 | for a 24-bit hex the string is exactly seven characters and its digits parse back to the hex |
| Hex.FormatParseRoundTrip | sources/TRSSystem/styles/colors/TRSColor.swift:47 | `%06X` output parses back to the printed number, padding included |
| Hex.SixDigits | sources/TRSSystem/styles/colors/TRSColor.swift:47 | `%06X` of a number below 2^24 is exactly six characters |
| BaseColors.EntriesWellFormed | sources/TRSSystem/styles/theme/TRSBaseColorDefinitions.swift:4-14 | the eleven palette entries carry the default RAL code "n/a" and fit in 24 bits; all are opaque except `shadow` and `none` |
| BaseColors.ShadowIsTranslucentText | sources/TRSSystem/styles/theme/TRSBaseColorDefinitions.swift:8-10 | `shadow` is `text` at opacity 0.1: named "TEXT", hex 0x1B1818 |
| BaseColors.ShadowHexString | sources/TRSSystem/styles/theme/TRSBaseColorDefinitions.swift:10 | `shadow` and `text` print as the same "#1B1818" |
| BaseColors.NoneIsTransparentBlack | sources/TRSSystem/styles/theme/TRSBaseColorDefinitions.swift:14 | `none` is hex 0 at opacity 0 |
| BaseColors.NamesDistinctExceptShadow | sources/TRSSystem/styles/theme/TRSBaseColorDefinitions.swift:4-14 | palette names are pairwise distinct except that `shadow` shares "TEXT" with `text` |
| ThemeElements.FromRawValue | sources/trs_system/styles/theme/ThemeElement.swift:3-19 | a raw value that parses names the case whose raw value it is |
| ThemeElements.Id | sources/trs_system/styles/theme/ThemeElement.swift:21 | `id` is the raw value: it parses back to its case |
| ThemeElements.RawValueRoundTrip | sources/trs_system/styles/theme/ThemeElement.swift:4-19 | every case's raw value parses back to that case |
| ThemeElements.IdInjective | sources/trs_system/styles/theme/ThemeElement.swift:3-21 | two cases have equal ids exactly when they are the same case |
| ThemeElements.AllCasesExactlyOnce | sources/trs_system/styles/theme/ThemeElement.swift:3 | `allCases` has 16 entries and lists every case exactly once |
| Themes.ColorFor | sources/TRSSystem/styles/theme/Theme.swift:12-14 | the lookup returns the mapped colour when the role has an entry and white otherwise; it never fails |
| Themes.BuiltInThemesComplete | sources/TRSSystem/styles/theme/Theme.swift:20-72 | "Light" and "Dark" map all 16 roles, so lookups on them never fall back |
| Themes.BuiltInLookup | sources/TRSSystem/styles/theme/Theme.swift:20-72 | a lookup on a built-in theme returns that theme's own table entry |
| Themes.StatusColorsAgree | sources/TRSSystem/styles/theme/Theme.swift:39-68 | both built-in tables give error, warning and success as red, yellow and green at opacity 0.8 |
| Themes.SharedRoles | sources/TRSSystem/styles/theme/Theme.swift:34-71 | the two built-in tables agree on accent, secondary text and clear |
| Themes.SidebarIsTranslucent | sources/TRSSystem/styles/theme/Theme.swift:28-56 | the sidebar background is a blend made translucent, opacity exactly 0.3 in both themes, named after its two colours |
| ThemeManagers.InitWith | sources/trs_system/styles/theme/ThemeManager.swift:9-11 | `init(theme:)` makes the given theme current, so every lookup answers as that theme does |
| ThemeManagers.SystemScheme | sources/trs_system/styles/theme/ThemeManager.swift:14-25 | on macOS the detected scheme is dark exactly when the appearance API is available and the appearance best matches dark aqua |
| ThemeManagers.InitFromSystem | sources/trs_system/styles/theme/ThemeManager.swift:35 | the parameterless init picks the Dark theme exactly for the dark scheme and Light otherwise |
| ThemeManagers.ColorFor | sources/trs_system/styles/theme/ThemeManager.swift:39-41 | the manager's lookup is the current theme's lookup, and the built-in table entry when a built-in theme is current |
| ThemeManagers.SwitchTheme | sources/trs_system/styles/theme/ThemeManager.swift:44-49 | the new theme becomes current whatever was current before, so every lookup answers as it does |
| ThemeManagers.ToggleTheme | sources/trs_system/styles/theme/ThemeManager.swift:52-56 | toggling yields a built-in theme, Dark exactly when the current name is "Light" |
| ThemeManagers.ToggleRoundTrip | sources/trs_system/styles/theme/ThemeManager.swift:52-56 | two toggles from Light return to Light; any theme not named "Light" toggles to Light |
| ThemeManagers.SwitchThenToggle | sources/trs_system/styles/theme/ThemeManager.swift:44-56 | a switch forgets the previous theme, and the next toggle goes to Dark exactly when the theme switched to is named "Light" |
| ThemeManagers.UpdateForSystemAppearance | sources/trs_system/styles/theme/ThemeManager.swift:59-72 | afterwards the current name matches the scheme; an already matching theme stays, anything else becomes the built-in theme |
| ThemeManagers.UpdateIdempotent | sources/trs_system/styles/theme/ThemeManager.swift:59-72 | applying the same system appearance twice is applying it once |
| ThemeManagers.UpdateKeepsNamesake | sources/trs_system/styles/theme/ThemeManager.swift:62-63 | a custom theme that is merely named "Light" survives a light update: the check is by name only |
| LegacyThemeElements.FromRawValue | sources/TRSSystem/styles/colors/ThemeElement.swift:3-16 | a raw value that parses names the case whose raw value it is |
| LegacyThemeElements.Id | sources/TRSSystem/styles/colors/ThemeElement.swift:18 | `id` is the raw value: it parses back to its case |
| LegacyThemeElements.IdInjective | sources/TRSSystem/styles/colors/ThemeElement.swift:3-18 | two of the 13 cases have equal ids exactly when they are the same case |
| LegacyThemeElements.AllCasesExactlyOnce | sources/TRSSystem/styles/colors/ThemeElement.swift:3 | `allCases` has 13 entries and lists every case exactly once |
| LegacyThemes.ColorFor | sources/TRSSystem/styles/colors/Theme.swift:12-14 | the mapped colour, or white for a role without an entry |
| LegacyThemes.BuiltInThemesComplete | sources/TRSSystem/styles/colors/Theme.swift:20-50 | both built-in tables map all 13 roles and are named "Light" and "Dark" |
| LegacyThemes.BuiltInLookup | sources/TRSSystem/styles/colors/Theme.swift:20-50 | a lookup on a built-in theme returns its own table entry |
| LegacyThemes.StatusOpacities | sources/TRSSystem/styles/colors/Theme.swift:27-44 | error and warning keep the red and yellow hex, at opacity 0.8 in light and 0.1 in dark |
| LegacyThemes.ShadowEntries | sources/TRSSystem/styles/colors/Theme.swift:26-42 | light shadow is the palette shadow (text at 0.1), dark shadow is the opaque primary |
| LegacyThemes.SharedRoles | sources/TRSSystem/styles/colors/Theme.swift:32-49 | clear is `none` and secondary text is `secondary` in both themes |
| LegacyThemeManagers.Init | sources/TRSSystem/styles/colors/ThemeManager.swift:8-10 | init makes the given theme current, so every lookup answers as that theme does |
| LegacyThemeManagers.DefaultIsLight | sources/TRSSystem/styles/colors/ThemeManager.swift:8 | the default init makes Light current, so every lookup returns the light table entry |
| LegacyThemeManagers.ColorFor | sources/TRSSystem/styles/colors/ThemeManager.swift:13-15 | the manager's lookup is the current theme's, white for a missing role |
| LegacyThemeManagers.SwitchTheme | sources/TRSSystem/styles/colors/ThemeManager.swift:18-22 | the new theme becomes current whatever was current before, so every lookup answers as it does |
| LegacyThemeManagers.ToggleTheme | sources/TRSSystem/styles/colors/ThemeManager.swift:25-29 | toggling yields Dark exactly when the current name is "Light", and Light otherwise |
| LegacyThemeManagers.ToggleRoundTrip | sources/TRSSystem/styles/colors/ThemeManager.swift:25-29 | two toggles from Light return to Light |
| LegacyThemeManagers.SwitchThenToggle | sources/TRSSystem/styles/colors/ThemeManager.swift:18-29 | a switch forgets the previous theme, and the next toggle goes to Dark exactly when the theme switched to is named "Light" |
| LegacyThemeManagers.UpdateForSystemAppearance | sources/TRSSystem/styles/colors/ThemeManager.swift:32-45 | afterwards the name matches the scheme; a matching theme is left alone |
| LegacyThemeManagers.UpdateIdempotent | sources/TRSSystem/styles/colors/ThemeManager.swift:32-45 | the same system appearance applied twice is applied once |
| LegacyColors.Rgba | sources/TRSSystem/styles/colors/TRSColors.swift:64-68 | the stored `rgba` channels lie in [0, 1] and recover the hex bytes; alpha is the opacity |
| LegacyColors.EqualityIgnoresDerivedFields | sources/TRSSystem/styles/colors/TRSColors.swift:76-81 | `==` on name, RAL code, hex and opacity is full equality, and equal colours agree on `rgba` and `hexString` |
| LegacyColors.Opacity | sources/TRSSystem/styles/colors/TRSColors.swift:83-85 | `opacity(x)` keeps name, RAL code and hex and sets the opacity |
| LegacyColors.HexString | sources/TRSSystem/styles/colors/TRSColors.swift:72-74 | "#" followed by at least six upper-case hex digits |
| LegacyColors.HexStringRoundTrip | sources/TRSSystem/styles/colors/TRSColors.swift:72-74 | for a 24-bit hex the string has seven characters whose digits parse back to the hex |
| LegacyColors.ToUInt | sources/TRSSystem/styles/colors/TRSColors.swift:101 | `UInt(x)` succeeds exactly for x in (-1, 2^64) and truncates toward zero |
| LegacyColors.AddChecked | sources/TRSSystem/styles/colors/TRSColors.swift:101 | `UInt` addition succeeds exactly below 2^64 |
| LegacyColors.Blend | sources/TRSSystem/styles/colors/TRSColors.swift:87-105 | a blend that does not trap is named "A x B" with RAL code "n/a" |
| LegacyColors.BlendDefined | sources/TRSSystem/styles/colors/TRSColors.swift:87-105 | for opacities and a ratio in [0, 1] the blend does not trap, fits in 24 bits and has an opacity in [0, 1] |
| LegacyColors.BlendWithSwatch | sources/TRSSystem/styles/colors/TRSColors.swift:107-109 | blending with a swatch, ratio 0.5 by default, is blending with the swatch's colour: it traps exactly when that blend traps and is named "A x swatch" |
| LegacyColors.BlendWithSwatchDefined | sources/TRSSystem/styles/colors/TRSColors.swift:87-109 | for an opacity and a ratio in [0, 1], blending with any swatch does not trap and gives a 24-bit colour with opacity in [0, 1] |
| LegacyColors.SwatchId | sources/TRSSystem/styles/colors/TRSColors.swift:165-167 | a swatch's id is its colour's name |
| LegacyColors.SwatchIds | sources/TRSSystem/styles/colors/TRSColors.swift:128-167 | `shadow` and `text` share the id "TEXT"; every other pair of swatches has distinct ids |
| LegacyColors.SwatchesWellFormed | sources/TRSSystem/styles/colors/TRSColors.swift:113-129 | every swatch fits in 24 bits and has an opacity in [0, 1] |
| LegacyColors.FromRawValue | sources/TRSSystem/styles/colors/TRSColors.swift:177-193 | a raw value that parses names the role whose raw value it is |
| LegacyColors.RawValueRoundTrip | sources/TRSSystem/styles/colors/TRSColors.swift:177-193 | every role's raw value parses back to that role |
| LegacyColors.DynamicColor | sources/TRSSystem/styles/colors/TRSColors.swift:231-237 | the dark table's entry under the dark scheme, the light table's otherwise |
| LegacyColors.SchemeIndependentRoles | sources/TRSSystem/styles/colors/TRSColors.swift:199-227 | secondary text is `secondary` and clear is `none` under either scheme |
| LegacyColors.DynamicId | sources/TRSSystem/styles/colors/TRSColors.swift:251-253 | the id is the raw value followed by the scheme label |
| LegacyColors.Description | sources/TRSSystem/styles/colors/TRSColors.swift:255-257 | the description starts with the raw value, then " (", the scheme label and a closing parenthesis |
| LegacyColors.DescriptionInjective | sources/TRSSystem/styles/colors/TRSColors.swift:243-257 | two descriptions are equal exactly when role and scheme are both equal |
| LegacyColors.DynamicIdInjective | sources/TRSSystem/styles/colors/TRSColors.swift:243-253 | two ids are equal exactly when role and scheme are both equal |
| LegacyColors.CurrentColorScheme | sources/TRSSystem/styles/colors/TRSColors.swift:30-43 | the scheme is dark exactly when the appearance is dark aqua or vibrant dark; with no application object it is light |
| LegacyColors.Refresh | sources/TRSSystem/styles/colors/TRSColors.swift:16-28 | init and the appearance notification publish the detected scheme |
| EarlyColors.CurrentColorScheme | sources/trs-system/styles/colors/TRSColors.swift:30-39 | with an application object, dark exactly for dark aqua or vibrant dark; without one the call traps |
| EarlyColors.AgreesWithLaterDetection | sources/trs-system/styles/colors/TRSColors.swift:30-39 | the earlier detection agrees with the later one whenever it does not trap |
| EarlyColors.Refresh | sources/trs-system/styles/colors/TRSColors.swift:15-28 | the published scheme is the later generation's whenever an application object exists |
| EarlyColors.SchemeSeparatesIds | sources/trs-system/styles/colors/TRSColors.swift:240-254 | the same role has different ids and descriptions under the two schemes |
| Sizes.RawValue | sources/TRSSystem/Sizes.swift:16-26 | named levels are whole numbers in [-2, 4] other than 2; a custom level is returned unchanged |
| Sizes.Value | sources/TRSSystem/Sizes.swift:12-14 | at level 0 the value is the base size |
| Sizes.NamedLevels | sources/TRSSystem/Sizes.swift:18-23 | the named levels are -2, -1, 0, 1, 3, 4 and rise strictly from tiny to gigantic |
| Sizes.ValueDependsOnlyOnLevel | sources/TRSSystem/Sizes.swift:12-14 | sizes with the same level have the same value; a custom size at a named level equals that size |
| Sizes.MediumIsBase | sources/TRSSystem/Sizes.swift:12-20 | `medium.value` is the base size |
| SendableSizes.RawValue | sources/trs_system/Sizes.swift:16-26 | named levels are whole numbers in [-2, 4] other than 2; a custom level is returned unchanged |
| SendableSizes.Value | sources/trs_system/Sizes.swift:12-14 | at level 0 the value is the base size |
| SendableSizes.AgreesWithTRSSystem | sources/trs_system/Sizes.swift:3-26 | the Sendable copy gives every case the same level and value as the first copy |
| SendableSizes.NamedLevelsIncrease | sources/trs_system/Sizes.swift:18-23 | the named levels rise strictly in declaration order, skipping 2 |
| Padding.RawValue | sources/trs-system/Padding.swift:3-8 | raw values lie in -2 through 2 |
| Padding.FromRawValue | sources/trs-system/Padding.swift:3-8 | `init(rawValue:)` succeeds exactly for -2 through 2, with the case of that raw value |
| Padding.RawValueRoundTrip | sources/trs-system/Padding.swift:3-8 | every case's raw value parses back to that case |
| Padding.RawValuesConsecutive | sources/trs-system/Padding.swift:4-8 | the raw values are consecutive and rise in declaration order |
| Padding.Value | sources/trs-system/Padding.swift:10-12 | `medium` has the base size as its value |
| Padding.ValueOfLevel | sources/trs-system/Padding.swift:10-12 | every level in -2 through 2 names a padding whose value is that level of the scale |
| Fonts.BaseFontSize | sources/TRSSystem/styles/fonts/TRSFonts.swift:10-21 | the monospaced family is two points below the base size, every other family at it |
| Fonts.Spec | sources/TRSSystem/styles/fonts/TRSFonts.swift:57-62 | a spec stores its arguments; the colour defaults to the text role |
| Fonts.AllFontsTotal | sources/TRSSystem/styles/fonts/TRSFonts.swift:41-48 | every one of the six fonts has an entry; body and mono keep the default text colour, caption is secondary text, the bold ones are headline-coloured |
| Fonts.FontSize | sources/TRSSystem/styles/fonts/TRSFonts.swift:140-142 | at level 0 the font size is the family's base size |
| Fonts.Modifier | sources/TRSSystem/styles/fonts/TRSFonts.swift:79-118 | traps exactly for a missing custom family; line spacing is the desired line height less the point size; with padding top is twice bottom and they sum to the line spacing, without both are 0; an explicit colour overrides the spec's |
| Fonts.FontModifier | sources/TRSSystem/styles/fonts/TRSFonts.swift:146-154 | the table lookup never fails, so only a missing monospaced family traps, and body, headline and title never do |
| Fonts.BodyMetrics | sources/TRSSystem/styles/fonts/TRSFonts.swift:43 | the body font never traps, sits at the base size and takes the text role's colour |
| EarlyFonts.BaseFontSize | Sources/trs-system/TRSFonts.swift:16-25 | monospaced two points below the base size, the other families at it |
| EarlyFonts.Spec | Sources/trs-system/TRSFonts.swift:59-64 | a spec stores its arguments; the colour defaults to the text role |
| EarlyFonts.AllFontsTotal | Sources/trs-system/TRSFonts.swift:44-50 | every one of the five fonts has an entry; caption overrides the default colour with secondary text |
| EarlyFonts.FontSize | Sources/trs-system/TRSFonts.swift:124-126 | at level 0 the font size is the family's base size |
| EarlyFonts.Modifier | Sources/trs-system/TRSFonts.swift:79-101 | traps exactly when the family is missing; with padding top is twice bottom and they sum to the line spacing, without both keep their default 0 |
| EarlyFonts.FontModifier | Sources/trs-system/TRSFonts.swift:130-138 | the lookup never fails; only a missing family traps |
| ListSelection.FirstIndex | sources/trs-system/components/TRSList.swift:89-90 | the first position holding the id, or none exactly when the id is absent |
| ListSelection.IdsBetween | sources/trs-system/components/TRSList.swift:93-94 | the ids at the positions between two indices, both ends included |
| ListSelection.HandleSelection | sources/trs-system/components/TRSList.swift:79-104 | single mode toggles the tapped id and keeps the anchor; a plain tap selects only the item; shift without an anchor adds it; shift with an anchor adds a range and removes nothing; an anchor or item missing from the data changes nothing |
| ListSelection.ShiftRange | sources/trs-system/components/TRSList.swift:88-95 | an anchored shift-tap adds exactly the ids between the first occurrences of anchor and item, in either order, and moves the anchor to the item |
| ListSelection.ShiftRangeSymmetric | sources/trs-system/components/TRSList.swift:88-95 | for two ids present in the data, a shift-tap from the same multiple selection selects the same set whichever of the two is the anchor and whichever is tapped |
| ListSelection.SingleTapTwice | sources/trs-system/components/TRSList.swift:81-86 | two taps on the same item in single mode leave it selected exactly when it was, and restore an empty or same-item selection |
| ListSelection.SelectAll | sources/trs-system/components/TRSList.swift:106-113 | select-all selects exactly the data's ids in multiple mode and changes nothing in single mode |
| ListSelection.Clear | sources/trs-system/components/TRSList.swift:115-122 | after clearing no item is selected; mode and anchor are kept |
| ListSelection.IsSelected | sources/trs-system/components/TRSList.swift:124-131 | equality with the selected id in single mode, membership in multiple mode |
| ListSelection.SelectAllSelectsData | sources/trs-system/components/TRSList.swift:109 | after select-all an item is selected exactly when it is in the data |
| ListSelection.PlainTapSelectsOnlyItem | sources/trs-system/components/TRSList.swift:96-100 | after a tap without shift in multiple mode only the tapped item is selected |
| Toasts.MakeToast | sources/trs_system/ToastManager.swift:10-14 | a toast stores its arguments; the duration defaults to 2 seconds |
| Toasts.SameIsEquivalence | sources/trs_system/ToastManager.swift:16-18 | the toast `==` obeys the `Equatable` laws (reflexive, symmetric, transitive) and ignores message and duration |
| Toasts.HideRespectsSame | sources/trs_system/ToastManager.swift:45-53 | hiding two equal toasts has the same effect on the manager |
| Toasts.RemoveId | sources/trs_system/ToastManager.swift:51 | the survivors are exactly the toasts with another id |
| Toasts.RemoveIdConcat | sources/trs_system/ToastManager.swift:51 | removal works piecewise over a concatenation, so the survivors keep their order |
| Toasts.RemoveIdIdempotent | sources/trs_system/ToastManager.swift:51 | removing an id twice is removing it once |
| Toasts.Show | sources/trs_system/ToastManager.swift:29-43 | the toast is appended after the earlier ones; the dictionary then holds exactly one fresh, pending task for its id, any earlier one is cancelled and otherwise unchanged, every other task and every other id are untouched, and exactly one task is added |
| Toasts.Hide | sources/trs_system/ToastManager.swift:45-53 | every toast with the id is removed, the id's task is cancelled and forgotten, and every other task and dictionary entry is untouched |
| Toasts.HideIdempotent | sources/trs_system/ToastManager.swift:45-53 | hiding twice is hiding once; hiding an absent id leaves the list unchanged |
| Toasts.ShowThenHide | sources/trs_system/ToastManager.swift:29-53 | showing a toast with a new id and hiding it restores the list and the dictionary |
| Toasts.SleepNanoseconds | sources/trs_system/ToastManager.swift:39 | the duration in nanoseconds, truncated, converts exactly when it lies strictly between -1 and 2^64 and traps otherwise |
| Toasts.SleepNanosecondsExamples | sources/trs_system/ToastManager.swift:39 | the default two seconds are 2,000,000,000 ns; a negative second or 2e10 seconds traps |
| Toasts.RunTaskAsWritten | sources/trs_system/ToastManager.swift:38-41 | a pending task traps exactly when its duration does not convert to nanoseconds; otherwise when its sleep ends even a cancelled task hides its toast and forgets its id's entry, the task becomes finished, the id's current task is cancelled, and every other task is untouched |
| Toasts.RunTask | sources/trs_system/ToastManager.swift:38-41 | the same nanosecond trap; when its sleep ends a pending task hides its toast and cancels its id's current task, a cancelled one changes nothing but its own state; the task becomes finished and every other task is untouched |
| Toasts.ReshowHidesEarly | sources/trs_system/ToastManager.swift:35-40 | showing a toast twice lets the cancelled first task remove it and drop the second task, whenever its duration converts |
| Toasts.ReshowStaysVisible | sources/trs_system/ToastManager.swift:35-42 | with cancellation honoured, the re-shown toast stays and the second task is in charge, whenever its duration converts |
| Toasts.CancelledTaskIsInert | sources/trs_system/ToastManager.swift:35-48 | a cancelled task never changes the list or the dictionary |
| Toasts.Teardown | sources/trs_system/ToastManager.swift:55-60 | teardown cancels every task still in the dictionary and no other |
| EarlyToasts.Show | sources/trs-system/ToastManager.swift:16-24 | the toast is appended and exactly one hide of it is scheduled |
| EarlyToasts.Hide | sources/trs-system/ToastManager.swift:26-30 | the survivors are exactly the toasts with another id, in their original order; the schedule is untouched |
| EarlyToasts.Fire | sources/trs-system/ToastManager.swift:21-23 | the hide that runs leaves the schedule, the others keep their order, and its toast's id is removed from the list, survivors in order |
| EarlyToasts.HideIdempotent | sources/trs-system/ToastManager.swift:26-30 | hiding twice is hiding once |
| EarlyToasts.ManualThenScheduledHide | sources/trs-system/ToastManager.swift:21-30 | a manual hide followed by the toast's scheduled hide leaves the list as the manual hide did |
| EarlyToasts.ShowThenFire | sources/trs-system/ToastManager.swift:16-23 | a shown toast's own scheduled hide empties a list that held only it |
| Sidebar.NewWidth | sources/TRSSystem/components/SidebarStack.swift:56-57 | the new width lies in [100, 300]; it is the dragged width when that is in range, and 100 or 300 when it falls below or above |
| Sidebar.DragsKeepBounds | sources/TRSSystem/components/SidebarStack.swift:14-15 | from a width in bounds, any series of drags stays in bounds |
| Sidebar.ResizerOffset | sources/TRSSystem/components/SidebarStack.swift:49 | the spacer before the resizer is the width less 10, between 90 and 290 for widths in bounds |
| Sidebar.ResizerOffsetBound | sources/TRSSystem/components/SidebarStack.swift:9-15 | after any drags from the initial width the resizer offset is at least 90 |
| LineGraph.InsetBy | sources/trs-system/components/TRSLineGraph.swift:41-42 | the drawing rectangle is the bounds inset by the half line width on every side, or none when the bounds are too small |
| LineGraph.Minimum | sources/trs-system/components/TRSLineGraph.swift:34 | the smallest value is one of the values and at most each of them |
| LineGraph.Maximum | sources/trs-system/components/TRSLineGraph.swift:34 | the largest value is one of the values and at least each of them |
| LineGraph.FlatIffMinIsMax | sources/trs-system/components/TRSLineGraph.swift:34-37 | min equals max exactly when all values are equal |
| LineGraph.PointAt | sources/trs-system/components/TRSLineGraph.swift:45-46 | a point lies within the rectangle's height; the first is at the left edge and the last at the right; the minimum maps to the bottom edge and the maximum to the top |
| LineGraph.Points | sources/trs-system/components/TRSLineGraph.swift:44-48 | one point per value, in the order of the values |
| LineGraph.PointsInRect | sources/trs-system/components/TRSLineGraph.swift:44-48 | the points span the rectangle from its left to its right edge and stay within its height |
| LineGraph.PointsLeftToRight | sources/trs-system/components/TRSLineGraph.swift:45 | with width, the points' x strictly increases with the index |
| LineGraph.Smooth | sources/trs-system/components/TRSLineGraph.swift:50-61 | the path moves to the first point, then for each consecutive pair curves to their midpoint controlled by the first and to the second controlled by the midpoint: 2(n-1) curves ending at the last point |
| LineGraph.Draw | sources/trs-system/components/TRSLineGraph.swift:23-61 | nothing is drawn for fewer than two values, all-equal values or bounds too small; otherwise the path starts at the first value's point and, for each consecutive pair of values, curves to their points' midpoint and then to the second point, so it starts at the inset left edge and ends at the inset right edge |

## Left out

- Font and sound installation, snapshot tests, view modifiers, button styles, separators, the toast overlay, tap-to-copy and the Charts-based graphs: host I/O or SwiftUI wrappers with no logic of their own.
- Animation, `@Published` observation, notification-centre registration, logging and main-actor isolation: host plumbing. State changes are modelled as pure transitions.
- Timing: `Task.sleep`, `asyncAfter` and the toast durations. A task's wake-up and a scheduled hide's run are explicit transitions (`Toasts.RunTask`, `EarlyToasts.Fire`) that may happen at any point.
- The iOS branch of the current `ThemeManager.init()` and the `@unknown default` cases of the scheme switches: only the two macOS schemes exist in the model.
- `Color` and `NSFont` values: a resolved colour is the `TRSColor` it is built from; the loaded font is represented by its point size only; the alignment and `body(content:)` of the font modifier are view code.
- The toast icon image: a view value with no bearing on the queue.
- `LegacyColors.Blend`: floating-point rounding of the host's blend is not modelled. The model relies only on the host answering components in [0, 1] for inputs in [0, 1]; concrete blended hex values are not derived.
- `Colors.Blend`: `Double` is modelled as exact `real`, so the truncated channels can differ from IEEE results by one; exact-arithmetic properties such as blending with itself hold only in this idealisation.
- `Scale.ScaleValue`: `pow` is known only at exponent 0, so no value other than the base size (level 0) is derived.
- Sizes.Value: states only the level-0 value, because `pow` is known only at exponent 0.
- SendableSizes.Value: states only the level-0 value, for the same reason.
- Padding.Value: states only the value of `medium` (level 0), for the same reason.
- Fonts.FontSize: states only the level-0 size, for the same reason.
- EarlyFonts.FontSize: states only the level-0 size, for the same reason.
- `LineGraph.InsetBy`: when the inset would make the rectangle negative, CoreGraphics returns the null rectangle, whose infinite origin makes every point non-finite; the model draws nothing in that case instead of stroking non-finite points.
- `EarlyToasts`: the earlier `Toast` has no duration default and no custom `==`; it reuses the later toast datatype, whose extra members it does not call.
- Sidebar dragging state (`isDraggingSidebar`) and the cursor push/pop: view state only.
- Toasts.RunTask: a NaN duration, which also traps in the nanosecond conversion, is not modelled, because durations are exact `real`s.
- Toasts.RunTaskAsWritten: the same NaN trap is not modelled, for the same reason.
- LineGraph.PointAt: the data are `Float`, and `maxYValue - minYValue` overflows to infinity for data such as [-3e38, 3e38], after which every point lies at the bottom edge; the exact `real` model does not overflow, so its promise that the maximum maps to the top edge holds only for data whose range is finite in `Float`.

## Findings

| source | as written | input that shows it | evidently intended | confidence | as-written member | corrected member |
|---|---|---|---|---|---|---|
| sources/trs_system/ToastManager.swift:38-41 | the auto-hide task sleeps with `try?`, which discards the cancellation error, so a cancelled task wakes at once and still calls `hide` | `show(t)` twice: the first task is cancelled, wakes, removes `t` and forgets the second task, long before `t.duration` | cancelling a toast's task stops its hide, so a re-shown toast stays for its full duration | medium, not executed | Toasts.ReshowHidesEarly | Toasts.ReshowStaysVisible |
