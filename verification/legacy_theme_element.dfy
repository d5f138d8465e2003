/** The thirteen colour roles of the older `ThemeElement`, kept beside the `Theme` that uses them. */
module LegacyThemeElements {
  import opened Wrappers

  datatype ThemeElement =
    | Background
    | Text
    | Headline
    | SecondaryText
    | Accent
    | Separator
    | Shadow
    | Error
    | Warning
    | SecondaryBackground
    | HighlightedBackground
    | UiElement
    | Clear

  /** The string raw value: each case's own identifier. */
  function RawValue(e: ThemeElement): string {
    match e
    case Background => "background"
    case Text => "text"
    case Headline => "headline"
    case SecondaryText => "secondaryText"
    case Accent => "accent"
    case Separator => "separator"
    case Shadow => "shadow"
    case Error => "error"
    case Warning => "warning"
    case SecondaryBackground => "secondaryBackground"
    case HighlightedBackground => "highlightedBackground"
    case UiElement => "uiElement"
    case Clear => "clear"
  }

  /** `init?(rawValue:)`: the case whose raw value is `s`, if any. */
  function FromRawValue(s: string): (r: Option<ThemeElement>)
    ensures r.Some? ==> RawValue(r.value) == s
  {
    if s == "background" then Some(Background)
    else if s == "text" then Some(Text)
    else if s == "headline" then Some(Headline)
    else if s == "secondaryText" then Some(SecondaryText)
    else if s == "accent" then Some(Accent)
    else if s == "separator" then Some(Separator)
    else if s == "shadow" then Some(Shadow)
    else if s == "error" then Some(Error)
    else if s == "warning" then Some(Warning)
    else if s == "secondaryBackground" then Some(SecondaryBackground)
    else if s == "highlightedBackground" then Some(HighlightedBackground)
    else if s == "uiElement" then Some(UiElement)
    else if s == "clear" then Some(Clear)
    else None
  }

  /** `id` is the raw value, and reads back as its own case. */
  function Id(e: ThemeElement): (id: string)
    ensures FromRawValue(id) == Some(e)
  {
    assert FromRawValue(RawValue(e)) == Some(e);
    RawValue(e)
  }

  /** Distinct cases have distinct ids. */
  lemma IdInjective(a: ThemeElement, b: ThemeElement)
    ensures Id(a) == Id(b) <==> a == b
  {
  }

  /** `allCases`, in declaration order. */
  const AllCases: seq<ThemeElement> := [
    Background, Text, Headline, SecondaryText, Accent, Separator, Shadow,
    Error, Warning, SecondaryBackground, HighlightedBackground, UiElement, Clear
  ]

  /** `allCases` lists each of the thirteen cases exactly once. */
  lemma AllCasesExactlyOnce()
    ensures |AllCases| == 13
    ensures forall e: ThemeElement :: e in AllCases
    ensures forall i, j :: 0 <= i < j < |AllCases| ==> AllCases[i] != AllCases[j]
  {
    forall e: ThemeElement ensures e in AllCases {
      match e
      case Background => assert AllCases[0] == e;
      case Text => assert AllCases[1] == e;
      case Headline => assert AllCases[2] == e;
      case SecondaryText => assert AllCases[3] == e;
      case Accent => assert AllCases[4] == e;
      case Separator => assert AllCases[5] == e;
      case Shadow => assert AllCases[6] == e;
      case Error => assert AllCases[7] == e;
      case Warning => assert AllCases[8] == e;
      case SecondaryBackground => assert AllCases[9] == e;
      case HighlightedBackground => assert AllCases[10] == e;
      case UiElement => assert AllCases[11] == e;
      case Clear => assert AllCases[12] == e;
    }
  }
}
