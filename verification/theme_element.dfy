/** The sixteen semantic colour roles of the current generation (`ThemeElement`). */
module ThemeElements {
  import opened Wrappers

  datatype ThemeElement =
    | Background
    | SidebarBackground
    | ContentBackground
    | SecondaryContentBackground
    | HighlightedContentBackground
    | Text
    | Headline
    | SecondaryText
    | Accent
    | Separator
    | Success
    | Shadow
    | Error
    | Warning
    | UiElement
    | Clear

  /** The string raw value: each case's own identifier. */
  function RawValue(e: ThemeElement): string {
    match e
    case Background => "background"
    case SidebarBackground => "sidebarBackground"
    case ContentBackground => "contentBackground"
    case SecondaryContentBackground => "secondaryContentBackground"
    case HighlightedContentBackground => "highlightedContentBackground"
    case Text => "text"
    case Headline => "headline"
    case SecondaryText => "secondaryText"
    case Accent => "accent"
    case Separator => "separator"
    case Success => "success"
    case Shadow => "shadow"
    case Error => "error"
    case Warning => "warning"
    case UiElement => "uiElement"
    case Clear => "clear"
  }

  /** `init?(rawValue:)`: the case whose raw value is `s`, if any. */
  function FromRawValue(s: string): (r: Option<ThemeElement>)
    ensures r.Some? ==> RawValue(r.value) == s
  {
    if s == "background" then Some(Background)
    else if s == "sidebarBackground" then Some(SidebarBackground)
    else if s == "contentBackground" then Some(ContentBackground)
    else if s == "secondaryContentBackground" then Some(SecondaryContentBackground)
    else if s == "highlightedContentBackground" then Some(HighlightedContentBackground)
    else if s == "text" then Some(Text)
    else if s == "headline" then Some(Headline)
    else if s == "secondaryText" then Some(SecondaryText)
    else if s == "accent" then Some(Accent)
    else if s == "separator" then Some(Separator)
    else if s == "success" then Some(Success)
    else if s == "shadow" then Some(Shadow)
    else if s == "error" then Some(Error)
    else if s == "warning" then Some(Warning)
    else if s == "uiElement" then Some(UiElement)
    else if s == "clear" then Some(Clear)
    else None
  }

  /** `id` is the raw value. */
  function Id(e: ThemeElement): (id: string)
    ensures FromRawValue(id) == Some(e)
  {
    RawValueRoundTrip(e);
    RawValue(e)
  }

  /** Every raw value reads back as its own case. */
  lemma RawValueRoundTrip(e: ThemeElement)
    ensures FromRawValue(RawValue(e)) == Some(e)
  {
  }

  /** Distinct cases have distinct ids. */
  lemma IdInjective(a: ThemeElement, b: ThemeElement)
    ensures Id(a) == Id(b) <==> a == b
  {
  }

  /** `allCases`, in declaration order. */
  const AllCases: seq<ThemeElement> := [
    Background, SidebarBackground, ContentBackground, SecondaryContentBackground,
    HighlightedContentBackground, Text, Headline, SecondaryText, Accent, Separator,
    Success, Shadow, Error, Warning, UiElement, Clear
  ]

  /** `allCases` lists each of the sixteen cases exactly once. */
  lemma AllCasesExactlyOnce()
    ensures |AllCases| == 16
    ensures forall e: ThemeElement :: e in AllCases
    ensures forall i, j :: 0 <= i < j < |AllCases| ==> AllCases[i] != AllCases[j]
  {
    forall e: ThemeElement ensures e in AllCases {
      match e
      case Background => assert AllCases[0] == e;
      case SidebarBackground => assert AllCases[1] == e;
      case ContentBackground => assert AllCases[2] == e;
      case SecondaryContentBackground => assert AllCases[3] == e;
      case HighlightedContentBackground => assert AllCases[4] == e;
      case Text => assert AllCases[5] == e;
      case Headline => assert AllCases[6] == e;
      case SecondaryText => assert AllCases[7] == e;
      case Accent => assert AllCases[8] == e;
      case Separator => assert AllCases[9] == e;
      case Success => assert AllCases[10] == e;
      case Shadow => assert AllCases[11] == e;
      case Error => assert AllCases[12] == e;
      case Warning => assert AllCases[13] == e;
      case UiElement => assert AllCases[14] == e;
      case Clear => assert AllCases[15] == e;
    }
  }
}
