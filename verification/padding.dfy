/** `TRSPadding` of the `trs-system` tree: five integer levels of the spacing scale. */
module Padding {
  import opened Wrappers
  import Scale

  datatype TRSPadding = Tiny | Small | Medium | Large | ExtraLarge

  /** The cases in declaration order. */
  const AllCases: seq<TRSPadding> := [Tiny, Small, Medium, Large, ExtraLarge]

  /** The `Int` raw value: the consecutive integers -2 through 2. */
  function RawValue(p: TRSPadding): (n: int)
    ensures -2 <= n <= 2
  {
    match p
    case Tiny => -2
    case Small => -1
    case Medium => 0
    case Large => 1
    case ExtraLarge => 2
  }

  /** `init?(rawValue:)`: defined exactly on -2 through 2. */
  function FromRawValue(n: int): (r: Option<TRSPadding>)
    ensures r.Some? <==> -2 <= n <= 2
    ensures r.Some? ==> RawValue(r.value) == n
  {
    if n == -2 then Some(Tiny)
    else if n == -1 then Some(Small)
    else if n == 0 then Some(Medium)
    else if n == 1 then Some(Large)
    else if n == 2 then Some(ExtraLarge)
    else None
  }

  lemma RawValueRoundTrip(p: TRSPadding)
    ensures FromRawValue(RawValue(p)) == Some(p)
  {
  }

  /** Raw values are consecutive and rise in declaration order. */
  lemma RawValuesConsecutive(i: int)
    requires 0 <= i < |AllCases|
    ensures RawValue(AllCases[i]) == i - 2
  {
  }

  /** `value`: the base size scaled by the golden ratio to the raw value. */
  function Value(p: TRSPadding): (v: real)
    ensures p == Medium ==> v == Scale.BASE_SIZE
  {
    Scale.BASE_SIZE * Scale.Pow(Scale.GOLDEN_RATIO, RawValue(p) as real)
  }

  /** Every level of -2 through 2 names a padding whose value is that level of the scale. */
  lemma ValueOfLevel(n: int)
    requires -2 <= n <= 2
    ensures FromRawValue(n).Some?
    ensures Value(FromRawValue(n).value) == Scale.ScaleValue(Scale.BASE_SIZE, n as real)
  {
  }
}
