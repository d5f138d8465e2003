/** `TRSSizes` of the `TRSSystem` tree: named levels of the golden-ratio size scale. */
module Sizes {
  import Scale

  datatype TRSSizes = Tiny | Small | Medium | Large | Huge | Gigantic | Custom(level: real)

  /** The named cases in declaration order. */
  const NamedCases: seq<TRSSizes> := [Tiny, Small, Medium, Large, Huge, Gigantic]

  /** The level of a size: a whole number in [-2, 4] other than 2 for the named cases. */
  function RawValue(s: TRSSizes): (r: real)
    ensures s.Custom? ==> r == s.level
    ensures !s.Custom? ==> r == r.Floor as real && -2.0 <= r <= 4.0 && r != 2.0
  {
    match s
    case Tiny => -2.0
    case Small => -1.0
    case Medium => 0.0
    case Large => 1.0
    case Huge => 3.0
    case Gigantic => 4.0
    case Custom(level) => level
  }

  /** `value`: the base size scaled by the golden ratio to the level. */
  function Value(s: TRSSizes): (v: real)
    ensures RawValue(s) == 0.0 ==> v == Scale.BASE_SIZE
  {
    Scale.BASE_SIZE * Scale.Pow(Scale.GOLDEN_RATIO, RawValue(s))
  }

  /** The named levels are -2, -1, 0, 1, 3, 4 and rise strictly in declaration order. */
  lemma NamedLevels(i: int, j: int)
    requires 0 <= i < j < |NamedCases|
    ensures RawValue(NamedCases[i]) < RawValue(NamedCases[j])
    ensures RawValue(NamedCases[i]) == [-2.0, -1.0, 0.0, 1.0, 3.0][i]
  {
  }

  /** `value` sees only the level: a custom size at a named level has that size's value. */
  lemma ValueDependsOnlyOnLevel(a: TRSSizes, b: TRSSizes)
    requires RawValue(a) == RawValue(b)
    ensures Value(a) == Value(b)
    ensures Value(Custom(RawValue(a))) == Value(a)
  {
  }

  /** The medium size is the base size. */
  lemma MediumIsBase()
    ensures Value(Medium) == Scale.BASE_SIZE
  {
  }
}
