/** `TRSSizes` of the `trs_system` tree, the `Sendable` copy of the size scale. */
module SendableSizes {
  import Scale
  import Sizes

  datatype TRSSizes = Tiny | Small | Medium | Large | Huge | Gigantic | Custom(level: real)

  function RawValue(s: TRSSizes): (r: real)
    ensures s.Custom? ==> r == s.level
    ensures !s.Custom? ==> r == r.Floor as real && -2.0 <= r <= 4.0 && r != 2.0
  {
    match s
    case Tiny => -2.0
    case Small => -1.0
    case Medium => 0.0
    case Large => 1.0
    case Huge => 3.0
    case Gigantic => 4.0
    case Custom(level) => level
  }

  function Value(s: TRSSizes): (v: real)
    ensures RawValue(s) == 0.0 ==> v == Scale.BASE_SIZE
  {
    Scale.BASE_SIZE * Scale.Pow(Scale.GOLDEN_RATIO, RawValue(s))
  }

  /** The same-named case of the `TRSSystem` scale. */
  function Counterpart(s: TRSSizes): Sizes.TRSSizes {
    match s
    case Tiny => Sizes.Tiny
    case Small => Sizes.Small
    case Medium => Sizes.Medium
    case Large => Sizes.Large
    case Huge => Sizes.Huge
    case Gigantic => Sizes.Gigantic
    case Custom(level) => Sizes.Custom(level)
  }

  /** Both generations assign every case the same level and the same value. */
  lemma AgreesWithTRSSystem(s: TRSSizes)
    ensures RawValue(s) == Sizes.RawValue(Counterpart(s))
    ensures Value(s) == Sizes.Value(Counterpart(s))
  {
  }

  /** The named levels rise strictly in declaration order, skipping 2. */
  lemma NamedLevelsIncrease()
    ensures RawValue(Tiny) < RawValue(Small) < RawValue(Medium) < RawValue(Large) < RawValue(Huge) < RawValue(Gigantic)
    ensures RawValue(Large) + 2.0 == RawValue(Huge)
  {
  }
}
