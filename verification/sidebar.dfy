/**
 * The resizable sidebar of `SidebarStack` (the `TRSSystem` tree): the
 * width clamp applied on every drag update and the resizer's offset. The
 * drag translation is a parameter.
 */
module Sidebar {
  const InitialWidth: real := 200.0
  const ResizeWidth: real := 10.0
  const MinWidth: real := 100.0
  const MaxWidth: real := 300.0

  predicate InBounds(w: real) {
    MinWidth <= w <= MaxWidth
  }

  function Min(a: real, b: real): real { if a <= b then a else b }

  function Max(a: real, b: real): real { if a <= b then b else a }

  /** One drag update: the dragged width, clamped to [100, 300]. */
  function NewWidth(width: real, translation: real): (w: real)
    ensures InBounds(w)
    ensures InBounds(width + translation) ==> w == width + translation
    ensures width + translation < MinWidth ==> w == MinWidth
    ensures width + translation > MaxWidth ==> w == MaxWidth
  {
    Max(MinWidth, Min(width + translation, MaxWidth))
  }

  /** The width after a series of drag updates, applied in order. */
  function AfterDrags(width: real, translations: seq<real>): real
    decreases |translations|
  {
    if |translations| == 0 then width
    else AfterDrags(NewWidth(width, translations[0]), translations[1..])
  }

  /** Starting from the initial width, the width stays in bounds through any drags. */
  lemma {:induction false} DragsKeepBounds(width: real, translations: seq<real>)
    requires InBounds(width)
    ensures InBounds(AfterDrags(width, translations))
    decreases |translations|
  {
    if |translations| > 0 {
      DragsKeepBounds(NewWidth(width, translations[0]), translations[1..]);
    }
  }

  /** The spacer before the resizer: the sidebar width less the resizer's own width. */
  function ResizerOffset(width: real): (offset: real)
    ensures InBounds(width) ==> 90.0 <= offset <= 290.0
    ensures offset + ResizeWidth == width
  {
    width - ResizeWidth
  }

  /** Whatever the drags, the resizer sits at least 90 points from the leading edge. */
  lemma ResizerOffsetBound(translations: seq<real>)
    ensures ResizerOffset(AfterDrags(InitialWidth, translations)) >= 90.0
  {
    assert InBounds(InitialWidth);
    DragsKeepBounds(InitialWidth, translations);
  }
}
