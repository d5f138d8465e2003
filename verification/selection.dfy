/**
 * The selection logic of `TRSList` (the `trs-system` tree). The list's
 * data is the sequence of its items' ids, in order; the shift key is a
 * parameter of a tap.
 */
module ListSelection {
  import opened Wrappers

  /** The bound selection: one optional id, or a set of ids. */
  datatype Selection<ID> = Single(selected: Option<ID>) | Multiple(selection: set<ID>)

  /** The selection plus the anchor of shift-range selection (`lastSelectedID`). */
  datatype ListState<ID> = ListState(selection: Selection<ID>, lastSelectedID: Option<ID>)

  /** `firstIndex(where:)` on the ids: the position of the first occurrence of `x`. */
  function FirstIndex<ID(==,!new)>(data: seq<ID>, x: ID): (r: Option<nat>)
    ensures r.None? <==> x !in data
    ensures r.Some? ==> r.value < |data| && data[r.value] == x
    ensures r.Some? ==> forall j :: 0 <= j < r.value ==> data[j] != x
  {
    if |data| == 0 then None
    else if data[0] == x then Some(0)
    else
      match FirstIndex(data[1..], x)
      case None => None
      case Some(i) => Some(i + 1)
  }

  /** The ids at positions `lo` through `hi`, both included. */
  function IdsBetween<ID(==,!new)>(data: seq<ID>, lo: nat, hi: nat): (ids: set<ID>)
    requires lo <= hi < |data|
    ensures data[lo] in ids && data[hi] in ids
    ensures forall x :: x in ids <==> exists k :: lo <= k <= hi && data[k] == x
  {
    set k | lo <= k <= hi :: data[k]
  }

  function Min(a: nat, b: nat): nat { if a <= b then a else b }

  function Max(a: nat, b: nat): nat { if a <= b then b else a }

  /** `handleSelection(of:)` */
  function HandleSelection<ID(==,!new)>(data: seq<ID>, st: ListState<ID>, itemID: ID, shift: bool): (r: ListState<ID>)
    ensures r.selection.Single? == st.selection.Single?
    // Single mode: tapping the selected id clears it, any other id becomes the selection; the anchor is untouched.
    ensures st.selection.Single? ==>
      r.lastSelectedID == st.lastSelectedID
      && (r.selection.selected.Some? <==> st.selection.selected != Some(itemID))
      && (r.selection.selected.Some? ==> r.selection.selected.value == itemID)
    // Multiple mode without an anchored shift-tap.
    ensures st.selection.Multiple? && !(shift && st.lastSelectedID.Some?) ==>
      r.lastSelectedID == Some(itemID)
      && r.selection.selection == (if shift then st.selection.selection + {itemID} else {itemID})
    // An anchored shift-tap whose anchor or item is not in the data changes nothing.
    ensures (st.selection.Multiple? && shift && st.lastSelectedID.Some?
             && (st.lastSelectedID.value !in data || itemID !in data)) ==> r == st
    // An anchored shift-tap otherwise adds the ids between the two and moves the anchor.
    ensures (st.selection.Multiple? && shift && st.lastSelectedID.Some?
             && st.lastSelectedID.value in data && itemID in data) ==>
      r.lastSelectedID == Some(itemID)
      && st.selection.selection <= r.selection.selection
      && itemID in r.selection.selection && st.lastSelectedID.value in r.selection.selection
  {
    match st.selection
    case Single(selected) =>
      ListState(Single(if selected == Some(itemID) then None else Some(itemID)), st.lastSelectedID)
    case Multiple(selection) =>
      if st.lastSelectedID.Some? && shift then
        var start, end := FirstIndex(data, st.lastSelectedID.value), FirstIndex(data, itemID);
        if start.None? || end.None? then st
        else
          var range := IdsBetween(data, Min(start.value, end.value), Max(start.value, end.value));
          ListState(Multiple(selection + range), Some(itemID))
      else
        ListState(Multiple((if shift then selection else {}) + {itemID}), Some(itemID))
  }

  /**
   * An anchored shift-tap adds exactly the ids lying between the first
   * occurrences of the anchor and of the item, whichever comes first.
   */
  lemma {:induction false} ShiftRange<ID(!new)>(data: seq<ID>, selection: set<ID>, anchor: ID, itemID: ID, i: nat, j: nat)
    requires i < |data| && j < |data| && data[i] == anchor && data[j] == itemID
    requires forall k :: 0 <= k < i ==> data[k] != anchor
    requires forall k :: 0 <= k < j ==> data[k] != itemID
    ensures HandleSelection(data, ListState(Multiple(selection), Some(anchor)), itemID, true)
      == ListState(Multiple(selection + IdsBetween(data, Min(i, j), Max(i, j))), Some(itemID))
  {
    FirstIndexUnique(data, anchor, i);
    FirstIndexUnique(data, itemID, j);
  }

  /** A position holding `x` with no earlier `x` is the first index of `x`. */
  lemma {:induction false} FirstIndexUnique<ID(!new)>(data: seq<ID>, x: ID, i: nat)
    requires i < |data| && data[i] == x
    requires forall k :: 0 <= k < i ==> data[k] != x
    ensures FirstIndex(data, x) == Some(i)
  {
  }

  /**
   * A shift-tap selects the same range whichever end is the anchor: from
   * the same multiple selection, anchoring at `a` and tapping `b` selects
   * what anchoring at `b` and tapping `a` does.
   */
  lemma ShiftRangeSymmetric<ID(!new)>(data: seq<ID>, s: set<ID>, a: ID, b: ID)
    requires a in data && b in data
    ensures HandleSelection(data, ListState(Multiple(s), Some(a)), b, true).selection
      == HandleSelection(data, ListState(Multiple(s), Some(b)), a, true).selection
  {
  }

  /**
   * In single mode two taps on the same item leave it selected exactly
   * when it was selected before, and nothing else selected; from no
   * selection, or from that item selected, they restore the original state.
   */
  lemma SingleTapTwice<ID(!new)>(data: seq<ID>, st: ListState<ID>, itemID: ID, shift: bool, shift2: bool)
    requires st.selection.Single?
    ensures var r := HandleSelection(data, HandleSelection(data, st, itemID, shift), itemID, shift2);
      r.lastSelectedID == st.lastSelectedID
      && r.selection == Single(if st.selection.selected == Some(itemID) then Some(itemID) else None)
    ensures st.selection.selected in {None, Some(itemID)} ==>
      HandleSelection(data, HandleSelection(data, st, itemID, shift), itemID, shift2) == st
  {
  }

  /** `selectAllItems()`: every id of the data in multiple mode; nothing in single mode. */
  function SelectAll<ID(==,!new)>(data: seq<ID>, st: ListState<ID>): (r: ListState<ID>)
    ensures r.lastSelectedID == st.lastSelectedID
    ensures st.selection.Single? ==> r == st
    ensures st.selection.Multiple? ==> r.selection.Multiple? && forall x :: x in r.selection.selection <==> x in data
  {
    match st.selection
    case Single(_) => st
    case Multiple(_) => ListState(Multiple(set x | x in data), st.lastSelectedID)
  }

  /** `clearSelection()`: empties the selection in either mode, keeping the anchor. */
  function Clear<ID(==,!new)>(st: ListState<ID>): (r: ListState<ID>)
    ensures r.lastSelectedID == st.lastSelectedID
    ensures r.selection.Single? == st.selection.Single?
    ensures forall x :: !IsSelected(r, x)
  {
    match st.selection
    case Single(_) => ListState(Single(None), st.lastSelectedID)
    case Multiple(_) => ListState(Multiple({}), st.lastSelectedID)
  }

  /** `isSelected(_:)`: equality in single mode, membership in multiple mode. */
  function IsSelected<ID(==,!new)>(st: ListState<ID>, x: ID): (b: bool)
    ensures st.selection.Single? ==> (b <==> st.selection.selected == Some(x))
    ensures st.selection.Multiple? ==> (b <==> x in st.selection.selection)
  {
    match st.selection
    case Single(selected) => selected == Some(x)
    case Multiple(selection) => x in selection
  }

  /** After select-all in multiple mode an item is selected exactly when it is in the data. */
  lemma SelectAllSelectsData<ID(!new)>(data: seq<ID>, st: ListState<ID>, x: ID)
    requires st.selection.Multiple?
    ensures IsSelected(SelectAll(data, st), x) <==> x in data
  {
  }

  /** A plain tap in multiple mode leaves exactly the tapped item selected. */
  lemma PlainTapSelectsOnlyItem<ID(!new)>(data: seq<ID>, st: ListState<ID>, itemID: ID, x: ID)
    requires st.selection.Multiple?
    ensures IsSelected(HandleSelection(data, st, itemID, false), x) <==> x == itemID
  {
  }
}
