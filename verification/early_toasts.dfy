/**
 * The earlier toast queue (`ToastManager.swift` of the `trs-system`
 * tree): no task dictionary; each `show` schedules one delayed `hide` of
 * the toast it shows. The scheduled hides are kept as a list, and
 * `Fire` is the moment one of them runs.
 */
module EarlyToasts {
  import T = Toasts

  /** The visible toasts and the hides still scheduled. */
  datatype Manager = Manager(toasts: seq<T.Toast>, scheduled: seq<T.Toast>)

  /** `show(_:)`: append the toast and schedule exactly one hide of it. */
  function Show(m: Manager, t: T.Toast): (r: Manager)
    ensures r.toasts == m.toasts + [t]
    ensures r.scheduled == m.scheduled + [t]
  {
    Manager(m.toasts + [t], m.scheduled + [t])
  }

  /** `hide(_:)`: remove every toast with that id, keeping the rest in order. */
  function Hide(m: Manager, t: T.Toast): (r: Manager)
    ensures forall u :: u in r.toasts <==> u in m.toasts && u.id != t.id
    ensures r.toasts == T.RemoveId(m.toasts, t.id)
    ensures r.scheduled == m.scheduled
  {
    Manager(T.RemoveId(m.toasts, t.id), m.scheduled)
  }

  /** A scheduled hide runs: it leaves the schedule and hides its toast. */
  function Fire(m: Manager, k: nat): (r: Manager)
    requires k < |m.scheduled|
    ensures |r.scheduled| == |m.scheduled| - 1
    ensures r.scheduled == m.scheduled[..k] + m.scheduled[k + 1..]
    ensures forall u :: u in r.toasts <==> u in m.toasts && u.id != m.scheduled[k].id
    ensures r.toasts == T.RemoveId(m.toasts, m.scheduled[k].id)
  {
    Manager(T.RemoveId(m.toasts, m.scheduled[k].id), m.scheduled[..k] + m.scheduled[k + 1..])
  }

  /** Hiding twice is hiding once. */
  lemma HideIdempotent(m: Manager, t: T.Toast)
    ensures Hide(Hide(m, t), t) == Hide(m, t)
  {
    T.RemoveIdIdempotent(m.toasts, t.id);
  }

  /**
   * A manual hide followed by the scheduled hide of the same toast leaves
   * the list as the manual hide alone did.
   */
  lemma ManualThenScheduledHide(m: Manager, t: T.Toast)
    ensures Fire(Hide(Show(m, t), t), |m.scheduled|).toasts == Hide(Show(m, t), t).toasts
    ensures Fire(Hide(Show(m, t), t), |m.scheduled|).scheduled == m.scheduled
  {
    var h := Hide(Show(m, t), t);
    assert h.scheduled[|m.scheduled|] == t;
    T.RemoveIdIdempotent(Show(m, t).toasts, t.id);
    assert h.scheduled[..|m.scheduled|] == m.scheduled;
  }

  /** From an empty manager, a shown toast's own scheduled hide empties the list again. */
  lemma ShowThenFire(t: T.Toast)
    ensures Fire(Show(Manager([], []), t), 0) == Manager([], [])
  {
    assert T.RemoveId([t], t.id) == [];
  }
}
