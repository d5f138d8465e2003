/**
 * The toast queue of the `trs_system` tree (`ToastManager.swift`): the
 * visible list, and one auto-hide task per toast id. Time is left out: a
 * task is a record that is either pending, cancelled or finished, and
 * `RunTask` is the moment its sleep ends. Ids are the host's fresh UUIDs,
 * given as parameters.
 */
module Toasts {
  import opened Wrappers
  import L = LegacyColors

  type UUID = nat

  /** A toast; the optional icon image is not modelled. */
  datatype Toast = Toast(id: UUID, message: string, duration: real)

  /** `Toast.init`, whose duration defaults to two seconds. */
  function MakeToast(id: UUID, message: string, duration: real := 2.0): (t: Toast)
    ensures t.id == id && t.message == message && t.duration == duration
  {
    Toast(id, message, duration)
  }

  /** The hand-written `==`: the id alone. */
  function Same(a: Toast, b: Toast): bool {
    a.id == b.id
  }

  /**
   * The laws `Equatable` asks of `==`: the hand-written id comparison is
   * reflexive, symmetric and transitive, and it ignores message and duration.
   */
  lemma SameIsEquivalence(a: Toast, b: Toast, c: Toast)
    ensures Same(a, a)
    ensures Same(a, b) ==> Same(b, a)
    ensures Same(a, b) && Same(b, c) ==> Same(a, c)
    ensures Same(a, MakeToast(a.id, b.message, b.duration))
  {
  }

  /** An auto-hide task: the toast it hides, and whether it was cancelled or has run. */
  datatype AutoHide = AutoHide(toast: Toast, cancelled: bool, finished: bool)

  /**
   * The manager: the visible toasts, every task ever created (a task's
   * handle is its position), and the `tasks` dictionary from id to handle.
   */
  datatype Manager = Manager(toasts: seq<Toast>, timers: seq<AutoHide>, tasks: map<UUID, nat>)

  const Empty: Manager := Manager([], [], map[])

  /** Every entry of `tasks` names a live, uncancelled task for that same id. */
  ghost predicate Valid(m: Manager) {
    forall id | id in m.tasks ::
      m.tasks[id] < |m.timers|
      && m.timers[m.tasks[id]].toast.id == id
      && !m.timers[m.tasks[id]].cancelled
      && !m.timers[m.tasks[id]].finished
  }

  /** `removeAll { $0.id == id }` */
  function RemoveId(s: seq<Toast>, id: UUID): (r: seq<Toast>)
    ensures forall t :: t in r <==> t in s && t.id != id
    ensures |r| <= |s|
  {
    if |s| == 0 then []
    else (if s[0].id == id then [] else [s[0]]) + RemoveId(s[1..], id)
  }

  /** Removal keeps the survivors in order: it works piecewise over a concatenation. */
  lemma {:induction false} RemoveIdConcat(a: seq<Toast>, b: seq<Toast>, id: UUID)
    ensures RemoveId(a + b, id) == RemoveId(a, id) + RemoveId(b, id)
  {
    if |a| == 0 {
      assert a + b == b;
    } else {
      assert (a + b)[1..] == a[1..] + b;
      RemoveIdConcat(a[1..], b, id);
    }
  }

  /** A list without the id is left as it is. */
  lemma {:induction false} RemoveAbsentId(s: seq<Toast>, id: UUID)
    requires forall t | t in s :: t.id != id
    ensures RemoveId(s, id) == s
  {
    if |s| > 0 {
      assert s[0] in s;
      assert forall t | t in s[1..] :: t in s;
      RemoveAbsentId(s[1..], id);
    }
  }

  /** Removing an id twice is removing it once. */
  lemma RemoveIdIdempotent(s: seq<Toast>, id: UUID)
    ensures RemoveId(RemoveId(s, id), id) == RemoveId(s, id)
  {
    RemoveAbsentId(RemoveId(s, id), id);
  }

  /** `Task.cancel()` on the task with handle `h`. */
  function Cancel(timers: seq<AutoHide>, h: nat): (r: seq<AutoHide>)
    ensures |r| == |timers|
    ensures forall k | 0 <= k < |r| && k != h :: r[k] == timers[k]
    ensures h < |r| ==> r[h].cancelled && r[h].toast == timers[h].toast && r[h].finished == timers[h].finished
  {
    if h < |timers| then timers[h := timers[h].(cancelled := true)] else timers
  }

  /**
   * `show(_:)`: append the toast, cancel the id's task if there is one,
   * and start a fresh task for it.
   */
  function Show(m: Manager, t: Toast): (r: Manager)
    requires Valid(m)
    ensures Valid(r)
    ensures r.toasts == m.toasts + [t]
    ensures r.tasks.Keys == m.tasks.Keys + {t.id}
    ensures r.tasks[t.id] == |m.timers| && r.timers[|m.timers|] == AutoHide(t, false, false)
    ensures forall id | id in m.tasks && id != t.id :: r.tasks[id] == m.tasks[id]
    ensures |r.timers| == |m.timers| + 1
    ensures t.id in m.tasks ==> r.timers[m.tasks[t.id]] == m.timers[m.tasks[t.id]].(cancelled := true)
    ensures forall k | 0 <= k < |m.timers| && (t.id !in m.tasks || k != m.tasks[t.id]) :: r.timers[k] == m.timers[k]
  {
    var timers := if t.id in m.tasks then Cancel(m.timers, m.tasks[t.id]) else m.timers;
    Manager(m.toasts + [t], timers + [AutoHide(t, false, false)], m.tasks[t.id := |m.timers|])
  }

  /**
   * `hide(_:)`: cancel and forget the id's task, and remove every toast
   * with that id.
   */
  function Hide(m: Manager, t: Toast): (r: Manager)
    requires Valid(m)
    ensures Valid(r)
    ensures r.toasts == RemoveId(m.toasts, t.id)
    ensures r.tasks == m.tasks - {t.id}
    ensures |r.timers| == |m.timers|
    ensures t.id in m.tasks ==> r.timers[m.tasks[t.id]] == m.timers[m.tasks[t.id]].(cancelled := true)
    ensures forall k | 0 <= k < |m.timers| && (t.id !in m.tasks || k != m.tasks[t.id]) :: r.timers[k] == m.timers[k]
  {
    var timers := if t.id in m.tasks then Cancel(m.timers, m.tasks[t.id]) else m.timers;
    Manager(RemoveId(m.toasts, t.id), timers, m.tasks - {t.id})
  }

  /** Hiding cannot tell equal toasts apart: only the id of its argument matters. */
  lemma HideRespectsSame(m: Manager, t: Toast, u: Toast)
    requires Valid(m) && Same(t, u)
    ensures Hide(m, t) == Hide(m, u)
  {
  }

  /** Hiding twice is hiding once; hiding an absent id leaves the list as it is. */
  lemma HideIdempotent(m: Manager, t: Toast)
    requires Valid(m)
    ensures Hide(Hide(m, t), t) == Hide(m, t)
    ensures (forall u | u in m.toasts :: u.id != t.id) ==> Hide(m, t).toasts == m.toasts
  {
    var h := Hide(m, t);
    assert Hide(h, t).toasts == h.toasts by {
      RemoveIdIdempotent(m.toasts, t.id);
    }
    assert t.id !in h.tasks;
    assert Hide(h, t).timers == h.timers;
    assert Hide(h, t).tasks == h.tasks;
    if forall u | u in m.toasts :: u.id != t.id {
      RemoveAbsentId(m.toasts, t.id);
    }
  }

  /** Showing a toast whose id is new and hiding it again restores the list and the dictionary. */
  lemma ShowThenHide(m: Manager, t: Toast)
    requires Valid(m)
    requires t.id !in m.tasks && forall u | u in m.toasts :: u.id != t.id
    ensures Hide(Show(m, t), t).toasts == m.toasts
    ensures Hide(Show(m, t), t).tasks == m.tasks
  {
    RemoveIdConcat(m.toasts, [t], t.id);
    RemoveAbsentId(m.toasts, t.id);
  }

  /**
   * `UInt64(toast.duration * 1_000_000_000)`, the task's sleep in
   * nanoseconds. `UInt64` has the range of `UInt`, so the conversion
   * truncates and traps (`None`) unless the product lies strictly between
   * -1 and 2^64.
   */
  function SleepNanoseconds(duration: real): (r: Option<nat>)
    ensures r.Some? <==> -1.0 < duration * 1_000_000_000.0 < 0x1_0000_0000_0000_0000 as real
    ensures r.Some? ==> r.value < 0x1_0000_0000_0000_0000
    ensures r.Some? && duration >= 0.0 ==> r.value as real <= duration * 1_000_000_000.0 < r.value as real + 1.0
  {
    match L.ToUInt(duration * 1_000_000_000.0)
    case None => None
    case Some(n) => Some(n)
  }

  /** The default two seconds convert exactly; a negative second or a 600-year duration traps. */
  lemma SleepNanosecondsExamples()
    ensures SleepNanoseconds(2.0) == Some(2_000_000_000)
    ensures SleepNanoseconds(-1.0).None? && SleepNanoseconds(2.0e10).None?
  {
  }

  /**
   * The end of a task's sleep, as written: the sleep's cancellation error
   * is discarded by `try?`, so a cancelled task goes on to hide its toast
   * like one that slept its full duration. A duration the nanosecond
   * conversion rejects traps (`None`) before the task sleeps at all.
   */
  function RunTaskAsWritten(m: Manager, h: nat): (r: Option<Manager>)
    requires Valid(m) && h < |m.timers|
    ensures r.None? <==> !m.timers[h].finished && SleepNanoseconds(m.timers[h].toast.duration).None?
    ensures r.Some? ==> Valid(r.value)
    ensures r.Some? && !m.timers[h].finished ==> r.value.toasts == RemoveId(m.toasts, m.timers[h].toast.id)
    ensures m.timers[h].finished ==> r == Some(m)
    ensures r.Some? ==> |r.value.timers| == |m.timers|
    ensures r.Some? && !m.timers[h].finished ==>
      r.value.timers[h].finished && r.value.timers[h].toast == m.timers[h].toast
    ensures r.Some? ==> var id := m.timers[h].toast.id;
      forall k | 0 <= k < |m.timers| && k != h && (id !in m.tasks || k != m.tasks[id]) :: r.value.timers[k] == m.timers[k]
    ensures r.Some? && !m.timers[h].finished ==> var id := m.timers[h].toast.id;
      r.value.tasks == m.tasks - {id}
      && (id in m.tasks && m.tasks[id] != h ==> r.value.timers[m.tasks[id]] == m.timers[m.tasks[id]].(cancelled := true))
  {
    if m.timers[h].finished then Some(m)
    else if SleepNanoseconds(m.timers[h].toast.duration).None? then None
    else
      var hidden := Hide(m, m.timers[h].toast);
      Some(hidden.(timers := hidden.timers[h := hidden.timers[h].(finished := true)]))
  }

  /**
   * The end of a task's sleep, as evidently intended: a cancelled task
   * stops without hiding anything; a pending one hides its toast. The
   * nanosecond conversion still comes first and traps the same way.
   */
  function RunTask(m: Manager, h: nat): (r: Option<Manager>)
    requires Valid(m) && h < |m.timers|
    ensures r.None? <==> !m.timers[h].finished && SleepNanoseconds(m.timers[h].toast.duration).None?
    ensures r.Some? ==> Valid(r.value)
    ensures r.Some? && (m.timers[h].cancelled || m.timers[h].finished) ==>
      r.value.toasts == m.toasts && r.value.tasks == m.tasks
    ensures r.Some? && !m.timers[h].cancelled && !m.timers[h].finished ==>
      r.value.toasts == RemoveId(m.toasts, m.timers[h].toast.id)
      && r.value.tasks == m.tasks - {m.timers[h].toast.id}
    ensures m.timers[h].finished ==> r == Some(m)
    ensures r.Some? ==> |r.value.timers| == |m.timers|
    ensures r.Some? && !m.timers[h].finished ==>
      r.value.timers[h].finished && r.value.timers[h].toast == m.timers[h].toast
    ensures r.Some? ==> var id := m.timers[h].toast.id;
      forall k | 0 <= k < |m.timers| && k != h && (id !in m.tasks || k != m.tasks[id]) :: r.value.timers[k] == m.timers[k]
    ensures r.Some? && m.timers[h].cancelled ==>
      forall k | 0 <= k < |m.timers| && k != h :: r.value.timers[k] == m.timers[k]
    ensures r.Some? && !m.timers[h].cancelled && !m.timers[h].finished ==> var id := m.timers[h].toast.id;
      id in m.tasks && m.tasks[id] != h ==> r.value.timers[m.tasks[id]] == m.timers[m.tasks[id]].(cancelled := true)
  {
    if m.timers[h].finished then Some(m)
    else if SleepNanoseconds(m.timers[h].toast.duration).None? then None
    else if m.timers[h].cancelled then Some(m.(timers := m.timers[h := m.timers[h].(finished := true)]))
    else
      var hidden := Hide(m, m.timers[h].toast);
      Some(hidden.(timers := hidden.timers[h := hidden.timers[h].(finished := true)]))
  }

  /**
   * Showing the same toast twice: as written, the first task's
   * cancellation ends its sleep at once and it hides the toast (and
   * forgets the second task) long before the toast's duration is up.
   */
  lemma ReshowHidesEarly(t: Toast)
    ensures var m := Show(Show(Empty, t), t);
      m.toasts == [t, t] && m.timers[0].cancelled
      && (SleepNanoseconds(t.duration).Some? ==>
            RunTaskAsWritten(m, 0).Some? && RunTaskAsWritten(m, 0).value.toasts == []
            && t.id !in RunTaskAsWritten(m, 0).value.tasks)
  {
    var m := Show(Show(Empty, t), t);
    assert RemoveId([t, t], t.id) == [];
  }

  /**
   * With cancellation honoured, the same sequence leaves both entries on
   * screen and the second task in charge of hiding them.
   */
  lemma ReshowStaysVisible(t: Toast)
    ensures var m := Show(Show(Empty, t), t);
      SleepNanoseconds(t.duration).Some? ==>
        RunTask(m, 0).Some? && RunTask(m, 0).value.toasts == [t, t]
        && RunTask(m, 0).value.tasks == map[t.id := 1]
  {
  }

  /** With cancellation honoured, a hidden toast's task can never remove a toast shown later. */
  lemma CancelledTaskIsInert(m: Manager, h: nat)
    requires Valid(m) && h < |m.timers| && m.timers[h].cancelled
    ensures RunTask(m, h).Some? ==> RunTask(m, h).value.toasts == m.toasts && RunTask(m, h).value.tasks == m.tasks
  {
  }

  /**
   * `deinit`: every task still in the dictionary is cancelled; the
   * manager is gone, so what remains is the list of tasks.
   */
  function Teardown(m: Manager): (r: seq<AutoHide>)
    requires Valid(m)
    ensures |r| == |m.timers|
    ensures forall id | id in m.tasks :: r[m.tasks[id]].cancelled
    ensures forall k | 0 <= k < |r| :: r[k].toast == m.timers[k].toast && r[k].finished == m.timers[k].finished
    ensures forall k | 0 <= k < |r| && (forall id | id in m.tasks :: m.tasks[id] != k) :: r[k] == m.timers[k]
  {
    seq(|m.timers|, k requires 0 <= k < |m.timers| =>
      if exists id | id in m.tasks :: m.tasks[id] == k then m.timers[k].(cancelled := true) else m.timers[k])
  }
}
