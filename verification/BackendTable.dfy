/** The backend table as the store changes it, and runs in which no two requests overlap. */
module BackendTable {
  import opened Breaker
  import opened StoredTime
  import opened Text

  datatype Table = Table(rows: map<int, Row>, next: int)

  const EMPTY := Table(map[], 1)

  /** A whole operation: nothing happens between its read and its write. */
  datatype Event =
    | Created
    | Deleted(id: int)
    | Fails(id: int, until: Instant)
    | Succeeds(id: int)
    | Selects(now: Instant)
    | Edits(id: int, wanted: Wanted)

  function EditedRows(rows: map<int, Row>, id: int, wanted: Wanted): map<int, Row> {
    if id in rows && Edited(rows[id], wanted).Some? then rows[id := Edited(rows[id], wanted).value] else rows
  }

  function Apply(threshold: int, t: Table, e: Event): Table {
    match e
    case Created => Table(t.rows[t.next := FRESH], t.next + 1)
    case Deleted(id) => t.(rows := t.rows - {id})
    case Fails(id, until) =>
      t.(rows := if id in t.rows then t.rows[id := Failed(t.rows[id], threshold, until)] else t.rows)
    case Succeeds(id) => t.(rows := Put(t.rows, id, FRESH))
    case Selects(now) => t.(rows := RecoverAll(t.rows, now))
    case Edits(id, wanted) => t.(rows := EditedRows(t.rows, id, wanted))
  }

  function ApplyAll(threshold: int, t: Table, es: seq<Event>): Table
    decreases es
  {
    if es == [] then t else ApplyAll(threshold, Apply(threshold, t, es[0]), es[1..])
  }

  // ----- the store -----

  class Store {
    var rows: map<int, Row>
    var next: int

    ghost function View(): Table
      reads this
    {
      Table(rows, next)
    }

    constructor ()
      ensures View() == EMPTY
    {
      rows := map[];
      next := 1;
    }

    /** The insert always starts the count and leaves the recovery time empty, whatever the status. */
    method CreateBackend(status: Status) returns (id: int)
      modifies this
      ensures View() == Table(old(rows)[old(next) := Row(status, 0, None)], old(next) + 1) && id == old(next)
    {
      id := next;
      rows := rows[id := Row(status, 0, None)];
      next := next + 1;
    }

    /** The administrator's form for a new backend says nothing about the status, which makes it normal. */
    method HandleCreateBackend() returns (id: int)
      modifies this
      ensures View() == Apply(0, old(View()), Created) && id == old(next)
    {
      id := CreateBackend(Normal);
    }

    method DeleteBackend(id: int)
      modifies `rows
      ensures View() == Apply(0, old(View()), Deleted(id))
    {
      rows := rows - {id};
    }

    method GetBackend(id: int) returns (row: Option<Row>)
      ensures row.Some? <==> id in rows
      ensures row.Some? ==> row.value == rows[id]
    {
      if id !in rows {
        return None;
      }
      row := Some(rows[id]);
    }

    /** `UPDATE backends SET status, consecutive_failures, recover_at WHERE id = ?`. */
    method WriteRow(id: int, row: Row)
      modifies `rows
      ensures rows == Put(old(rows), id, row)
    {
      if id in rows {
        rows := rows[id := row];
      }
    }

    method MarkBackendSuccess(id: int)
      modifies `rows
      ensures View() == Apply(0, old(View()), Succeeds(id))
    {
      WriteRow(id, FRESH);
    }

    /** The read, the decision and the write of `MarkBackendFailure`; the error is a backend that does not exist. */
    method MarkBackendFailure(id: int, threshold: int, until: Instant) returns (found: bool)
      modifies `rows
      ensures View() == Apply(threshold, old(View()), Fails(id, until))
      ensures found <==> id in old(rows)
    {
      var backend := GetBackend(id);
      if backend.None? {
        return false;
      }
      var limit := threshold;
      if limit < 1 {
        limit := 1;
      }
      var failures := backend.value.failures + 1;
      var status := backend.value.status;
      var recoverAt := backend.value.recoverAt;
      if status != Disabled && failures >= limit {
        status := Abnormal;
        recoverAt := Some(until);
      }
      WriteRow(id, Row(status, failures, recoverAt));
      found := true;
    }

    method RecoverExpiredBackends(now: Instant)
      modifies `rows
      ensures View() == Apply(0, old(View()), Selects(now))
    {
      hide Recovered;
      rows := map id | id in rows :: Recovered(rows[id], now);
      assert rows == RecoverAll(old(rows), now);
    }

    /** The administrator's update: it reads the row, changes the fields the form names and writes all of them back.
        It fails when the backend does not exist and when the status is refused. */
    method HandleUpdateBackend(id: int, wanted: Wanted) returns (ok: bool)
      modifies `rows
      ensures View() == Apply(0, old(View()), Edits(id, wanted))
      ensures ok <==> id in old(rows) && wanted != Want(Abnormal)
    {
      var backend := GetBackend(id);
      if backend.None? {
        return false;
      }
      var current := backend.value;
      match wanted {
        case Keep =>
        case Want(Abnormal) =>
          return false;
        case Want(status) =>
          if current.status != status {
            current := Row(status, 0, None);
          }
      }
      WriteRow(id, current);
      ok := true;
    }
  }

  // ----- whole operations are runs of steps -----

  /** The statements of a whole operation, for a caller named `call`. */
  function Steps(e: Event, call: int): seq<Step> {
    match e
    case Created => [Create]
    case Deleted(id) => [Delete(id)]
    case Fails(id, until) => [ReadFailure(call, id), WriteFailure(call, until)]
    case Succeeds(id) => [Succeed(id)]
    case Selects(now) => [Select(now)]
    case Edits(id, wanted) => [ReadEdit(call, id), WriteEdit(call, wanted)]
  }

  function AllSteps(es: seq<Event>, call: int): seq<Step> {
    if es == [] then [] else Steps(es[0], call) + AllSteps(es[1..], call)
  }

  function TableOf(w: World): Table {
    Table(w.rows, w.next)
  }

  lemma RunOne(threshold: int, w: World, s: Step)
    ensures Run(threshold, w, [s]) == Next(threshold, w, s)
  {
    assert [s] == [s] + [];
    RunStep(threshold, w, s, []);
  }

  lemma RunTwo(threshold: int, w: World, s: Step, s': Step)
    ensures Run(threshold, w, [s, s']) == Next(threshold, Next(threshold, w, s), s')
  {
    assert [s, s'] == [s] + [s'];
    RunStep(threshold, w, s, [s']);
    RunOne(threshold, Next(threshold, w, s), s');
  }

  lemma OperationIsSteps(threshold: int, w: World, e: Event, call: int)
    requires call !in w.failing && call !in w.editing
    ensures TableOf(Run(threshold, w, Steps(e, call))) == Apply(threshold, TableOf(w), e)
    ensures Run(threshold, w, Steps(e, call)).failing == w.failing
    ensures Run(threshold, w, Steps(e, call)).editing == w.editing
  {
    hide Run, RecoverAll, Failed, Edited;
    match e
    case Fails(id, until) =>
      RunTwo(threshold, w, ReadFailure(call, id), WriteFailure(call, until));
      assert w.failing[call := Call(id, FRESH)] - {call} == w.failing;
    case Edits(id, wanted) =>
      RunTwo(threshold, w, ReadEdit(call, id), WriteEdit(call, wanted));
    case _ =>
      RunOne(threshold, w, Steps(e, call)[0]);
  }

  lemma {:induction false} OperationsAreSteps(threshold: int, w: World, es: seq<Event>, call: int)
    requires call !in w.failing && call !in w.editing
    ensures TableOf(Run(threshold, w, AllSteps(es, call))) == ApplyAll(threshold, TableOf(w), es)
    decreases es
  {
    if es != [] {
      OperationIsSteps(threshold, w, es[0], call);
      RunAppend(threshold, w, Steps(es[0], call), AllSteps(es[1..], call));
      OperationsAreSteps(threshold, Run(threshold, w, Steps(es[0], call)), es[1..], call);
    }
  }

  predicate TableOk(t: Table, threshold: int) {
    forall id | id in t.rows :: RowOk(t.rows[id], threshold) && id < t.next
  }

  /** Every table that whole operations reach keeps the breaker's rows. */
  lemma {:induction false} TableInvariant(threshold: int, t: Table, es: seq<Event>)
    requires TableOk(t, threshold)
    ensures TableOk(ApplyAll(threshold, t, es), threshold)
    decreases es
  {
    if es != [] {
      TableStep(threshold, t, es[0]);
      TableInvariant(threshold, Apply(threshold, t, es[0]), es[1..]);
    }
  }

  lemma TableStep(threshold: int, t: Table, e: Event)
    requires TableOk(t, threshold)
    ensures TableOk(Apply(threshold, t, e), threshold)
  {
    hide AtMost, Format;
  }

  // ----- what the count means -----

  /** The operations that start a backend's count again: creation, success, recovery and a change of status by hand. */
  predicate Restarts(t: Table, e: Event, id: int) {
    match e
    case Created => id == t.next
    case Succeeds(i) => i == id
    case Selects(now) => id in t.rows && Due(t.rows[id], now)
    case Edits(i, wanted) =>
      && i == id && id in t.rows
      && wanted.Want? && wanted.status != Abnormal && wanted.status != t.rows[id].status
    case _ => false
  }

  /** The number of failures of a backend in a run that come after everything that restarts its count. */
  function FailuresSince(threshold: int, t: Table, es: seq<Event>, id: int): nat
    decreases es
  {
    if es == [] then 0
    else
      var u := Apply(threshold, t, es[0]);
      FailuresSince(threshold, u, es[1..], id)
      + (if es[0].Fails? && es[0].id == id && !RestartsLater(threshold, u, es[1..], id) then 1 else 0)
  }

  predicate RestartsLater(threshold: int, t: Table, es: seq<Event>, id: int)
    decreases es
  {
    es != [] && (Restarts(t, es[0], id) || RestartsLater(threshold, Apply(threshold, t, es[0]), es[1..], id))
  }

  lemma {:induction false} CountFrom(threshold: int, t: Table, es: seq<Event>, id: int)
    requires id in t.rows && id < t.next && Deleted(id) !in es
    ensures id in ApplyAll(threshold, t, es).rows
    ensures ApplyAll(threshold, t, es).rows[id].failures
         == FailuresSince(threshold, t, es, id)
            + (if RestartsLater(threshold, t, es, id) then 0 else t.rows[id].failures)
    decreases es
  {
    hide AtMost, Format;
    if es != [] {
      assert es[0] in es;
      var u := Apply(threshold, t, es[0]);
      CountFrom(threshold, u, es[1..], id);
    }
  }

  /** When operations do not overlap, a backend's count is exactly its failures since the last success, recovery or
      change of status by hand, and it is tripped exactly when that many reach the threshold while it is enabled. */
  lemma CountIsExact(threshold: int, before: seq<Event>, after: seq<Event>, id: int)
    requires id == ApplyAll(threshold, EMPTY, before).next && Deleted(id) !in after
    ensures var t := ApplyAll(threshold, EMPTY, before + [Created] + after);
            && id in t.rows
            && t.rows[id].failures
               == FailuresSince(threshold, Apply(threshold, ApplyAll(threshold, EMPTY, before), Created), after, id)
            && (t.rows[id].status == Abnormal
                <==> t.rows[id].status != Disabled && t.rows[id].failures >= Threshold(threshold))
  {
    var t := ApplyAll(threshold, EMPTY, before);
    ApplyAppend(threshold, EMPTY, before + [Created], after);
    ApplyAppend(threshold, EMPTY, before, [Created]);
    assert [Created][1..] == [];
    CountFrom(threshold, Apply(threshold, t, Created), after, id);
    TableInvariant(threshold, EMPTY, before + [Created] + after);
  }

  lemma {:induction false} ApplyAppend(threshold: int, t: Table, a: seq<Event>, b: seq<Event>)
    ensures ApplyAll(threshold, t, a + b) == ApplyAll(threshold, ApplyAll(threshold, t, a), b)
    decreases a
  {
    if a == [] {
      assert a + b == b;
    } else {
      assert (a + b)[1..] == a[1..] + b;
      ApplyAppend(threshold, Apply(threshold, t, a[0]), a[1..], b);
    }
  }

  // ----- what the recovery time means -----

  /** The recovery time the last failure of a backend asked for. */
  function LastUntil(es: seq<Event>, id: int): Option<Instant> {
    if es == [] then None
    else
      var e := es[|es| - 1];
      if e.Fails? && e.id == id then Some(e.until) else LastUntil(es[..|es| - 1], id)
  }

  predicate TimedBy(t: Table, es: seq<Event>, id: int, threshold: int) {
    && id in t.rows && id < t.next && RowOk(t.rows[id], threshold)
    && (t.rows[id].status == Abnormal ==> t.rows[id].recoverAt == LastUntil(es, id))
  }

  lemma TimeStep(threshold: int, t: Table, es: seq<Event>, e: Event, id: int)
    requires TimedBy(t, es, id, threshold) && e != Deleted(id)
    ensures TimedBy(Apply(threshold, t, e), es + [e], id, threshold)
  {
    hide AtMost, Format;
    assert (es + [e])[..|es|] == es;
  }

  lemma {:induction false} TimedRun(threshold: int, t: Table, es: seq<Event>, id: int)
    requires TimedBy(t, [], id, threshold) && Deleted(id) !in es
    ensures TimedBy(ApplyAll(threshold, t, es), es, id, threshold)
    decreases es
  {
    hide TimedBy, Apply;
    if es != [] {
      var front, e := es[..|es| - 1], es[|es| - 1];
      assert es == front + [e] && e in es;
      TimedRun(threshold, t, front, id);
      ApplyAppend(threshold, t, front, [e]);
      assert [e][1..] == [];
      var u := ApplyAll(threshold, t, front);
      assert ApplyAll(threshold, u, [e]) == Apply(threshold, u, e);
      TimeStep(threshold, u, front, e, id);
    }
  }

  /** A tripped backend may be used again at the time its last failure asked for: every failure of a backend that is
      already tripped replaces the time. */
  lemma TimeIsLastFailure(threshold: int, before: seq<Event>, after: seq<Event>, id: int)
    requires id == ApplyAll(threshold, EMPTY, before).next && Deleted(id) !in after
    ensures var t := ApplyAll(threshold, EMPTY, before + [Created] + after);
            && id in t.rows
            && (t.rows[id].status == Abnormal ==>
                  LastUntil(after, id).Some? && t.rows[id].recoverAt == LastUntil(after, id))
  {
    var t := ApplyAll(threshold, EMPTY, before);
    ApplyAppend(threshold, EMPTY, before + [Created], after);
    ApplyAppend(threshold, EMPTY, before, [Created]);
    assert [Created][1..] == [];
    TimedRun(threshold, Apply(threshold, t, Created), after, id);
  }
}
