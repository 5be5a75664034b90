/** Runs of whole requests and administrator actions: what cooling down and disabling guarantee. */
module Cooldown {
  import opened BackendTable
  import opened Breaker
  import S = Scheduler
  import opened StoredTime
  import opened Text

  /** A request selects at some time and then reports on backends it was given, one after the other. */
  datatype Op =
    | Request(now: Instant, reports: seq<Event>)
    | Admin(id: int, wanted: Wanted)
    | Add
    | Remove(id: int)

  /** The table the selection of a request at `now` is made from. */
  function Selecting(threshold: int, t: Table, now: Instant): Table {
    Apply(threshold, t, Selects(now))
  }

  function Perform(threshold: int, t: Table, op: Op): Table {
    match op
    case Request(now, reports) => ApplyAll(threshold, Selecting(threshold, t, now), reports)
    case Admin(id, wanted) => Apply(threshold, t, Edits(id, wanted))
    case Add => Apply(threshold, t, Created)
    case Remove(id) => Apply(threshold, t, Deleted(id))
  }

  function PerformAll(threshold: int, t: Table, ops: seq<Op>): Table
    decreases ops
  {
    if ops == [] then t else PerformAll(threshold, Perform(threshold, t, ops[0]), ops[1..])
  }

  /** Only normal backends are selected. */
  predicate Selectable(t: Table, id: int) {
    id in t.rows && t.rows[id].status == Normal
  }

  /** The report is a success or a failure of a backend that was selected from `t`. */
  predicate ReportsOn(t: Table, e: Event) {
    (e.Fails? || e.Succeeds?) && Selectable(t, e.id)
  }

  predicate Legal(threshold: int, t: Table, op: Op) {
    op.Request? ==> forall e | e in op.reports :: ReportsOn(Selecting(threshold, t, op.now), e)
  }

  predicate LegalRun(threshold: int, t: Table, ops: seq<Op>)
    decreases ops
  {
    ops != [] ==> Legal(threshold, t, ops[0]) && LegalRun(threshold, Perform(threshold, t, ops[0]), ops[1..])
  }

  /** The tables from which the requests of a run select. */
  function Selections(threshold: int, t: Table, ops: seq<Op>): seq<Table>
    decreases ops
  {
    if ops == [] then []
    else (if ops[0].Request? then [Selecting(threshold, t, ops[0].now)] else [])
         + Selections(threshold, Perform(threshold, t, ops[0]), ops[1..])
  }

  /** What a listing of the table holds. */
  predicate Lists(t: Table, backends: seq<S.Backend>) {
    forall b | b in backends :: b.id in t.rows && b.row == t.rows[b.id]
  }

  /** Whatever the scheduler selects from a listing of the table is selectable. */
  lemma SelectedIsSelectable(glob: (string, string) -> bool, t: Table, backends: seq<S.Backend>, model: string,
                             r: seq<S.Backend>, b: S.Backend)
    requires Lists(t, backends) && S.IsSelection(glob, backends, model, r) && b in r
    ensures Selectable(t, b.id)
  {
    S.SelectedIff(glob, backends, model, r, b);
  }

  // ----- reports -----

  lemma {:induction false} ReportsElsewhere(threshold: int, t: Table, reports: seq<Event>, id: int)
    requires id in t.rows && forall e | e in reports :: (e.Fails? || e.Succeeds?) && e.id != id
    ensures id in ApplyAll(threshold, t, reports).rows && ApplyAll(threshold, t, reports).rows[id] == t.rows[id]
    ensures ApplyAll(threshold, t, reports).next == t.next
    decreases reports
  {
    hide AtMost, Format;
    if reports != [] {
      assert reports[0] in reports;
      ReportsElsewhere(threshold, Apply(threshold, t, reports[0]), reports[1..], id);
    }
  }

  /** A request leaves alone every row that it neither recovers nor may select. */
  lemma RequestElsewhere(threshold: int, t: Table, op: Op, id: int)
    requires op.Request? && Legal(threshold, t, op) && id in t.rows
    requires t.rows[id].status != Normal && !Due(t.rows[id], op.now)
    ensures id in Selecting(threshold, t, op.now).rows && Selecting(threshold, t, op.now).rows[id] == t.rows[id]
    ensures id in Perform(threshold, t, op).rows && Perform(threshold, t, op).rows[id] == t.rows[id]
    ensures Perform(threshold, t, op).next == t.next
  {
    hide AtMost, Format;
    var u := Selecting(threshold, t, op.now);
    assert forall e | e in op.reports :: ReportsOn(u, e);
    ReportsElsewhere(threshold, u, op.reports, id);
  }

  // ----- disabled backends -----

  /** The operations that end a disabled status. */
  predicate EndsDisabled(op: Op, id: int) {
    op == Admin(id, Want(Normal)) || op == Remove(id)
  }

  /** Only an administrator ends it: every other operation leaves a disabled row as it is. */
  lemma DisabledStep(threshold: int, t: Table, op: Op, id: int)
    requires Legal(threshold, t, op) && id in t.rows && id < t.next && t.rows[id].status == Disabled
    ensures EndsDisabled(op, id)
       <==> !(id in Perform(threshold, t, op).rows && Perform(threshold, t, op).rows[id] == t.rows[id])
    ensures t.next <= Perform(threshold, t, op).next
  {
    hide AtMost, Format;
    if op.Request? {
      RequestElsewhere(threshold, t, op, id);
    }
  }

  /** A disabled backend is in no selection, and its row does not change, until an administrator acts. */
  lemma {:induction false} DisabledSafety(threshold: int, t: Table, ops: seq<Op>, id: int)
    requires LegalRun(threshold, t, ops) && id in t.rows && id < t.next && t.rows[id].status == Disabled
    requires forall op | op in ops :: !EndsDisabled(op, id)
    ensures id in PerformAll(threshold, t, ops).rows && PerformAll(threshold, t, ops).rows[id] == t.rows[id]
    ensures forall u | u in Selections(threshold, t, ops) :: !Selectable(u, id)
    decreases ops
  {
    hide AtMost, Format, Perform;
    if ops != [] {
      assert ops[0] in ops;
      DisabledStep(threshold, t, ops[0], id);
      if ops[0].Request? {
        RequestElsewhere(threshold, t, ops[0], id);
      }
      DisabledSafety(threshold, Perform(threshold, t, ops[0]), ops[1..], id);
    }
  }

  // ----- tripped backends -----

  /** The operations by which an administrator resets a tripped backend. */
  predicate Resets(op: Op, id: int) {
    op == Admin(id, Want(Normal)) || op == Admin(id, Want(Disabled)) || op == Remove(id)
  }

  /** The request selects before the stored recovery time, in the order of stored times. */
  predicate BeforeRecovery(op: Op, until: Instant) {
    op.Request? ==> Valid(op.now) && Before(op.now, until)
  }

  lemma TrippedStep(threshold: int, t: Table, op: Op, id: int, until: Instant)
    requires Legal(threshold, t, op) && id in t.rows && id < t.next && Valid(until)
    requires t.rows[id].status == Abnormal && t.rows[id].recoverAt == Some(until)
    requires !Resets(op, id) && BeforeRecovery(op, until)
    ensures id in Perform(threshold, t, op).rows && Perform(threshold, t, op).rows[id] == t.rows[id]
    ensures t.next <= Perform(threshold, t, op).next
    ensures op.Request? ==> !Selectable(Selecting(threshold, t, op.now), id)
  {
    hide AtMost, Format;
    if op.Request? {
      DueExact(t.rows[id], op.now);
      RequestElsewhere(threshold, t, op, id);
    }
  }

  /** A tripped backend stays exactly as it was tripped, and in no selection, through every run in which requests
      select before its recovery time and no administrator resets it. */
  lemma {:induction false} CooldownSafety(threshold: int, t: Table, ops: seq<Op>, id: int, until: Instant)
    requires LegalRun(threshold, t, ops) && id in t.rows && id < t.next && Valid(until)
    requires t.rows[id].status == Abnormal && t.rows[id].recoverAt == Some(until)
    requires forall op | op in ops :: !Resets(op, id) && BeforeRecovery(op, until)
    ensures id in PerformAll(threshold, t, ops).rows && PerformAll(threshold, t, ops).rows[id] == t.rows[id]
    ensures forall u | u in Selections(threshold, t, ops) :: !Selectable(u, id)
    decreases ops
  {
    hide AtMost, Format, Perform, Legal, Valid, Before, Selecting;
    if ops != [] {
      assert ops[0] in ops;
      TrippedStep(threshold, t, ops[0], id, until);
      CooldownSafety(threshold, Perform(threshold, t, ops[0]), ops[1..], id, until);
    }
  }

  /** The first request that is not before the recovery time finds the backend normal again with no failures. In
      seconds: no request of an earlier second sees it, and the first of a later second does if none did before. */
  lemma CooldownEnds(threshold: int, t: Table, ops: seq<Op>, id: int, until: Instant, now: Instant)
    requires LegalRun(threshold, t, ops) && id in t.rows && id < t.next && Valid(until) && Valid(now)
    requires t.rows[id].status == Abnormal && t.rows[id].recoverAt == Some(until)
    requires forall op | op in ops :: !Resets(op, id) && BeforeRecovery(op, until)
    ensures var u := Selecting(threshold, PerformAll(threshold, t, ops), now);
            && id in u.rows
            && (u.rows[id] == FRESH <==> !Before(now, until))
            && (u.rows[id] == t.rows[id] <==> Before(now, until))
    ensures now.sec < until.sec ==> Before(now, until)
    ensures now.sec > until.sec ==> !Before(now, until)
  {
    hide AtMost, Format, PerformAll, LegalRun, Valid;
    CooldownSafety(threshold, t, ops, id, until);
    DueExact(t.rows[id], now);
  }
}
