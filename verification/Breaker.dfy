/** The circuit breaker of a backend row: its status, its count of consecutive failures and the time it may be
    used again. Every SQL statement is one step; `MarkBackendFailure` and the administrator's update are a read
    and a later write, so their steps may interleave with everything else. */
module Breaker {
  import opened StoredTime
  import opened Text

  datatype Status = Normal | Abnormal | Disabled

  datatype Row = Row(status: Status, failures: nat, recoverAt: Option<Instant>)

  /** What the administrator's form says about the status; only `Normal` and `Disabled` may be asked for. */
  datatype Wanted = Keep | Want(status: Status)

  const FRESH := Row(Normal, 0, None)

  // ----- one row -----

  /** Thresholds below one count as one. */
  function Threshold(n: int): (r: nat)
    ensures r >= 1 && (n >= 1 ==> r == n) && (n < 1 ==> r == 1)
  {
    if n < 1 then 1 else n
  }

  /** What `MarkBackendFailure` writes after reading `row`; `until` is its clock plus the cooldown. */
  function Failed(row: Row, threshold: int, until: Instant): Row {
    var failures := row.failures + 1;
    if row.status != Disabled && failures >= Threshold(threshold)
    then Row(Abnormal, failures, Some(until))
    else Row(row.status, failures, row.recoverAt)
  }

  /** The rows `RecoverExpiredBackends` selects, comparing times as texts. */
  predicate Due(row: Row, now: Instant) {
    row.status == Abnormal && row.recoverAt.Some? && AtMost(Format(row.recoverAt.value), Format(now))
  }

  function Recovered(row: Row, now: Instant): Row {
    if Due(row, now) then FRESH else row
  }

  /** The row the administrator writes back after reading `row`; nothing for a status that is refused. */
  function Edited(row: Row, wanted: Wanted): Option<Row> {
    match wanted
    case Keep => Some(row)
    case Want(Abnormal) => None
    case Want(status) => Some(if row.status != status then Row(status, 0, None) else row)
  }

  /** A row is kept by the breaker: it is tripped exactly from the threshold on, and only then has a time. */
  predicate RowOk(row: Row, threshold: int) {
    match row.status
    case Normal => row.failures < Threshold(threshold) && row.recoverAt.None?
    case Abnormal => row.failures >= Threshold(threshold) && row.recoverAt.Some?
    case Disabled => row.recoverAt.None?
  }

  /** Some selection recovers a row exactly when it is abnormal and has a time; an imported one has none. */
  lemma RecoverableIff(row: Row)
    ensures (exists now :: Due(row, now)) <==> row.status == Abnormal && row.recoverAt.Some?
  {
    if row.status == Abnormal && row.recoverAt.Some? {
      assert Due(row, row.recoverAt.value);
    }
  }

  /** The selections that recover a tripped row, in terms of times instead of texts. */
  lemma DueExact(row: Row, now: Instant)
    requires row.status == Abnormal && row.recoverAt.Some? && Valid(row.recoverAt.value) && Valid(now)
    ensures Due(row, now) <==> !Before(now, row.recoverAt.value)
    ensures now.sec != row.recoverAt.value.sec ==> (Due(row, now) <==> row.recoverAt.value.sec < now.sec)
  {
    var until := row.recoverAt.value;
    hide Less, Format;
    OrderExact(now, until);
    LessTotal(Format(now), Format(until));
  }

  // ----- interleaved runs -----

  /** A caller between its read and its write. */
  datatype Call = Call(id: int, row: Row)

  datatype World = World(rows: map<int, Row>, next: int, failing: map<int, Call>, editing: map<int, Call>)

  const INIT := World(map[], 1, map[], map[])

  datatype Step =
    | Create
    | Delete(id: int)
    | ReadFailure(call: int, id: int)
    | WriteFailure(call: int, until: Instant)
    | Succeed(id: int)
    | Select(now: Instant)
    | ReadEdit(call: int, id: int)
    | WriteEdit(call: int, wanted: Wanted)

  /** `UPDATE ... WHERE id = ?`. */
  function Put(rows: map<int, Row>, id: int, row: Row): map<int, Row> {
    if id in rows then rows[id := row] else rows
  }

  function RecoverAll(rows: map<int, Row>, now: Instant): map<int, Row> {
    map id | id in rows :: Recovered(rows[id], now)
  }

  function Next(threshold: int, w: World, s: Step): World {
    match s
    case Create => w.(rows := w.rows[w.next := FRESH], next := w.next + 1)
    case Delete(id) => w.(rows := w.rows - {id})
    case ReadFailure(call, id) =>
      if id in w.rows then w.(failing := w.failing[call := Call(id, w.rows[id])]) else w
    case WriteFailure(call, until) =>
      if call !in w.failing then w else
        var c := w.failing[call];
        w.(rows := Put(w.rows, c.id, Failed(c.row, threshold, until)), failing := w.failing - {call})
    case Succeed(id) => w.(rows := Put(w.rows, id, FRESH))
    case Select(now) => w.(rows := RecoverAll(w.rows, now))
    case ReadEdit(call, id) =>
      if id in w.rows then w.(editing := w.editing[call := Call(id, w.rows[id])]) else w
    case WriteEdit(call, wanted) =>
      if call !in w.editing then w else
        var c := w.editing[call];
        var edited := Edited(c.row, wanted);
        w.(rows := if edited.Some? then Put(w.rows, c.id, edited.value) else w.rows, editing := w.editing - {call})
  }

  function Run(threshold: int, w: World, steps: seq<Step>): World
    decreases steps
  {
    if steps == [] then w else Run(threshold, Next(threshold, w, steps[0]), steps[1..])
  }

  lemma RunStep(threshold: int, w: World, s: Step, rest: seq<Step>)
    ensures Run(threshold, w, [s] + rest) == Run(threshold, Next(threshold, w, s), rest)
  {
    assert ([s] + rest)[1..] == rest;
  }

  lemma {:induction false} RunAppend(threshold: int, w: World, a: seq<Step>, b: seq<Step>)
    ensures Run(threshold, w, a + b) == Run(threshold, Run(threshold, w, a), b)
    decreases a
  {
    if a == [] {
      assert a + b == b;
    } else {
      assert (a + b)[1..] == a[1..] + b;
      RunAppend(threshold, Next(threshold, w, a[0]), a[1..], b);
    }
  }

  predicate WorldOk(w: World, threshold: int) {
    && (forall id | id in w.rows :: RowOk(w.rows[id], threshold))
    && (forall call | call in w.failing :: RowOk(w.failing[call].row, threshold))
    && (forall call | call in w.editing :: RowOk(w.editing[call].row, threshold))
  }

  lemma StepKeepsRows(threshold: int, w: World, s: Step)
    requires WorldOk(w, threshold)
    ensures WorldOk(Next(threshold, w, s), threshold)
  {
    hide AtMost, Format;
  }

  lemma {:induction false} RunKeepsRows(threshold: int, w: World, steps: seq<Step>)
    requires WorldOk(w, threshold)
    ensures WorldOk(Run(threshold, w, steps), threshold)
    decreases steps
  {
    if steps != [] {
      StepKeepsRows(threshold, w, steps[0]);
      RunKeepsRows(threshold, Next(threshold, w, steps[0]), steps[1..]);
    }
  }

  /** Whatever interleaving of failures, successes, selections and stale administrator writes has happened, every
      row is normal below the threshold, abnormal with a recovery time from the threshold on, or disabled. */
  lemma RowInvariant(threshold: int, steps: seq<Step>, id: int)
    requires id in Run(threshold, INIT, steps).rows
    ensures RowOk(Run(threshold, INIT, steps).rows[id], threshold)
  {
    RunKeepsRows(threshold, INIT, steps);
  }

  // ----- the breaker does not trip early -----

  predicate WritesFailure(w: World, s: Step, id: int) {
    s.WriteFailure? && s.call in w.failing && w.failing[s.call].id == id
  }

  /** The failure writes a run makes for one backend. */
  function Writes(threshold: int, w: World, steps: seq<Step>, id: int): nat
    decreases steps
  {
    if steps == [] then 0
    else
      (if WritesFailure(w, steps[0], id) then 1 else 0)
      + Writes(threshold, Next(threshold, w, steps[0]), steps[1..], id)
  }

  predicate CountsAtMost(w: World, id: int, n: nat) {
    && (id in w.rows ==> w.rows[id].failures <= n)
    && (forall call | call in w.failing && w.failing[call].id == id :: w.failing[call].row.failures <= n)
    && (forall call | call in w.editing && w.editing[call].id == id :: w.editing[call].row.failures <= n)
  }

  lemma CountStep(threshold: int, w: World, s: Step, id: int, n: nat)
    requires CountsAtMost(w, id, n)
    ensures CountsAtMost(Next(threshold, w, s), id, if WritesFailure(w, s, id) then n + 1 else n)
  {
    hide AtMost, Format;
  }

  lemma {:induction false} CountBound(threshold: int, w: World, steps: seq<Step>, id: int, n: nat)
    requires CountsAtMost(w, id, n)
    ensures CountsAtMost(Run(threshold, w, steps), id, n + Writes(threshold, w, steps, id))
    decreases steps
  {
    if steps != [] {
      CountStep(threshold, w, steps[0], id, n);
      hide Next, CountsAtMost, WritesFailure;
      var m := if WritesFailure(w, steps[0], id) then n + 1 else n;
      CountBound(threshold, Next(threshold, w, steps[0]), steps[1..], id, m);
    }
  }

  /** Under any interleaving the count is at most the failures written, so a trip needs a threshold of them. */
  lemma NeverTripsEarly(threshold: int, steps: seq<Step>, id: int)
    requires id in Run(threshold, INIT, steps).rows
    ensures Run(threshold, INIT, steps).rows[id].failures <= Writes(threshold, INIT, steps, id)
    ensures Run(threshold, INIT, steps).rows[id].status == Abnormal
        ==> Threshold(threshold) <= Writes(threshold, INIT, steps, id)
  {
    CountBound(threshold, INIT, steps, id, 0);
    RowInvariant(threshold, steps, id);
  }

  // ----- thresholds that change -----

  /** A threshold is read at start-up, so runs of several starts go through several of them. */
  function RunVarying(w: World, steps: seq<(int, Step)>): World
    decreases steps
  {
    if steps == [] then w else RunVarying(Next(steps[0].0, w, steps[0].1), steps[1..])
  }

  /** What a row keeps under any thresholds: a recovery time exactly while it is abnormal, and then a positive count. */
  predicate RowSound(row: Row) {
    (row.recoverAt.Some? <==> row.status == Abnormal) && (row.status == Abnormal ==> row.failures >= 1)
  }

  predicate WorldSound(w: World) {
    && (forall id | id in w.rows :: RowSound(w.rows[id]))
    && (forall call | call in w.failing :: RowSound(w.failing[call].row))
    && (forall call | call in w.editing :: RowSound(w.editing[call].row))
  }

  lemma StepKeepsSound(threshold: int, w: World, s: Step)
    requires WorldSound(w)
    ensures WorldSound(Next(threshold, w, s))
  {
    hide AtMost, Format;
  }

  lemma {:induction false} VaryingKeepsRows(w: World, steps: seq<(int, Step)>)
    requires WorldSound(w)
    ensures WorldSound(RunVarying(w, steps))
    decreases steps
  {
    if steps != [] {
      StepKeepsSound(steps[0].0, w, steps[0].1);
      hide Next, WorldSound;
      VaryingKeepsRows(Next(steps[0].0, w, steps[0].1), steps[1..]);
    }
  }

  /** Whatever the thresholds have been, an abnormal row has a recovery time and no other row has one, so every tripped
      backend is recovered in the end. */
  lemma SoundUnderAnyThresholds(steps: seq<(int, Step)>, id: int)
    requires id in RunVarying(INIT, steps).rows
    ensures RowSound(RunVarying(INIT, steps).rows[id])
  {
    VaryingKeepsRows(INIT, steps);
  }

  /** The rest of the invariant does depend on the threshold: with a lower one a row may stay normal at it. */
  lemma LoweredThreshold(until: Instant)
    ensures var steps := [(3, Create), (3, ReadFailure(0, 1)), (3, WriteFailure(0, until))];
            var w := RunVarying(INIT, steps);
            1 in w.rows && RowOk(w.rows[1], 3) && !RowOk(w.rows[1], 1)
  {
    var s1, s2 := [(3, ReadFailure(0, 1)), (3, WriteFailure(0, until))], [(3, WriteFailure(0, until))];
    assert [(3, Create), (3, ReadFailure(0, 1)), (3, WriteFailure(0, until))][1..] == s1;
    assert s1[1..] == s2 && s2[1..] == [];
    var a := Next(3, INIT, Create);
    var b := Next(3, a, ReadFailure(0, 1));
    assert RunVarying(INIT, [(3, Create), (3, ReadFailure(0, 1)), (3, WriteFailure(0, until))]) == RunVarying(a, s1);
    assert RunVarying(a, s1) == RunVarying(b, s2);
  }
}
