/** The failover loop of a proxied request: it walks the selected backends, reports their outcomes to the breaker
    and writes usage rows. Everything that happens upstream, and the client's cancellation, is input. */
module Failover {
  import opened BackendTable
  import C = Cooldown
  import opened StoredTime

  /** How the answer to a 2xx response fares on its way to the client. */
  datatype Delivery = NotAdapted | NotBuffered | WriteFailed | Delivered

  datatype Outcome =
    | NotRewritten
    | NotPrepared
    | NoAnswer(canceled: bool)
    | NotDecoded(canceled: bool)
    | Answered(status: nat, buffered: bool, delivery: Delivery)

  /** One pass of the loop: whether the client has cancelled when it begins, and what then happens. */
  datatype Attempt = Attempt(canceled: bool, outcome: Outcome)

  datatype Selection = NoBackend | SelectionFailed | SelectionCanceled | Selected(candidates: seq<int>)

  datatype Mark = Failure(id: int) | Success(id: int)

  /** The usage row under construction; `response` is the attempt whose response fields it carries, 0 for none. */
  datatype Log = Log(attempt: nat, backend: int, status: nat, response: nat)

  datatype Response = Unavailable | Canceled | Proxied(id: int)

  datatype Trace = Trace(marks: seq<Mark>, rows: seq<Log>, responses: seq<Response>)

  const START := Log(0, 0, 0, 0)

  predicate Successful(status: nat) {
    status / 100 == 2
  }

  // ----- one attempt -----

  predicate Serves(o: Outcome) {
    o.Answered? && Successful(o.status)
  }

  /** The upstream was asked and failed. */
  predicate ExchangeFails(o: Outcome) {
    match o
    case NoAnswer(canceled) => !canceled
    case NotDecoded(canceled) => !canceled
    case Answered(status, _, _) => !Successful(status)
    case _ => false
  }

  predicate Cancels(o: Outcome) {
    (o.NoAnswer? || o.NotDecoded?) && o.canceled
  }

  /** The status the attempt's usage row records. */
  function StatusOf(o: Outcome): nat {
    match o
    case Answered(status, _, delivery) => if Successful(status) && delivery != Delivered then 503 else status
    case _ => if Cancels(o) then 499 else 503
  }

  /** The attempt's response was read into the usage row. */
  predicate Records(o: Outcome) {
    o.Answered? && if Successful(o.status) then o.delivery != NotAdapted && o.delivery != NotBuffered else o.buffered
  }

  function Logged(log: Log, attempt: nat, id: int, o: Outcome): Log {
    Log(attempt, id, StatusOf(o), if Records(o) then attempt else log.response)
  }

  function Marks(id: int, o: Outcome): seq<Mark> {
    if Serves(o) then [Success(id)] else if ExchangeFails(o) then [Failure(id)] else []
  }

  function Answer(id: int, o: Outcome): seq<Response> {
    if Cancels(o) then [Canceled]
    else if Serves(o) && (o.delivery == Delivered || o.delivery == WriteFailed) then [Proxied(id)]
    else []
  }

  // ----- the loop -----

  function Finish(log: Log, canceled: bool): Trace {
    if canceled then Trace([], [log.(status := 499)], [Canceled])
    else Trace([], [log.(status := if log.status == 0 then 503 else log.status)], [Unavailable])
  }

  function Walk(candidates: seq<int>, attempts: seq<Attempt>, i: nat, log: Log, canceled: bool): Trace
    requires i <= |candidates| == |attempts|
    decreases |candidates| - i
  {
    if i == |candidates| then Finish(log, canceled)
    else if attempts[i].canceled then Trace([], [log.(status := 499)], [Canceled])
    else
      var o := attempts[i].outcome;
      var l := Logged(log, i + 1, candidates[i], o);
      if Serves(o) || Cancels(o) then Trace(Marks(candidates[i], o), [l], Answer(candidates[i], o))
      else
        Continued(Marks(candidates[i], o), l, i + 1 < |candidates|, Walk(candidates, attempts, i + 1, l, canceled))
  }

  /** A failed attempt before the rest of the run; its row is written when another candidate follows. */
  function Continued(marks: seq<Mark>, log: Log, more: bool, rest: Trace): Trace {
    Trace(marks + rest.marks, (if more then [log] else []) + rest.rows, rest.responses)
  }

  /** One pass of the loop once the client is known to be there. `done` says that the request ends with it. */
  method Try(log: Log, attempt: nat, id: int, o: Outcome)
    returns (next: Log, marks: seq<Mark>, responses: seq<Response>, done: bool)
    ensures next == Logged(log, attempt, id, o) && marks == Marks(id, o)
    ensures done <==> Serves(o) || Cancels(o)
    ensures responses == Answer(id, o)
  {
    next, marks, responses, done := log.(attempt := attempt, backend := id), [], [], false;
    match o {
      case NotRewritten =>
        next := next.(status := 503);
      case NotPrepared =>
        next := next.(status := 503);
      case NoAnswer(gone) =>
        if gone {
          return next.(status := 499), [], [Canceled], true;
        }
        marks := [Failure(id)];
        next := next.(status := 503);
      case NotDecoded(gone) =>
        if gone {
          return next.(status := 499), [], [Canceled], true;
        }
        marks := [Failure(id)];
        next := next.(status := 503);
      case Answered(status, buffered, delivery) =>
        next := next.(status := status);
        if status / 100 != 2 {
          if buffered {
            next := next.(response := attempt);
          }
          marks := [Failure(id)];
          return;
        }
        marks := [Success(id)];
        done := true;
        if delivery == NotAdapted || delivery == NotBuffered {
          next := next.(status := 503);
          return;
        }
        next := next.(response := attempt);
        if delivery == WriteFailed {
          next := next.(status := 503);
        }
        responses := [Proxied(id)];
    }
  }

  /** The loop over the candidates and what follows it; the last row is the one the deferred function appends. */
  method TryCandidates(candidates: seq<int>, attempts: seq<Attempt>, canceled: bool)
    returns (marks: seq<Mark>, rows: seq<Log>, responses: seq<Response>)
    requires |attempts| == |candidates|
    ensures Trace(marks, rows, responses) == Walk(candidates, attempts, 0, START, canceled)
  {
    hide Walk, Logged, Marks, Answer, Serves, Cancels;
    marks, rows, responses := [], [], [];
    var log := START;
    var n := |candidates|;
    for i := 0 to n
      invariant var rest := Walk(candidates, attempts, i, log, canceled);
                && Walk(candidates, attempts, 0, START, canceled)
                   == Trace(marks + rest.marks, rows + rest.rows, rest.responses)
    {
      WalkStep(candidates, attempts, i, log, canceled);
      if attempts[i].canceled {
        log := log.(status := 499);
        return marks, rows + [log], [Canceled];
      }
      ghost var before := Walk(candidates, attempts, i, log, canceled);
      ghost var oldMarks, oldRows := marks, rows;
      var reports, answer, done;
      log, reports, answer, done := Try(log, i + 1, candidates[i], attempts[i].outcome);
      marks := marks + reports;
      if done {
        return marks, rows + [log], answer;
      }
      if i < n - 1 {
        rows := rows + [log];
      }
      ghost var rest := Walk(candidates, attempts, i + 1, log, canceled);
      assert oldMarks + before.marks == marks + rest.marks;
      assert oldRows + before.rows == rows + rest.rows;
    }
    WalkStep(candidates, attempts, n, log, canceled);
    if canceled {
      log := log.(status := 499);
      return marks, rows + [log], [Canceled];
    }
    if log.status == 0 {
      log := log.(status := 503);
    }
    rows := rows + [log];
    responses := [Unavailable];
  }

  lemma WalkStep(candidates: seq<int>, attempts: seq<Attempt>, i: nat, log: Log, canceled: bool)
    requires i <= |candidates| == |attempts|
    ensures i == |candidates| ==> Walk(candidates, attempts, i, log, canceled) == Finish(log, canceled)
    ensures i < |candidates| && attempts[i].canceled
        ==> Walk(candidates, attempts, i, log, canceled) == Trace([], [log.(status := 499)], [Canceled])
    ensures i < |candidates| && !attempts[i].canceled && (Serves(attempts[i].outcome) || Cancels(attempts[i].outcome))
        ==> Walk(candidates, attempts, i, log, canceled)
            == Trace(Marks(candidates[i], attempts[i].outcome),
                     [Logged(log, i + 1, candidates[i], attempts[i].outcome)],
                     Answer(candidates[i], attempts[i].outcome))
    ensures i < |candidates| && !attempts[i].canceled && !Serves(attempts[i].outcome) && !Cancels(attempts[i].outcome)
        ==> Walk(candidates, attempts, i, log, canceled)
            == Continued(Marks(candidates[i], attempts[i].outcome),
                         Logged(log, i + 1, candidates[i], attempts[i].outcome),
                         i + 1 < |candidates|,
                         Walk(candidates, attempts, i + 1,
                              Logged(log, i + 1, candidates[i], attempts[i].outcome), canceled))
  {
  }

  /** `handleProxy` from the selection on. */
  method HandleProxy(selection: Selection, attempts: seq<Attempt>, canceled: bool)
    returns (marks: seq<Mark>, rows: seq<Log>, responses: seq<Response>)
    requires selection.Selected? ==> |attempts| == |selection.candidates|
    ensures selection.Selected? ==>
              Trace(marks, rows, responses) == Walk(selection.candidates, attempts, 0, START, canceled)
    ensures selection == NoBackend ==> rows == []
    ensures selection.SelectionFailed? ==> rows == [Log(0, 0, 503, 0)]
    ensures selection.SelectionCanceled? ==> rows == [Log(0, 0, 499, 0)]
    ensures !selection.Selected? ==>
              marks == [] && responses == [if selection.SelectionCanceled? then Canceled else Unavailable]
  {
    match selection {
      case NoBackend =>
        return [], [], [Unavailable];
      case SelectionFailed =>
        return [], [START.(status := 503)], [Unavailable];
      case SelectionCanceled =>
        return [], [START.(status := 499)], [Canceled];
      case Selected(candidates) =>
        marks, rows, responses := TryCandidates(candidates, attempts, canceled);
    }
  }

  // ----- where the loop ends -----

  /** The loop ends at attempt `i`: cancelled before it, cancelled during it, or served by it. */
  predicate EndsAt(attempts: seq<Attempt>, i: nat)
    requires i < |attempts|
  {
    attempts[i].canceled || Serves(attempts[i].outcome) || Cancels(attempts[i].outcome)
  }

  /** Where the loop ends; the number of attempts when it runs through. */
  function End(attempts: seq<Attempt>, i: nat): (k: nat)
    requires i <= |attempts|
    ensures i <= k <= |attempts| && forall j | i <= j < k :: !EndsAt(attempts, j)
    ensures k < |attempts| ==> EndsAt(attempts, k)
    decreases |attempts| - i
  {
    if i == |attempts| || EndsAt(attempts, i) then i else End(attempts, i + 1)
  }

  /** A cancellation is found before an attempt is made. */
  predicate CanceledBetween(attempts: seq<Attempt>) {
    var k := End(attempts, 0);
    k < |attempts| && attempts[k].canceled
  }

  /** The first candidate from `i` on that is not tried. */
  function Untried(attempts: seq<Attempt>, i: nat): (k: nat)
    requires i <= |attempts|
    ensures i <= k <= |attempts|
  {
    var e := End(attempts, i);
    if e == |attempts| || attempts[e].canceled then e else e + 1
  }

  lemma UntriedStep(attempts: seq<Attempt>, i: nat)
    requires i < |attempts|
    ensures Untried(attempts, i)
         == if attempts[i].canceled then i else if EndsAt(attempts, i) then i + 1 else Untried(attempts, i + 1)
  {
  }

  /** How many candidates are tried. */
  function Tries(attempts: seq<Attempt>): (k: nat)
    ensures k <= |attempts| && forall j | 0 <= j < k - 1 :: !EndsAt(attempts, j)
    ensures forall j | 0 <= j < k :: !attempts[j].canceled
  {
    var k := End(attempts, 0);
    assert forall j | 0 <= j < k :: !EndsAt(attempts, j) && !attempts[j].canceled;
    Untried(attempts, 0)
  }

  /** Without cancellation these are all up to and with the first that answers 2xx. */
  lemma TriesUncanceled(attempts: seq<Attempt>)
    requires forall a | a in attempts :: !a.canceled && !Cancels(a.outcome)
    ensures var k := Tries(attempts);
            && (forall j | 0 <= j < k - 1 :: !Serves(attempts[j].outcome))
            && (k < |attempts| ==> k > 0 && Serves(attempts[k - 1].outcome))
  {
    var k := End(attempts, 0);
    assert forall j | 0 <= j < k :: !EndsAt(attempts, j) && !Serves(attempts[j].outcome);
    if k < |attempts| {
      assert attempts[k] in attempts;
    }
  }

  // ----- accounting -----

  function AllMarks(candidates: seq<int>, attempts: seq<Attempt>): seq<Mark>
    requires |candidates| == |attempts|
    decreases attempts
  {
    if attempts == [] then []
    else Marks(candidates[0], attempts[0].outcome) + AllMarks(candidates[1..], attempts[1..])
  }

  /** The attempt whose response a usage row shows: the last one up to it whose response was read. */
  function LastRecorded(attempts: seq<Attempt>, k: nat): nat
    requires k <= |attempts|
  {
    if k == 0 then 0 else if Records(attempts[k - 1].outcome) then k else LastRecorded(attempts, k - 1)
  }

  /** What the row of one try says. */
  function TryRow(candidates: seq<int>, attempts: seq<Attempt>, j: nat): Log
    requires j < |candidates| == |attempts|
  {
    Log(j + 1, candidates[j], StatusOf(attempts[j].outcome), LastRecorded(attempts, j + 1))
  }

  function TryRows(candidates: seq<int>, attempts: seq<Attempt>, low: nat, high: int): (rows: seq<Log>)
    requires high <= |candidates| == |attempts|
    ensures |rows| == if low < high then high - low else 0
    ensures forall j | 0 <= j < |rows| :: rows[j] == TryRow(candidates, attempts, low + j)
    decreases high - low
  {
    if low >= high then [] else [TryRow(candidates, attempts, low)] + TryRows(candidates, attempts, low + 1, high)
  }

  /** The row under construction once `k` tries are over. */
  function LogAfter(candidates: seq<int>, attempts: seq<Attempt>, k: nat): Log
    requires k <= |candidates| == |attempts|
  {
    if k == 0 then START else TryRow(candidates, attempts, k - 1)
  }

  /** The row written last: it carries 499 when the client has cancelled, whichever way that was found. */
  function LastRow(candidates: seq<int>, attempts: seq<Attempt>, i: nat, canceled: bool): Log
    requires i <= |candidates| == |attempts|
  {
    var k := End(attempts, i);
    if k < |attempts| && !attempts[k].canceled then TryRow(candidates, attempts, k)
    else
      var log := LogAfter(candidates, attempts, k);
      log.(status := if k < |attempts| || canceled then 499 else if log.status == 0 then 503 else log.status)
  }

  lemma {:induction false} WalkRows(candidates: seq<int>, attempts: seq<Attempt>, i: nat, log: Log, canceled: bool)
    requires i <= |candidates| == |attempts| && log == LogAfter(candidates, attempts, i)
    ensures Walk(candidates, attempts, i, log, canceled).rows
         == TryRows(candidates, attempts, i,
                    if End(attempts, i) == |attempts| then |attempts| - 1 else End(attempts, i))
            + [LastRow(candidates, attempts, i, canceled)]
    decreases |candidates| - i
  {
    WalkStep(candidates, attempts, i, log, canceled);
    if i < |attempts| {
      LoggedIsTryRow(candidates, attempts, i);
      hide Walk, Logged, TryRow, Marks, Answer, Serves, Cancels;
      if !EndsAt(attempts, i) {
        WalkRows(candidates, attempts, i + 1, TryRow(candidates, attempts, i), canceled);
      }
    }
  }

  lemma LoggedIsTryRow(candidates: seq<int>, attempts: seq<Attempt>, i: nat)
    requires i < |candidates| == |attempts|
    ensures Logged(LogAfter(candidates, attempts, i), i + 1, candidates[i], attempts[i].outcome)
         == TryRow(candidates, attempts, i)
  {
    assert LastRecorded(attempts, i + 1)
        == if Records(attempts[i].outcome) then i + 1 else LastRecorded(attempts, i);
  }

  lemma AllMarksStep(candidates: seq<int>, attempts: seq<Attempt>, i: nat, k: nat)
    requires i < k <= |candidates| == |attempts|
    ensures AllMarks(candidates[i..k], attempts[i..k])
         == Marks(candidates[i], attempts[i].outcome) + AllMarks(candidates[i + 1..k], attempts[i + 1..k])
  {
    assert candidates[i..k][1..] == candidates[i + 1..k] && attempts[i..k][1..] == attempts[i + 1..k];
  }

  lemma NoMarks()
    ensures AllMarks([], []) == []
  {
  }

  lemma {:induction false} WalkMarks(candidates: seq<int>, attempts: seq<Attempt>, i: nat, log: Log, canceled: bool)
    requires i <= |candidates| == |attempts|
    ensures Walk(candidates, attempts, i, log, canceled).marks
         == AllMarks(candidates[i..Untried(attempts, i)], attempts[i..Untried(attempts, i)])
    decreases |candidates| - i
  {
    WalkStep(candidates, attempts, i, log, canceled);
    NoMarks();
    assert candidates[i..i] == [] && attempts[i..i] == [];
    if i < |attempts| {
      UntriedStep(attempts, i);
      hide Walk, Marks, Logged, Answer, AllMarks, Untried;
      if !attempts[i].canceled {
        var o := attempts[i].outcome;
        AllMarksStep(candidates, attempts, i, Untried(attempts, i));
        if EndsAt(attempts, i) {
          assert attempts[i + 1..i + 1] == [] && candidates[i + 1..i + 1] == [];
          assert Marks(candidates[i], o) + [] == Marks(candidates[i], o);
        } else {
          WalkMarks(candidates, attempts, i + 1, Logged(log, i + 1, candidates[i], o), canceled);
        }
      }
    }
  }

  /** The account of every request, cancelled or not: the reports are those of the candidates tried, in order, a
      failure for every upstream exchange that failed and a success for a 2xx. There is a row for every try, numbered
      from one, and one more when a cancellation is found between two tries; every row but the last says what its try
      came to, and the last one also tells of a cancellation. */
  lemma Accounting(candidates: seq<int>, attempts: seq<Attempt>, canceled: bool)
    requires |candidates| == |attempts| && candidates != []
    ensures var t := Walk(candidates, attempts, 0, START, canceled);
            var k := Tries(attempts);
            && t.marks == AllMarks(candidates[..k], attempts[..k])
            && |t.rows| == (if CanceledBetween(attempts) then k + 1 else k)
            && (forall j | 0 <= j < |t.rows| - 1 :: t.rows[j] == TryRow(candidates, attempts, j))
            && t.rows[|t.rows| - 1] == LastRow(candidates, attempts, 0, canceled)
  {
    WalkRows(candidates, attempts, 0, START, canceled);
    WalkMarks(candidates, attempts, 0, START, canceled);
    assert candidates[0..Tries(attempts)] == candidates[..Tries(attempts)];
    assert attempts[0..Tries(attempts)] == attempts[..Tries(attempts)];
  }

  /** There is exactly one row per try if and only if no cancellation is found between two tries. */
  lemma OneRowPerTryIff(candidates: seq<int>, attempts: seq<Attempt>, canceled: bool)
    requires |candidates| == |attempts| && candidates != []
    ensures |Walk(candidates, attempts, 0, START, canceled).rows| == Tries(attempts) <==> !CanceledBetween(attempts)
  {
    hide Walk, TryRow, LastRow;
    Accounting(candidates, attempts, canceled);
  }

  /** A client that cancels between two tries has the finished try written twice, the second time with status 499.
      Before the first try the row names no backend. */
  lemma CancellationRepeatsARow(candidates: seq<int>, attempts: seq<Attempt>, canceled: bool)
    requires |candidates| == |attempts| && CanceledBetween(attempts)
    ensures var rows := Walk(candidates, attempts, 0, START, canceled).rows;
            var k := Tries(attempts);
            && |rows| == k + 1
            && (k > 0 ==> rows[k] == rows[k - 1].(status := 499) && rows[k].attempt == rows[k - 1].attempt == k)
            && (k == 0 ==> rows == [Log(0, 0, 499, 0)])
  {
    hide Walk;
    Accounting(candidates, attempts, canceled);
  }

  /** One backend that could not be asked, then a cancellation: two rows for one try. */
  lemma RepeatedRowExample()
    ensures var attempts := [Attempt(false, NotPrepared), Attempt(true, NotPrepared)];
            && Tries(attempts) == 1
            && Walk([7, 8], attempts, 0, START, true).rows == [Log(1, 7, 503, 0), Log(1, 7, 499, 0)]
  {
    var attempts := [Attempt(false, NotPrepared), Attempt(true, NotPrepared)];
    assert !EndsAt(attempts, 0) && EndsAt(attempts, 1);
    assert End(attempts, 1) == 1 && End(attempts, 0) == 1;
    assert LastRecorded(attempts, 1) == 0;
    WalkRows([7, 8], attempts, 0, START, true);
    assert TryRows([7, 8], attempts, 0, 1) == [TryRow([7, 8], attempts, 0)];
  }

  // ----- responses -----

  /** The attempt whose 2xx answer could not be turned into a response. */
  predicate Drops(o: Outcome) {
    Serves(o) && (o.delivery == NotAdapted || o.delivery == NotBuffered)
  }

  lemma {:induction false} WalkResponses(candidates: seq<int>, attempts: seq<Attempt>, i: nat, log: Log, canceled: bool)
    requires i <= |candidates| == |attempts|
    ensures var t := Walk(candidates, attempts, i, log, canceled);
            var k := End(attempts, i);
            t.responses ==
              if k == |attempts| then [if canceled then Canceled else Unavailable]
              else if attempts[k].canceled then [Canceled]
              else Answer(candidates[k], attempts[k].outcome)
    decreases |candidates| - i
  {
    if i < |attempts| && !EndsAt(attempts, i) {
      WalkResponses(candidates, attempts, i + 1, Logged(log, i + 1, candidates[i], attempts[i].outcome), canceled);
    }
  }

  /** A request never gets two responses, and it gets none exactly when it ends at a 2xx answer that could not be
      adapted or read. */
  lemma OneResponse(candidates: seq<int>, attempts: seq<Attempt>, canceled: bool)
    requires |candidates| == |attempts|
    ensures var t := Walk(candidates, attempts, 0, START, canceled);
            var k := End(attempts, 0);
            && |t.responses| <= 1
            && (t.responses == [] <==> k < |attempts| && !attempts[k].canceled && Drops(attempts[k].outcome))
            && forall id :: t.responses == [Proxied(id)] ==>
                 k < |attempts| && id == candidates[k] && Serves(attempts[k].outcome)
  {
    WalkResponses(candidates, attempts, 0, START, canceled);
  }

  // ----- reports reach only selected backends -----

  function MarkId(m: Mark): int {
    match m case Failure(id) => id case Success(id) => id
  }

  lemma MarksShape(id: int, o: Outcome)
    ensures |Marks(id, o)| <= 1 && forall m | m in Marks(id, o) :: MarkId(m) == id && (m.Success? ==> Serves(o))
  {
  }

  /** One report per backend, and a success only at the end. */
  predicate ProperMarks(marks: seq<Mark>, ids: seq<int>) {
    && (forall m | m in marks :: MarkId(m) in ids)
    && (forall a, b | 0 <= a < b < |marks| :: MarkId(marks[a]) != MarkId(marks[b]))
    && (forall a | 0 <= a < |marks| && marks[a].Success? :: a == |marks| - 1)
  }

  lemma ProperMarksJoin(id: int, first: seq<Mark>, rest: seq<Mark>, ids: seq<int>)
    requires |first| <= 1 && (forall m | m in first :: m == Failure(id)) && ProperMarks(rest, ids) && id !in ids
    ensures ProperMarks(first + rest, [id] + ids)
  {
    var all := first + rest;
    assert forall a | 0 <= a < |all| :: all[a] == (if a < |first| then first[a] else rest[a - |first|]);
    assert (forall a | 0 <= a < |first| :: first[a] in first) && forall a | 0 <= a < |rest| :: rest[a] in rest;
  }

  /** Cancelled or not, every report is on a candidate, and no candidate is reported on twice. */
  lemma {:induction false} MarksAreCandidates(candidates: seq<int>, attempts: seq<Attempt>, i: nat, log: Log,
                                              canceled: bool)
    requires i <= |candidates| == |attempts|
    requires forall a, b | 0 <= a < b < |candidates| :: candidates[a] != candidates[b]
    ensures ProperMarks(Walk(candidates, attempts, i, log, canceled).marks, candidates[i..])
    decreases |candidates| - i
  {
    WalkStep(candidates, attempts, i, log, canceled);
    if i < |candidates| {
      var id, o := candidates[i], attempts[i].outcome;
      MarksShape(id, o);
      hide Walk, Marks, Logged;
      assert candidates[i..] == [id] + candidates[i + 1..];
      if !EndsAt(attempts, i) {
        var l := Logged(log, i + 1, id, o);
        MarksAreCandidates(candidates, attempts, i + 1, l, canceled);
        ProperMarksJoin(id, Marks(id, o), Walk(candidates, attempts, i + 1, l, canceled).marks, candidates[i + 1..]);
      }
    }
  }

  /** The report as the breaker's table takes it. */
  function Report(m: Mark, until: Instant): Event {
    match m
    case Failure(id) => Fails(id, until)
    case Success(id) => Succeeds(id)
  }

  /** A proxied request is a legal operation of the breaker's runs: it reports only on backends it selected. */
  lemma ProxyIsLegal(threshold: int, t: Table, now: Instant, candidates: seq<int>, attempts: seq<Attempt>,
                     canceled: bool, reports: seq<Event>)
    requires |candidates| == |attempts| && forall a, b | 0 <= a < b < |candidates| :: candidates[a] != candidates[b]
    requires forall id | id in candidates :: C.Selectable(C.Selecting(threshold, t, now), id)
    requires var marks := Walk(candidates, attempts, 0, START, canceled).marks;
             |reports| == |marks| && forall a | 0 <= a < |marks| :: exists u :: reports[a] == Report(marks[a], u)
    ensures C.Legal(threshold, t, C.Request(now, reports))
  {
    var marks := Walk(candidates, attempts, 0, START, canceled).marks;
    MarksAreCandidates(candidates, attempts, 0, START, canceled);
    forall e | e in reports ensures C.ReportsOn(C.Selecting(threshold, t, now), e) {
      assert ProperMarks(marks, candidates[0..]) && candidates[0..] == candidates;
      var a :| 0 <= a < |reports| && reports[a] == e;
      assert marks[a] in marks;
      assert MarkId(marks[a]) in candidates;
    }
  }
}
