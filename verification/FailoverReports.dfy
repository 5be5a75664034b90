/** What a proxied request reports, records and answers, told from the outcomes alone: statuses as numbers and one
    question per candidate. */
module FailoverReports {
  import opened Failover

  // ----- outcomes in plain terms -----

  predicate Accepts(o: Outcome) {
    o.Answered? && 200 <= o.status < 300
  }

  /** The client went away while the upstream was being asked. */
  predicate Abandons(o: Outcome) {
    o == NoAnswer(true) || o == NotDecoded(true)
  }

  predicate FailsUpstream(o: Outcome) {
    || (o.Answered? && (o.status < 200 || 300 <= o.status))
    || o == NoAnswer(false)
    || o == NotDecoded(false)
  }

  /** Candidate `j` is asked: the client is there, and nothing before it ended the request. */
  predicate Tried(attempts: seq<Attempt>, j: nat)
    requires j < |attempts|
  {
    && !attempts[j].canceled
    && forall i | 0 <= i < j :: !attempts[i].canceled && !Accepts(attempts[i].outcome) && !Abandons(attempts[i].outcome)
  }

  /** Every candidate is tried and none of them ends the request. */
  predicate Exhausted(attempts: seq<Attempt>) {
    forall i | 0 <= i < |attempts| ::
      !attempts[i].canceled && !Accepts(attempts[i].outcome) && !Abandons(attempts[i].outcome)
  }

  /** The status that tells of an outcome. */
  predicate Tells(o: Outcome, status: nat) {
    match o
    case NotRewritten => status == 503
    case NotPrepared => status == 503
    case NoAnswer(canceled) => status == if canceled then 499 else 503
    case NotDecoded(canceled) => status == if canceled then 499 else 503
    case Answered(upstream, _, delivery) =>
      if 200 <= upstream < 300 && delivery != Delivered then status == 503 else status == upstream
  }

  predicate AnswersZero(o: Outcome) {
    o.Answered? && o.status == 0
  }

  /** The answer was read far enough for its fields to be recorded. */
  predicate WasRead(o: Outcome) {
    && o.Answered?
    && if 200 <= o.status < 300 then o.delivery == WriteFailed || o.delivery == Delivered else o.buffered
  }

  /** The last of the first `k` attempts whose answer was read, counted from one; zero for none. */
  predicate LastRead(attempts: seq<Attempt>, k: nat, shown: nat)
    requires k <= |attempts|
  {
    && shown <= k
    && (shown > 0 ==> WasRead(attempts[shown - 1].outcome))
    && forall i | shown <= i < k :: !WasRead(attempts[i].outcome)
  }

  lemma InPlainTerms(o: Outcome)
    ensures Serves(o) <==> Accepts(o)
    ensures Cancels(o) <==> Abandons(o)
    ensures ExchangeFails(o) <==> FailsUpstream(o)
    ensures Records(o) <==> WasRead(o)
    ensures forall status :: Tells(o, status) <==> status == StatusOf(o)
  {
    if o.Answered? {
      Hundreds(o.status);
    }
  }

  lemma Hundreds(status: nat)
    ensures Successful(status) <==> 200 <= status < 300
  {
  }

  lemma TriedIff(attempts: seq<Attempt>, j: nat)
    requires j < |attempts|
    ensures j < Tries(attempts) <==> Tried(attempts, j)
    ensures End(attempts, 0) == |attempts| <==> Exhausted(attempts)
  {
    forall i | 0 <= i < |attempts| ensures EndsAt(attempts, i) <==>
      attempts[i].canceled || Accepts(attempts[i].outcome) || Abandons(attempts[i].outcome)
    {
      InPlainTerms(attempts[i].outcome);
    }
    hide EndsAt, Accepts, Abandons, End;
    var e := End(attempts, 0);
    assert forall i | 0 <= i < e :: !EndsAt(attempts, i);
    assert e < |attempts| ==> EndsAt(attempts, e);
  }

  // ----- reports -----

  lemma {:induction false} AllMarksHas(candidates: seq<int>, attempts: seq<Attempt>, m: Mark)
    requires |candidates| == |attempts|
    ensures m in AllMarks(candidates, attempts) <==>
            exists j :: 0 <= j < |candidates| && m in Marks(candidates[j], attempts[j].outcome)
    decreases attempts
  {
    hide Marks;
    if attempts != [] {
      AllMarksHas(candidates[1..], attempts[1..], m);
      if m in AllMarks(candidates[1..], attempts[1..]) {
        var j :| 0 <= j < |candidates[1..]| && m in Marks(candidates[1..][j], attempts[1..][j].outcome);
        assert m in Marks(candidates[j + 1], attempts[j + 1].outcome);
      }
      if exists j :: 0 <= j < |candidates| && m in Marks(candidates[j], attempts[j].outcome) {
        var j :| 0 <= j < |candidates| && m in Marks(candidates[j], attempts[j].outcome);
        if j > 0 {
          assert m in Marks(candidates[1..][j - 1], attempts[1..][j - 1].outcome);
        }
      }
    }
  }

  lemma MarksOf(id: int, o: Outcome, m: Mark)
    ensures m in Marks(id, o) <==> (m == Failure(id) && FailsUpstream(o)) || (m == Success(id) && Accepts(o))
  {
    InPlainTerms(o);
  }

  /** For every candidate: a failure is reported exactly when it was tried and the upstream did not answer, answered
      unreadably or with a status outside 200..299; a success exactly when it was tried and answered within. */
  lemma ReportsIff(candidates: seq<int>, attempts: seq<Attempt>, canceled: bool, j: nat)
    requires j < |candidates| == |attempts|
    requires forall a, b | 0 <= a < b < |candidates| :: candidates[a] != candidates[b]
    ensures var marks := Walk(candidates, attempts, 0, START, canceled).marks;
            && (Failure(candidates[j]) in marks <==> Tried(attempts, j) && FailsUpstream(attempts[j].outcome))
            && (Success(candidates[j]) in marks <==> Tried(attempts, j) && Accepts(attempts[j].outcome))
  {
    hide Walk, AllMarks, Marks, FailsUpstream, Accepts, Tried;
    Accounting(candidates, attempts, canceled);
    TriedIff(attempts, j);
    var k := Tries(attempts);
    MarkIsOf(candidates, attempts, k, j, Failure(candidates[j]));
    MarkIsOf(candidates, attempts, k, j, Success(candidates[j]));
  }

  lemma MarkIsOf(candidates: seq<int>, attempts: seq<Attempt>, k: nat, j: nat, m: Mark)
    requires j < |candidates| == |attempts| && k <= |candidates| && MarkId(m) == candidates[j]
    requires forall a, b | 0 <= a < b < |candidates| :: candidates[a] != candidates[b]
    ensures m in AllMarks(candidates[..k], attempts[..k]) <==>
            j < k && if m.Failure? then FailsUpstream(attempts[j].outcome) else Accepts(attempts[j].outcome)
  {
    hide AllMarks, Marks, FailsUpstream, Accepts;
    AllMarksHas(candidates[..k], attempts[..k], m);
    forall i | 0 <= i < k
      ensures m in Marks(candidates[..k][i], attempts[..k][i].outcome) <==>
              i == j && if m.Failure? then FailsUpstream(attempts[j].outcome) else Accepts(attempts[j].outcome)
    {
      MarksOf(candidates[i], attempts[i].outcome, m);
    }
  }

  /** The reports are on the candidates at these places, which rise from `low` on. */
  predicate ReportedAt(marks: seq<Mark>, candidates: seq<int>, low: nat, at: seq<nat>) {
    && |at| == |marks|
    && (forall a | 0 <= a < |at| :: low <= at[a] < |candidates| && MarkId(marks[a]) == candidates[at[a]])
    && forall a, b | 0 <= a < b < |at| :: at[a] < at[b]
  }

  lemma ReportedJoin(id: int, first: seq<Mark>, rest: seq<Mark>, candidates: seq<int>, i: nat, later: seq<nat>)
    returns (at: seq<nat>)
    requires i < |candidates| && id == candidates[i]
    requires |first| <= 1 && forall m | m in first :: MarkId(m) == id
    requires ReportedAt(rest, candidates, i + 1, later)
    ensures ReportedAt(first + rest, candidates, i, at)
  {
    hide MarkId;
    at := (if first == [] then [] else [i]) + later;
    var all := first + rest;
    assert forall a | 0 <= a < |first| :: first[a] in first;
    forall a | 0 <= a < |at| ensures i <= at[a] < |candidates| && MarkId(all[a]) == candidates[at[a]] {
      if a >= |first| {
        assert at[a] == later[a - |first|] && all[a] == rest[a - |first|];
      }
    }
  }

  /** The reports come in the order of the candidates. */
  lemma {:induction false} ReportsInOrder(candidates: seq<int>, attempts: seq<Attempt>, i: nat, log: Log,
                                          canceled: bool) returns (at: seq<nat>)
    requires i <= |candidates| == |attempts|
    ensures ReportedAt(Walk(candidates, attempts, i, log, canceled).marks, candidates, i, at)
    decreases |candidates| - i
  {
    WalkStep(candidates, attempts, i, log, canceled);
    hide Walk, Marks, Logged, ReportedAt, Answer, Serves, Cancels;
    NoneReported(candidates);
    at := [];
    if i < |candidates| && !attempts[i].canceled {
      var o := attempts[i].outcome;
      var rest, later := [], [];
      if !EndsAt(attempts, i) {
        var l := Logged(log, i + 1, candidates[i], o);
        rest := Walk(candidates, attempts, i + 1, l, canceled).marks;
        later := ReportsInOrder(candidates, attempts, i + 1, l, canceled);
      }
      MarksShape(candidates[i], o);
      at := ReportedJoin(candidates[i], Marks(candidates[i], o), rest, candidates, i, later);
      assert Marks(candidates[i], o) + [] == Marks(candidates[i], o);
    }
  }

  lemma NoneReported(candidates: seq<int>)
    ensures forall low: nat :: ReportedAt([], candidates, low, [])
  {
  }

  // ----- rows -----

  lemma {:induction false} LastRecordedIsRead(attempts: seq<Attempt>, k: nat)
    requires k <= |attempts|
    ensures LastRead(attempts, k, LastRecorded(attempts, k))
    decreases k
  {
    hide Records, WasRead;
    if k > 0 {
      InPlainTerms(attempts[k - 1].outcome);
      LastRecordedIsRead(attempts, k - 1);
    }
  }

  /** Every row of a try names its attempt and backend and tells of its outcome; an answer outside 200..299 is recorded
      with the upstream's own status. Only the row written last may tell of a cancellation instead, or of a status
      that was never set. */
  lemma RowsSay(candidates: seq<int>, attempts: seq<Attempt>, canceled: bool, j: nat)
    requires j < |candidates| == |attempts| && Tried(attempts, j)
    ensures var rows := Walk(candidates, attempts, 0, START, canceled).rows;
            && j < |rows| && rows[j].attempt == j + 1 && rows[j].backend == candidates[j]
            && LastRead(attempts, j + 1, rows[j].response)
            && (if j == |attempts| - 1 && Exhausted(attempts) && (canceled || AnswersZero(attempts[j].outcome))
                then rows[j].status == (if canceled then 499 else 503)
                else Tells(attempts[j].outcome, rows[j].status))
  {
    hide Walk, Tried, Exhausted, Tells, LastRead;
    TriedIff(attempts, j);
    Accounting(candidates, attempts, canceled);
    LastRecordedIsRead(attempts, j + 1);
    InPlainTerms(attempts[j].outcome);
    var rows := Walk(candidates, attempts, 0, START, canceled).rows;
    if j == |rows| - 1 {
      LastRowSays(candidates, attempts, canceled, j);
    }
  }

  lemma LastRowSays(candidates: seq<int>, attempts: seq<Attempt>, canceled: bool, j: nat)
    requires j < |candidates| == |attempts| && j + 1 == Tries(attempts) && !CanceledBetween(attempts)
    ensures var row, try := LastRow(candidates, attempts, 0, canceled), TryRow(candidates, attempts, j);
            if j == |attempts| - 1 && End(attempts, 0) == |attempts|
            then row == try.(status := if canceled then 499 else if try.status == 0 then 503 else try.status)
            else row == try
    ensures StatusOf(attempts[j].outcome) == 0 <==> AnswersZero(attempts[j].outcome)
  {
    hide TryRow;
    var e := End(attempts, 0);
  }

  /** Without candidates there is one row that names no backend. */
  lemma NoCandidates(canceled: bool)
    ensures Walk([], [], 0, START, canceled)
         == Trace([], [Log(0, 0, if canceled then 499 else 503, 0)], [if canceled then Canceled else Unavailable])
  {
  }

  // ----- the response -----

  /** Where the request ends when it is not exhausted. */
  predicate StopsAt(attempts: seq<Attempt>, k: nat)
    requires k < |attempts|
  {
    && (attempts[k].canceled || Accepts(attempts[k].outcome) || Abandons(attempts[k].outcome))
    && forall i | 0 <= i < k :: !attempts[i].canceled && !Accepts(attempts[i].outcome) && !Abandons(attempts[i].outcome)
  }

  lemma StopsAtEnd(attempts: seq<Attempt>, k: nat)
    requires k < |attempts|
    ensures StopsAt(attempts, k) <==> k == End(attempts, 0)
  {
    forall i | 0 <= i < |attempts| ensures EndsAt(attempts, i) <==>
      attempts[i].canceled || Accepts(attempts[i].outcome) || Abandons(attempts[i].outcome)
    {
      InPlainTerms(attempts[i].outcome);
    }
    hide EndsAt, Accepts, Abandons, End;
    var e := End(attempts, 0);
    assert forall i | 0 <= i < e :: !EndsAt(attempts, i);
    assert e < |attempts| ==> EndsAt(attempts, e);
  }

  /** The response of an exhausted request, and of one that stops at a candidate: the upstream's own answer exactly
      when it was accepted and could be passed on. */
  lemma ResponseIs(candidates: seq<int>, attempts: seq<Attempt>, canceled: bool)
    requires |candidates| == |attempts|
    ensures var responses := Walk(candidates, attempts, 0, START, canceled).responses;
            && (Exhausted(attempts) ==> responses == [if canceled then Canceled else Unavailable])
            && forall k | 0 <= k < |attempts| && StopsAt(attempts, k) ::
                 responses ==
                 if attempts[k].canceled || Abandons(attempts[k].outcome) then [Canceled]
                 else if attempts[k].outcome.delivery == WriteFailed || attempts[k].outcome.delivery == Delivered
                      then [Proxied(candidates[k])]
                 else []
  {
    hide Walk;
    WalkResponses(candidates, attempts, 0, START, canceled);
    if attempts != [] {
      TriedIff(attempts, 0);
    }
    forall k | 0 <= k < |attempts| && StopsAt(attempts, k)
      ensures k == End(attempts, 0) && (Serves(attempts[k].outcome) <==> Accepts(attempts[k].outcome))
              && (Cancels(attempts[k].outcome) <==> Abandons(attempts[k].outcome))
    {
      StopsAtEnd(attempts, k);
      InPlainTerms(attempts[k].outcome);
    }
  }
}
