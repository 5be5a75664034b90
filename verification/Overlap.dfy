/** Failures of one backend that overlap: what they count, exactly when one of them is lost, and exactly when they trip
    the backend. */
module Overlap {
  import opened Breaker
  import opened StoredTime
  import opened Text

  /** Nothing but failures happens to the backend. */
  predicate OnlyFails(s: Step, id: int) {
    !s.Select? && !((s.Succeed? || s.Delete? || s.ReadEdit?) && s.id == id)
  }

  /** No caller is between its read and its write of this backend. */
  predicate Idle(w: World, id: int) {
    && id in w.rows && id < w.next
    && (forall call | call in w.failing :: w.failing[call].id != id)
    && (forall call | call in w.editing :: w.editing[call].id != id)
  }

  predicate Overlapping(w: World, id: int, low: nat, writes: nat) {
    && id in w.rows && id < w.next
    && low + (if writes > 0 then 1 else 0) <= w.rows[id].failures <= low + writes
    && (forall call | call in w.failing && w.failing[call].id == id ::
          low <= w.failing[call].row.failures <= low + writes)
    && (forall call | call in w.editing :: w.editing[call].id != id)
  }

  lemma {:induction false} OverlapRun(threshold: int, w: World, steps: seq<Step>, id: int, low: nat, writes: nat)
    requires Overlapping(w, id, low, writes) && forall s | s in steps :: OnlyFails(s, id)
    ensures Overlapping(Run(threshold, w, steps), id, low, writes + Writes(threshold, w, steps, id))
    decreases steps
  {
    hide AtMost, Format;
    if steps != [] {
      assert OnlyFails(steps[0], id);
      var n := if WritesFailure(w, steps[0], id) then writes + 1 else writes;
      OverlapRun(threshold, Next(threshold, w, steps[0]), steps[1..], id, low, n);
    }
  }

  /** However `k >= 1` failures of one backend overlap, its count goes up by at least one and at most `k`. */
  lemma OverlappingFailures(threshold: int, w: World, steps: seq<Step>, id: int)
    requires Idle(w, id) && (forall s | s in steps :: OnlyFails(s, id)) && Writes(threshold, w, steps, id) >= 1
    ensures id in Run(threshold, w, steps).rows
    ensures w.rows[id].failures + 1 <= Run(threshold, w, steps).rows[id].failures
         <= w.rows[id].failures + Writes(threshold, w, steps, id)
  {
    hide Run, Writes, OnlyFails;
    OverlapRun(threshold, w, steps, id, w.rows[id].failures, 0);
  }

  function Serial(id: int, k: nat, until: Instant): seq<Step> {
    if k == 0 then [] else [ReadFailure(0, id), WriteFailure(0, until)] + Serial(id, k - 1, until)
  }

  function Reads(id: int, k: nat): seq<Step> {
    if k == 0 then [] else [ReadFailure(k, id)] + Reads(id, k - 1)
  }

  function LateWrites(k: nat, until: Instant): seq<Step> {
    if k == 0 then [] else [WriteFailure(k, until)] + LateWrites(k - 1, until)
  }

  /** All callers read before the first one writes. */
  function Parallel(id: int, k: nat, until: Instant): seq<Step> {
    Reads(id, k) + LateWrites(k, until)
  }

  lemma {:induction false} SerialCount(threshold: int, w: World, id: int, k: nat, until: Instant)
    requires id in w.rows
    ensures id in Run(threshold, w, Serial(id, k, until)).rows
    ensures Run(threshold, w, Serial(id, k, until)).rows[id].failures == w.rows[id].failures + k
    ensures w.rows[id].status != Disabled ==> Run(threshold, w, Serial(id, k, until)).rows[id].status != Disabled
    decreases k
  {
    if k > 0 {
      var u := Next(threshold, w, ReadFailure(0, id));
      var v := Next(threshold, u, WriteFailure(0, until));
      var rest := Serial(id, k - 1, until);
      assert Serial(id, k, until) == [ReadFailure(0, id)] + ([WriteFailure(0, until)] + rest);
      RunStep(threshold, w, ReadFailure(0, id), [WriteFailure(0, until)] + rest);
      RunStep(threshold, u, WriteFailure(0, until), rest);
      SerialCount(threshold, v, id, k - 1, until);
    }
  }

  predicate AllRead(w: World, id: int, k: nat, row: Row) {
    forall call | 1 <= call <= k :: call in w.failing && w.failing[call] == Call(id, row)
  }

  lemma {:induction false} ReadsRun(threshold: int, w: World, id: int, k: nat)
    requires id in w.rows
    ensures AllRead(Run(threshold, w, Reads(id, k)), id, k, w.rows[id])
    ensures Run(threshold, w, Reads(id, k)).rows == w.rows
    ensures forall call | call > k && call in w.failing ::
              && call in Run(threshold, w, Reads(id, k)).failing
              && Run(threshold, w, Reads(id, k)).failing[call] == w.failing[call]
    decreases k
  {
    if k > 0 {
      var u := Next(threshold, w, ReadFailure(k, id));
      RunStep(threshold, w, ReadFailure(k, id), Reads(id, k - 1));
      ReadsRun(threshold, u, id, k - 1);
    }
  }

  lemma {:induction false} LateWritesRun(threshold: int, w: World, id: int, k: nat, row: Row, until: Instant)
    requires id in w.rows && AllRead(w, id, k, row)
    ensures id in Run(threshold, w, LateWrites(k, until)).rows
    ensures k > 0 ==> Run(threshold, w, LateWrites(k, until)).rows[id] == Failed(row, threshold, until)
    ensures k == 0 ==> Run(threshold, w, LateWrites(k, until)).rows[id] == w.rows[id]
    decreases k
  {
    if k > 0 {
      var u := Next(threshold, w, WriteFailure(k, until));
      RunStep(threshold, w, WriteFailure(k, until), LateWrites(k - 1, until));
      LateWritesRun(threshold, u, id, k - 1, row, until);
    }
  }

  /** Both bounds are met: one failure after the other counts them all, and failures that all read first count once.
      So `k` real failures may cross the threshold without tripping a backend. */
  lemma OverlapBoundsAreMet(threshold: int, w: World, id: int, k: nat, until: Instant)
    requires id in w.rows && RowOk(w.rows[id], threshold) && w.rows[id].status == Normal && k >= 1
    ensures id in Run(threshold, w, Serial(id, k, until)).rows && id in Run(threshold, w, Parallel(id, k, until)).rows
    ensures Run(threshold, w, Serial(id, k, until)).rows[id].failures == w.rows[id].failures + k
    ensures Run(threshold, w, Parallel(id, k, until)).rows[id].failures == w.rows[id].failures + 1
    ensures Run(threshold, w, Serial(id, k, until)).rows[id].status == Abnormal
       <==> w.rows[id].failures + k >= Threshold(threshold)
    ensures Run(threshold, w, Parallel(id, k, until)).rows[id].status == Abnormal
       <==> w.rows[id].failures + 1 >= Threshold(threshold)
  {
    SerialCount(threshold, w, id, k, until);
    SerialStatus(threshold, w, id, k, until);
    ReadsRun(threshold, w, id, k);
    LateWritesRun(threshold, Run(threshold, w, Reads(id, k)), id, k, w.rows[id], until);
    RunAppend(threshold, w, Reads(id, k), LateWrites(k, until));
  }

  lemma {:induction false} SerialStatus(threshold: int, w: World, id: int, k: nat, until: Instant)
    requires id in w.rows && RowOk(w.rows[id], threshold) && w.rows[id].status != Disabled
    ensures id in Run(threshold, w, Serial(id, k, until)).rows
    ensures RowOk(Run(threshold, w, Serial(id, k, until)).rows[id], threshold)
    ensures Run(threshold, w, Serial(id, k, until)).rows[id].status != Disabled
    decreases k
  {
    if k > 0 {
      var u := Next(threshold, w, ReadFailure(0, id));
      var v := Next(threshold, u, WriteFailure(0, until));
      var rest := Serial(id, k - 1, until);
      assert Serial(id, k, until) == [ReadFailure(0, id)] + ([WriteFailure(0, until)] + rest);
      RunStep(threshold, w, ReadFailure(0, id), [WriteFailure(0, until)] + rest);
      RunStep(threshold, u, WriteFailure(0, until), rest);
      SerialStatus(threshold, v, id, k - 1, until);
    }
  }

  // ----- exactly when no failure is lost -----

  /** The callers that have read the backend and seen every failure written so far. */
  function Current(w: World, s: Step, id: int, current: set<int>): set<int> {
    if WritesFailure(w, s, id) then {}
    else if s.ReadFailure? && s.id in w.rows then (if s.id == id then current + {s.call} else current - {s.call})
    else current
  }

  /** Every failure is written by a caller that read the row after the failure before it was written: no other failure
      of the backend falls between a read and its write. */
  predicate Undisturbed(threshold: int, w: World, steps: seq<Step>, id: int, current: set<int>)
    decreases steps
  {
    steps == []
    || ((WritesFailure(w, steps[0], id) ==> steps[0].call in current)
        && Undisturbed(threshold, Next(threshold, w, steps[0]), steps[1..], id, Current(w, steps[0], id, current)))
  }

  predicate Untouched(w: World, id: int) {
    && id in w.rows && id < w.next
    && (forall call | call in w.editing :: w.editing[call].id != id)
  }

  /** Every failure so far has counted: a caller that has seen them all carries the row's count, any other a lower
      one. */
  predicate AllCounted(w: World, id: int, count: nat, current: set<int>) {
    && Untouched(w, id) && w.rows[id].failures == count
    && (forall call | call in current :: call in w.failing && w.failing[call].id == id)
    && (forall call | call in w.failing && w.failing[call].id == id ::
          if call in current then w.failing[call].row.failures == count else w.failing[call].row.failures < count)
  }

  /** Fewer than `count` failures have counted, in the row and for every caller. */
  predicate SomeLost(w: World, id: int, count: nat) {
    && Untouched(w, id) && w.rows[id].failures < count
    && (forall call | call in w.failing && w.failing[call].id == id :: w.failing[call].row.failures < count)
  }

  lemma CountedStep(threshold: int, w: World, s: Step, id: int, count: nat, current: set<int>)
    requires AllCounted(w, id, count, current) && OnlyFails(s, id)
    ensures var v := Next(threshold, w, s);
            if !WritesFailure(w, s, id) then AllCounted(v, id, count, Current(w, s, id, current))
            else if s.call in current then AllCounted(v, id, count + 1, {})
            else SomeLost(v, id, count + 1)
  {
    hide AtMost, Format;
  }

  lemma LostStep(threshold: int, w: World, s: Step, id: int, count: nat)
    requires SomeLost(w, id, count) && OnlyFails(s, id)
    ensures SomeLost(Next(threshold, w, s), id, if WritesFailure(w, s, id) then count + 1 else count)
  {
    hide AtMost, Format;
  }

  lemma {:induction false} LostRun(threshold: int, w: World, steps: seq<Step>, id: int, count: nat)
    requires SomeLost(w, id, count) && forall s | s in steps :: OnlyFails(s, id)
    ensures SomeLost(Run(threshold, w, steps), id, count + Writes(threshold, w, steps, id))
    decreases steps
  {
    hide Next, SomeLost, OnlyFails, WritesFailure;
    if steps != [] {
      assert steps[0] in steps && forall s | s in steps[1..] :: s in steps;
      LostStep(threshold, w, steps[0], id, count);
      LostRun(threshold, Next(threshold, w, steps[0]), steps[1..], id,
              if WritesFailure(w, steps[0], id) then count + 1 else count);
    }
  }

  lemma {:induction false} CountedRun(threshold: int, w: World, steps: seq<Step>, id: int, count: nat,
                                      current: set<int>)
    requires AllCounted(w, id, count, current) && forall s | s in steps :: OnlyFails(s, id)
    ensures id in Run(threshold, w, steps).rows
    ensures Undisturbed(threshold, w, steps, id, current)
       <==> Run(threshold, w, steps).rows[id].failures == count + Writes(threshold, w, steps, id)
    decreases steps
  {
    hide Next, OnlyFails, Current;
    if steps != [] {
      var s, v, rest := steps[0], Next(threshold, w, steps[0]), steps[1..];
      assert s in steps && forall x | x in rest :: x in steps;
      CountedStep(threshold, w, s, id, count, current);
      CurrentAfterWrite(w, s, id, current);
      hide AllCounted, WritesFailure;
      if !WritesFailure(w, s, id) {
        CountedRun(threshold, v, rest, id, count, Current(w, s, id, current));
      } else if s.call in current {
        CountedRun(threshold, v, rest, id, count + 1, {});
      } else {
        LostRun(threshold, v, rest, id, count + 1);
      }
    }
  }

  lemma CurrentAfterWrite(w: World, s: Step, id: int, current: set<int>)
    ensures WritesFailure(w, s, id) ==> s.WriteFailure? && Current(w, s, id, current) == {}
  {
  }

  /** From a backend nobody is working on, overlapping failures all count if and only if no other failure of it is
      written between the read and the write of any of them. */
  lemma NoFailureLostIff(threshold: int, w: World, steps: seq<Step>, id: int)
    requires Idle(w, id) && forall s | s in steps :: OnlyFails(s, id)
    ensures id in Run(threshold, w, steps).rows
    ensures Run(threshold, w, steps).rows[id].failures == w.rows[id].failures + Writes(threshold, w, steps, id)
       <==> Undisturbed(threshold, w, steps, id, {})
  {
    CountedRun(threshold, w, steps, id, w.rows[id].failures, {});
  }

  // ----- what overlapping failures count, and when they trip -----

  /** The number of failures in the chain, each read after the one before it was written, that ends with the last
      failure written; `depth` is the chain's length so far and `read` its length when each caller read. */
  function Chain(threshold: int, w: World, steps: seq<Step>, id: int, depth: nat, read: map<int, nat>): nat
    decreases steps
  {
    if steps == [] then depth
    else
      var s, v := steps[0], Next(threshold, w, steps[0]);
      if WritesFailure(w, s, id) then
        Chain(threshold, v, steps[1..], id, if s.call in read then read[s.call] + 1 else 0, read - {s.call})
      else if s.ReadFailure? && s.id in w.rows then
        Chain(threshold, v, steps[1..], id, depth, if s.id == id then read[s.call := depth] else read - {s.call})
      else Chain(threshold, v, steps[1..], id, depth, read)
  }

  predicate Mirrors(w: World, id: int, low: nat, depth: nat, read: map<int, nat>) {
    && Untouched(w, id) && w.rows[id].failures == low + depth && w.rows[id].status != Disabled
    && (forall call | call in w.failing && w.failing[call].id == id ::
          && call in read && w.failing[call].row.failures == low + read[call]
          && w.failing[call].row.status != Disabled)
  }

  lemma {:induction false} ChainRun(threshold: int, w: World, steps: seq<Step>, id: int, low: nat, depth: nat,
                                    read: map<int, nat>)
    requires Mirrors(w, id, low, depth, read) && forall s | s in steps :: OnlyFails(s, id)
    ensures var v := Run(threshold, w, steps);
            && id in v.rows && v.rows[id].failures == low + Chain(threshold, w, steps, id, depth, read)
            && v.rows[id].status != Disabled
    decreases steps
  {
    if steps != [] {
      var s, v, rest := steps[0], Next(threshold, w, steps[0]), steps[1..];
      assert s in steps && forall x | x in rest :: x in steps;
      MirrorStep(threshold, w, s, id, low, depth, read);
      hide Next, OnlyFails, Mirrors;
      if WritesFailure(w, s, id) {
        ChainRun(threshold, v, rest, id, low, read[s.call] + 1, read - {s.call});
      } else if s.ReadFailure? && s.id in w.rows {
        ChainRun(threshold, v, rest, id, low, depth, if s.id == id then read[s.call := depth] else read - {s.call});
      } else {
        ChainRun(threshold, v, rest, id, low, depth, read);
      }
    }
  }

  lemma MirrorStep(threshold: int, w: World, s: Step, id: int, low: nat, depth: nat, read: map<int, nat>)
    requires Mirrors(w, id, low, depth, read) && OnlyFails(s, id)
    ensures var v := Next(threshold, w, s);
            if WritesFailure(w, s, id) then s.call in read && Mirrors(v, id, low, read[s.call] + 1, read - {s.call})
            else if s.ReadFailure? && s.id in w.rows then
              Mirrors(v, id, low, depth, if s.id == id then read[s.call := depth] else read - {s.call})
            else Mirrors(v, id, low, depth, read)
  {
    hide AtMost, Format;
  }

  /** An enabled backend nobody is working on ends tripped, after any overlap of failures, exactly when its count and
      their chain reach the threshold. The failure that should trip it does so exactly when none was lost. */
  lemma TripsIff(threshold: int, w: World, steps: seq<Step>, id: int)
    requires WorldOk(w, threshold) && Idle(w, id) && w.rows[id].status != Disabled
    requires forall s | s in steps :: OnlyFails(s, id)
    ensures id in Run(threshold, w, steps).rows
    ensures Run(threshold, w, steps).rows[id].status == Abnormal
       <==> w.rows[id].failures + Chain(threshold, w, steps, id, 0, map[]) >= Threshold(threshold)
    ensures w.rows[id].failures + Writes(threshold, w, steps, id) == Threshold(threshold) ==>
              (Run(threshold, w, steps).rows[id].status == Abnormal <==> Undisturbed(threshold, w, steps, id, {}))
  {
    hide Run, Writes, Undisturbed, Chain, OnlyFails;
    ChainRun(threshold, w, steps, id, w.rows[id].failures, 0, map[]);
    RunKeepsRows(threshold, w, steps);
    NoFailureLostIff(threshold, w, steps, id);
    NoMoreThanWrites(threshold, w, steps, id);
  }

  lemma NoMoreThanWrites(threshold: int, w: World, steps: seq<Step>, id: int)
    requires Idle(w, id) && forall s | s in steps :: OnlyFails(s, id)
    ensures id in Run(threshold, w, steps).rows
    ensures Run(threshold, w, steps).rows[id].failures <= w.rows[id].failures + Writes(threshold, w, steps, id)
  {
    hide OnlyFails;
    OverlapRun(threshold, w, steps, id, w.rows[id].failures, 0);
  }

  /** A failure that reads early and writes late even undoes a trip: the other two have tripped the backend under a
      threshold of two, and the third leaves it normal with a count of one. */
  lemma TripCanBeUndone(until: Instant)
    ensures var trip := [Create, ReadFailure(1, 1)] + Serial(1, 2, until);
            && Run(2, INIT, trip).rows == map[1 := Row(Abnormal, 2, Some(until))]
            && Run(2, INIT, trip + [WriteFailure(1, until)]).rows == map[1 := Row(Normal, 1, None)]
  {
    var a := Next(2, INIT, Create);
    var b := Next(2, a, ReadFailure(1, 1));
    var late := Call(1, FRESH);
    var two := Serial(1, 2, until);
    RunStep(2, INIT, Create, [ReadFailure(1, 1)] + two);
    RunStep(2, a, ReadFailure(1, 1), two);
    var trip := [Create, ReadFailure(1, 1)] + two;
    assert trip == [Create] + ([ReadFailure(1, 1)] + two);
    var once := Serial(1, 1, until);
    assert Serial(1, 0, until) == [] && once == [ReadFailure(0, 1), WriteFailure(0, until)] + [];
    assert two == [ReadFailure(0, 1), WriteFailure(0, until)] + once;
    var c := OneSerial(b, FRESH, once, until);
    var d := OneSerial(c, Row(Normal, 1, None), [], until);
    assert once == [ReadFailure(0, 1), WriteFailure(0, until)] + [];
    hide Serial;
    assert Run(2, INIT, trip) == d;
    RunAppend(2, INIT, trip, [WriteFailure(1, until)]);
    RunStep(2, d, WriteFailure(1, until), []);
    assert [WriteFailure(1, until)] == [WriteFailure(1, until)] + [];
  }

  /** One failure of backend 1 on its own, with another caller waiting to write. */
  lemma OneSerial(w: World, row: Row, rest: seq<Step>, until: Instant) returns (v: World)
    requires w.rows == map[1 := row] && w.failing == map[1 := Call(1, FRESH)]
    ensures v.rows == map[1 := Failed(row, 2, until)] && v.failing == map[1 := Call(1, FRESH)]
    ensures Run(2, w, [ReadFailure(0, 1), WriteFailure(0, until)] + rest) == Run(2, v, rest)
  {
    var u := Next(2, w, ReadFailure(0, 1));
    v := Next(2, u, WriteFailure(0, until));
    assert [ReadFailure(0, 1), WriteFailure(0, until)] + rest
        == [ReadFailure(0, 1)] + ([WriteFailure(0, until)] + rest);
    RunStep(2, w, ReadFailure(0, 1), [WriteFailure(0, until)] + rest);
    RunStep(2, u, WriteFailure(0, until), rest);
  }
}
