/** The hourly figures as plain sums over the logs, and which logs there are. */
module RollupSums {
  import opened Rollup
  import opened StoredTime
  import opened Text
  import Sse

  /** The log counts for a backend and model from the first second of hour `low` to the last of hour `high`. */
  predicate Lands(log: UsageLog, backend: int, model: string, low: nat, high: nat) {
    && log.backend == backend && 0 < backend
    && TrimSpace(log.name) != "" && TrimSpace(log.model) == model && model != ""
    && 3600 * low <= log.createdAt.sec < 3600 * (high + 1)
  }

  predicate Succeeded(log: UsageLog) {
    200 <= log.status && log.status <= 299
  }

  /** A figure of every log that lands and passes a test, added up. */
  function Sum(history: seq<UsageLog>, lands: UsageLog -> bool, figure: UsageLog -> int): int
    decreases history
  {
    if history == [] then 0
    else
      Sum(history[..|history| - 1], lands, figure)
      + if lands(history[|history| - 1]) then figure(history[|history| - 1]) else 0
  }

  /** The eight figures of a row: counts of successes and failures, and the successes' figures added up. */
  predicate Figures(history: seq<UsageLog>, good: UsageLog -> bool, bad: UsageLog -> bool, s: Stats) {
    && s.successes == Sum(history, good, (log: UsageLog) => 1)
    && s.failures == Sum(history, bad, (log: UsageLog) => 1)
    && s.duration == Sum(history, good, (log: UsageLog) => log.duration)
    && s.requestBytes == Sum(history, good, (log: UsageLog) => log.requestBytes)
    && s.responseBytes == Sum(history, good, (log: UsageLog) => log.responseBytes)
    && s.input == Sum(history, good, (log: UsageLog) => log.input)
    && s.output == Sum(history, good, (log: UsageLog) => log.output)
    && s.cache == Sum(history, good, (log: UsageLog) => log.cache)
  }

  lemma LandsIff(log: UsageLog, backend: int, model: string, low: nat, high: nat)
    ensures Belongs(log, backend, model, low, high) <==> Lands(log, backend, model, low, high)
    ensures Successful(log.status) <==> Succeeded(log)
  {
    hide TrimSpace;
    var sec := log.createdAt.sec;
    assert low <= sec / 3600 <==> 3600 * low <= sec;
    assert sec / 3600 <= high <==> sec < 3600 * (high + 1);
  }

  lemma FiguresStep(history: seq<UsageLog>, log: UsageLog, good: UsageLog -> bool, bad: UsageLog -> bool, s: Stats)
    requires Figures(history, good, bad, s) && !(good(log) && bad(log))
    requires good(log) ==> Succeeded(log)
    requires bad(log) ==> !Succeeded(log)
    ensures Figures(history + [log], good, bad, if good(log) || bad(log) then Plus(s, One(log)) else s)
  {
    assert (history + [log])[..|history|] == history;
  }

  /** What the logs of some hours add up to, figure by figure: a log with status 200..299 is a success and adds its
      figures, any other is one failure and adds nothing else. */
  lemma {:induction false} FoldFigures(history: seq<UsageLog>, backend: int, model: string, low: nat, high: nat)
    ensures Figures(history, (log: UsageLog) => Lands(log, backend, model, low, high) && Succeeded(log),
                    (log: UsageLog) => Lands(log, backend, model, low, high) && !Succeeded(log),
                    Fold(history, backend, model, low, high))
    decreases history
  {
    var good := (log: UsageLog) => Lands(log, backend, model, low, high) && Succeeded(log);
    var bad := (log: UsageLog) => Lands(log, backend, model, low, high) && !Succeeded(log);
    FoldStep(history, backend, model, low, high);
    if history != [] {
      var front, log := history[..|history| - 1], history[|history| - 1];
      assert history == front + [log];
      FoldFigures(front, backend, model, low, high);
      LandsIff(log, backend, model, low, high);
      hide Belongs, Lands, Fold, Figures;
      FiguresStep(front, log, good, bad, Fold(front, backend, model, low, high));
    }
  }

  /** The name of a row is the trimmed name of the last log that lands there. */
  lemma {:induction false} NameIsLast(history: seq<UsageLog>, backend: int, model: string, hour: nat, name: string)
    ensures LatestName(history, backend, model, hour) == Some(name) <==>
            exists i :: 0 <= i < |history| && Lands(history[i], backend, model, hour, hour)
                        && name == TrimSpace(history[i].name)
                        && forall j | i < j < |history| :: !Lands(history[j], backend, model, hour, hour)
    decreases history
  {
    hide Lands, Belongs, TrimSpace;
    if history != [] {
      var n := |history| - 1;
      LandsIff(history[n], backend, model, hour, hour);
      NameIsLast(history[..n], backend, model, hour, name);
      if !Lands(history[n], backend, model, hour, hour) {
        var front := history[..n];
        assert forall i | 0 <= i < n :: front[i] == history[i];
      }
    }
  }

  /** The row of every backend, model and hour: there is one exactly when some log has landed there, and then it shows
      the last name and the figures of all logs ever appended, deleted ones included. */
  lemma RowFigures(ops: seq<Op>, backend: int, model: string, hour: nat, row: Row)
    requires ValidHour(hour) && ValidHistory(Appended(ops))
    requires Lookup(ApplyAll(EMPTY, ops).stats, Key(backend, model, HourText(hour))) == Some(row)
    ensures Figures(Appended(ops), (log: UsageLog) => Lands(log, backend, model, hour, hour) && Succeeded(log),
                    (log: UsageLog) => Lands(log, backend, model, hour, hour) && !Succeeded(log), row.stats)
    ensures exists i :: 0 <= i < |Appended(ops)| && Lands(Appended(ops)[i], backend, model, hour, hour)
                        && row.name == TrimSpace(Appended(ops)[i].name)
                        && forall j | i < j < |Appended(ops)| :: !Lands(Appended(ops)[j], backend, model, hour, hour)
  {
    hide ValidHour, ValidHistory, ApplyAll, Appended, Lookup, LatestName, Fold, HourText, Lands, TrimSpace, Figures;
    RollupEqualsHistory(ops, backend, model, hour);
    FoldFigures(Appended(ops), backend, model, hour, hour);
    NameIsLast(Appended(ops), backend, model, hour, row.name);
  }

  // ----- which logs there are -----

  /** A log keeps its time, or takes the clock's when it has none; nothing else of it changes. */
  predicate KeepsLog(log: UsageLog, now: Instant, kept: UsageLog) {
    && kept == log.(createdAt := kept.createdAt)
    && kept.createdAt == if log.createdAt == Instant(0, 0) then now else log.createdAt
  }

  lemma {:induction false} AppendedConcat(a: seq<Op>, b: seq<Op>)
    ensures Appended(a + b) == Appended(a) + Appended(b)
    decreases a
  {
    hide Stamped;
    if a == [] {
      assert a + b == b;
    } else {
      assert (a + b)[1..] == a[1..] + b && (a + b)[0] == a[0];
      AppendedConcat(a[1..], b);
      var head := if a[0].Append? then [Stamped(a[0].log, a[0].now)] else [];
      Sse.Assoc(head, Appended(a[1..]), Appended(b));
    }
  }

  /** The logs ever appended grow by one with every append and by nothing else; the new one comes last. */
  lemma AppendedGrows(ops: seq<Op>, op: Op)
    ensures Appended([]) == []
    ensures var before, after := Appended(ops), Appended(ops + [op]);
            if op.Append? then
              |after| == |before| + 1 && after[..|before|] == before && KeepsLog(op.log, op.now, after[|before|])
            else after == before
  {
    AppendedConcat(ops, [op]);
    assert [op][1..] == [] && Appended([]) == [];
  }

  /** A filtered delete removes just the logs that match: of every log that does not, as many are left as there were,
      and of every log that does, none; the order is kept when logs are appended before. */
  lemma {:induction false} DeletesJustMatches(logs: seq<UsageLog>, filter: UsageLog -> bool, log: UsageLog)
    ensures multiset(Remaining(logs, filter))[log] == if filter(log) then 0 else multiset(logs)[log]
    decreases logs
  {
    if logs != [] {
      var n := |logs| - 1;
      assert logs == logs[..n] + [logs[n]];
      DeletesJustMatches(logs[..n], filter, log);
    }
  }

  /** What is left of two lists after one another is what is left of each, so the order of logs never changes. */
  lemma {:induction false} DeletesInOrder(a: seq<UsageLog>, b: seq<UsageLog>, filter: UsageLog -> bool)
    ensures Remaining(a + b, filter) == Remaining(a, filter) + Remaining(b, filter)
    decreases b
  {
    if b == [] {
      assert a + b == a;
    } else {
      var n := |b| - 1;
      assert (a + b)[..|a + b| - 1] == a + b[..n];
      DeletesInOrder(a, b[..n], filter);
    }
  }

  /** A query returns a row exactly when it is stored and passes each filter that is not blank or missing. */
  lemma QueryFilters(ops: seq<Op>, q: HourQuery, backend: int, model: string, hour: nat, row: Row)
    requires ValidQuery(q) && ValidHour(hour) && ValidHistory(Appended(ops))
    ensures var stats, key := ApplyAll(EMPTY, ops).stats, Key(backend, model, HourText(hour));
            Lookup(Query(stats, Clause(q)), key) == Some(row) <==>
              && key in stats && stats[key] == row
              && (TrimSpace(q.name) == "" || TrimSpace(q.name) == row.name)
              && (TrimSpace(q.model) == "" || TrimSpace(q.model) == model)
              && (q.first.None? || q.first.value <= hour) && (q.last.None? || hour <= q.last.value)
  {
    hide HourText, ValidHour, ValidQuery, Clause, Passes, Expected, ApplyAll, Appended, ValidHistory, TrimSpace, Query;
    RollupEqualsHistory(ops, backend, model, hour);
    QueryExact(ops, q, backend, model, hour);
  }
}
