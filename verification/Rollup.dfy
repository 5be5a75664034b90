/** The usage log and its hourly roll-up: one transaction appends a log and adds it to the row of its hour, and
    deleting logs leaves the rows alone. */
module Rollup {
  import opened StoredTime
  import opened Text

  datatype UsageLog = UsageLog(backend: int, name: string, model: string, status: int, duration: int,
                               requestBytes: int, responseBytes: int, input: int, output: int, cache: int,
                               createdAt: Instant)

  datatype Stats = Stats(successes: int, failures: int, duration: int, requestBytes: int, responseBytes: int,
                         input: int, output: int, cache: int)

  datatype Row = Row(name: string, stats: Stats)

  /** The table's unique key; the hour is stored as text. */
  datatype Key = Key(backend: int, model: string, hour: string)

  datatype Table = Table(logs: seq<UsageLog>, stats: map<Key, Row>)

  const EMPTY := Table([], map[])
  const ZERO := Stats(0, 0, 0, 0, 0, 0, 0, 0)

  // ----- one log -----

  predicate Successful(status: int) {
    200 <= status < 300
  }

  function One(log: UsageLog): Stats {
    if Successful(log.status)
    then Stats(1, 0, log.duration, log.requestBytes, log.responseBytes, log.input, log.output, log.cache)
    else ZERO.(failures := 1)
  }

  function Plus(a: Stats, b: Stats): Stats {
    Stats(a.successes + b.successes, a.failures + b.failures, a.duration + b.duration,
          a.requestBytes + b.requestBytes, a.responseBytes + b.responseBytes,
          a.input + b.input, a.output + b.output, a.cache + b.cache)
  }

  lemma PlusZero(s: Stats)
    ensures Plus(ZERO, s) == s
  {
  }

  /** Logs without a backend, its name or a model are not rolled up. */
  predicate Counted(log: UsageLog) {
    log.backend > 0 && !Blank(log.name) && !Blank(log.model)
  }

  function HourOf(t: Instant): nat {
    t.sec / 3600
  }

  function HourText(hour: nat): string {
    Format(Instant(hour * 3600, 0))
  }

  function KeyOf(log: UsageLog): Key {
    Key(log.backend, TrimSpace(log.model), HourText(HourOf(log.createdAt)))
  }

  /** `INSERT ... ON CONFLICT DO UPDATE`. */
  function Upsert(stats: map<Key, Row>, log: UsageLog): map<Key, Row> {
    if !Counted(log) then stats
    else
      var key := KeyOf(log);
      var before := if key in stats then stats[key].stats else ZERO;
      stats[key := Row(TrimSpace(log.name), Plus(before, One(log)))]
  }

  /** A log without a time gets the store's clock. */
  function Stamped(log: UsageLog, now: Instant): UsageLog {
    if log.createdAt == Instant(0, 0) then log.(createdAt := now) else log
  }

  // ----- operations -----

  datatype Op = Append(log: UsageLog, now: Instant) | Clear | DeleteWhere(filter: UsageLog -> bool)

  function Remaining(logs: seq<UsageLog>, filter: UsageLog -> bool): seq<UsageLog>
    decreases logs
  {
    if logs == [] then []
    else Remaining(logs[..|logs| - 1], filter) + if filter(logs[|logs| - 1]) then [] else [logs[|logs| - 1]]
  }

  function Apply(t: Table, op: Op): Table {
    match op
    case Append(log, now) => Table(t.logs + [Stamped(log, now)], Upsert(t.stats, Stamped(log, now)))
    case Clear => t.(logs := [])
    case DeleteWhere(filter) => t.(logs := Remaining(t.logs, filter))
  }

  ghost function ApplyAll(t: Table, ops: seq<Op>): Table
    decreases ops
  {
    if ops == [] then t else ApplyAll(Apply(t, ops[0]), ops[1..])
  }

  /** Every log ever appended. */
  ghost function Appended(ops: seq<Op>): seq<UsageLog>
    decreases ops
  {
    if ops == [] then []
    else (if ops[0].Append? then [Stamped(ops[0].log, ops[0].now)] else []) + Appended(ops[1..])
  }

  class Store {
    var logs: seq<UsageLog>
    var stats: map<Key, Row>

    ghost function View(): Table
      reads this
    {
      Table(logs, stats)
    }

    constructor ()
      ensures View() == EMPTY
    {
      logs := [];
      stats := map[];
    }

    method AppendUsageLog(log: UsageLog, now: Instant)
      modifies this
      ensures View() == Apply(old(View()), Append(log, now))
    {
      var createdAt := log.createdAt;
      if createdAt == Instant(0, 0) {
        createdAt := now;
      }
      var stamped := log.(createdAt := createdAt);
      logs := logs + [stamped];
      UpsertStats(stamped);
    }

    method UpsertStats(log: UsageLog)
      modifies `stats
      ensures stats == Upsert(old(stats), log)
    {
      hide One, Plus, HourText;
      if log.backend <= 0 || TrimSpace(log.name) == "" || TrimSpace(log.model) == "" {
        return;
      }
      var excluded := Contribution(log);
      var key := KeyOf(log);
      if key in stats {
        excluded := Plus(stats[key].stats, excluded);
      } else {
        PlusZero(excluded);
      }
      stats := stats[key := Row(TrimSpace(log.name), excluded)];
    }

    /** The values the statement inserts: one success with its sums, or one failure without. */
    method Contribution(log: UsageLog) returns (r: Stats)
      ensures r == One(log)
    {
      var successes, failures := 0, 0;
      var duration, requestBytes, responseBytes, input, output, cache := 0, 0, 0, 0, 0, 0;
      if 200 <= log.status < 300 {
        successes := 1;
        duration := log.duration;
        requestBytes, responseBytes := log.requestBytes, log.responseBytes;
        input, output, cache := log.input, log.output, log.cache;
      } else {
        failures := 1;
      }
      r := Stats(successes, failures, duration, requestBytes, responseBytes, input, output, cache);
    }

    method ClearUsageLogs() returns (deleted: nat)
      modifies `logs
      ensures View() == Apply(old(View()), Clear) && deleted == old(|logs|)
    {
      deleted := |logs|;
      logs := [];
    }

    method DeleteUsageLogsFiltered(filter: UsageLog -> bool) returns (deleted: nat)
      modifies `logs
      ensures View() == Apply(old(View()), DeleteWhere(filter)) && deleted == old(|logs|) - |logs|
    {
      var kept := [];
      deleted := 0;
      for n := 0 to |logs|
        invariant kept == Remaining(logs[..n], filter) && deleted == n - |kept|
      {
        assert logs[..n + 1][..n] == logs[..n];
        if filter(logs[n]) {
          deleted := deleted + 1;
        } else {
          kept := kept + [logs[n]];
        }
      }
      assert logs[..|logs|] == logs;
      logs := kept;
    }
  }

  // ----- history -----

  /** The log belongs to a backend and model in an hour from `low` to `high`. */
  predicate Belongs(log: UsageLog, backend: int, model: string, low: nat, high: nat) {
    Counted(log) && log.backend == backend && TrimSpace(log.model) == model && low <= HourOf(log.createdAt) <= high
  }

  /** What the logs of a history that belong to a backend, model and range of hours add up to. */
  function Fold(history: seq<UsageLog>, backend: int, model: string, low: nat, high: nat): Stats
    decreases history
  {
    if history == [] then ZERO
    else
      var n := |history| - 1;
      var before := Fold(history[..n], backend, model, low, high);
      if Belongs(history[n], backend, model, low, high) then Plus(before, One(history[n])) else before
  }

  /** The backend's name in the latest log that belongs there. */
  function LatestName(history: seq<UsageLog>, backend: int, model: string, hour: nat): Option<string>
    decreases history
  {
    if history == [] then None
    else
      var n := |history| - 1;
      if Belongs(history[n], backend, model, hour, hour) then Some(TrimSpace(history[n].name))
      else LatestName(history[..n], backend, model, hour)
  }

  /** The row the roll-up should hold; none when no log belongs to it. */
  function Expected(history: seq<UsageLog>, backend: int, model: string, hour: nat): Option<Row> {
    match LatestName(history, backend, model, hour)
    case None => None
    case Some(name) => Some(Row(name, Fold(history, backend, model, hour, hour)))
  }

  function Lookup(stats: map<Key, Row>, key: Key): Option<Row> {
    if key in stats then Some(stats[key]) else None
  }

  /** Hours of four-digit years. */
  predicate ValidHour(hour: nat) {
    YearOf(hour * 3600) <= 9999
  }

  predicate ValidHistory(history: seq<UsageLog>) {
    forall log | log in history :: ValidHour(HourOf(log.createdAt))
  }

  lemma HourTextInjective(a: nat, b: nat)
    requires ValidHour(a) && ValidHour(b)
    ensures HourText(a) == HourText(b) <==> a == b
  {
    hide YearOf, Format;
    if HourText(a) == HourText(b) {
      FormatInjective(Instant(a * 3600, 0), Instant(b * 3600, 0));
    }
  }

  lemma {:induction false} NoLogNoStats(history: seq<UsageLog>, backend: int, model: string, hour: nat)
    requires LatestName(history, backend, model, hour).None?
    ensures Fold(history, backend, model, hour, hour) == ZERO
    decreases history
  {
    hide Belongs;
    if history != [] {
      NoLogNoStats(history[..|history| - 1], backend, model, hour);
    }
  }

  lemma AppendKeeps(stats: map<Key, Row>, history: seq<UsageLog>, log: UsageLog, backend: int, model: string, hour: nat)
    requires ValidHour(hour) && ValidHour(HourOf(log.createdAt))
    requires Lookup(stats, Key(backend, model, HourText(hour))) == Expected(history, backend, model, hour)
    ensures Lookup(Upsert(stats, log), Key(backend, model, HourText(hour)))
         == Expected(history + [log], backend, model, hour)
  {
    hide HourText, ValidHour, TrimSpace;
    HourTextInjective(HourOf(log.createdAt), hour);
    assert (history + [log])[..|history|] == history;
    if LatestName(history, backend, model, hour).None? {
      NoLogNoStats(history, backend, model, hour);
    }
  }

  lemma {:induction false} RunKeeps(t: Table, ops: seq<Op>, history: seq<UsageLog>, backend: int, model: string,
                                    hour: nat)
    requires ValidHour(hour) && ValidHistory(history + Appended(ops))
    requires Lookup(t.stats, Key(backend, model, HourText(hour))) == Expected(history, backend, model, hour)
    ensures Lookup(ApplyAll(t, ops).stats, Key(backend, model, HourText(hour)))
         == Expected(history + Appended(ops), backend, model, hour)
    decreases ops
  {
    hide HourText, ValidHour, Expected, Upsert, Remaining, Lookup;
    if ops == [] {
      assert history + Appended(ops) == history;
    } else if ops[0].Append? {
      var log := Stamped(ops[0].log, ops[0].now);
      assert history + Appended(ops) == (history + [log]) + Appended(ops[1..]);
      assert log in history + Appended(ops);
      AppendKeeps(t.stats, history, log, backend, model, hour);
      RunKeeps(Apply(t, ops[0]), ops[1..], history + [log], backend, model, hour);
    } else {
      assert Appended(ops) == Appended(ops[1..]);
      RunKeeps(Apply(t, ops[0]), ops[1..], history, backend, model, hour);
    }
  }

  /** However appends, clears and filtered deletes are mixed, the row of every backend, model and hour is what all
      logs ever appended there add up to, under the latest name; there is a row exactly when there was such a log. */
  lemma RollupEqualsHistory(ops: seq<Op>, backend: int, model: string, hour: nat)
    requires ValidHour(hour) && ValidHistory(Appended(ops))
    ensures Lookup(ApplyAll(EMPTY, ops).stats, Key(backend, model, HourText(hour)))
         == Expected(Appended(ops), backend, model, hour)
  {
    hide HourText, ValidHour, ApplyAll, Appended;
    assert [] + Appended(ops) == Appended(ops);
    RunKeeps(EMPTY, ops, [], backend, model, hour);
  }

  /** A row exists for every log ever counted, also after it was deleted. */
  lemma {:induction false} NameIffLogged(history: seq<UsageLog>, backend: int, model: string, hour: nat)
    ensures LatestName(history, backend, model, hour).Some?
       <==> exists log | log in history :: Belongs(log, backend, model, hour, hour)
    decreases history
  {
    hide Belongs;
    if history != [] {
      var n := |history| - 1;
      NameIffLogged(history[..n], backend, model, hour);
      assert history == history[..n] + [history[n]];
    }
  }

  // ----- queries -----

  datatype Filter = Filter(name: string, model: string, start: Option<Instant>, end: Option<Instant>)

  /** The `WHERE` clause: blank names do not restrict, and hours are compared as texts. */
  predicate Passes(f: Filter, key: Key, row: Row) {
    && (Blank(f.name) || row.name == TrimSpace(f.name))
    && (Blank(f.model) || key.model == TrimSpace(f.model))
    && (f.start.Some? ==> AtMost(Format(f.start.value), key.hour))
    && (f.end.Some? ==> AtMost(key.hour, Format(f.end.value)))
  }

  function Query(stats: map<Key, Row>, f: Filter): map<Key, Row> {
    map key | key in stats && Passes(f, key, stats[key]) :: stats[key]
  }

  /** A query as the handler accepts it: bounds are whole hours, and each may be missing. */
  datatype HourQuery = HourQuery(name: string, model: string, first: Option<nat>, last: Option<nat>)

  function Clause(q: HourQuery): Filter {
    Filter(q.name, q.model,
           if q.first.Some? then Some(Instant(q.first.value * 3600, 0)) else None,
           if q.last.Some? then Some(Instant(q.last.value * 3600, 0)) else None)
  }

  predicate ValidQuery(q: HourQuery) {
    (q.first.Some? ==> ValidHour(q.first.value)) && (q.last.Some? ==> ValidHour(q.last.value))
  }

  predicate Within(q: HourQuery, hour: nat) {
    (q.first.Some? ==> q.first.value <= hour) && (q.last.Some? ==> hour <= q.last.value)
  }

  /** What the query asks for, with hours as numbers. */
  predicate Wants(q: HourQuery, name: string, model: string, hour: nat) {
    && (Blank(q.name) || name == TrimSpace(q.name))
    && (Blank(q.model) || model == TrimSpace(q.model))
    && Within(q, hour)
  }

  lemma PassesExact(q: HourQuery, backend: int, model: string, hour: nat, row: Row)
    requires ValidQuery(q) && ValidHour(hour)
    ensures Passes(Clause(q), Key(backend, model, HourText(hour)), row) <==> Wants(q, row.name, model, hour)
  {
    if q.first.Some? {
      WholeSecondsExact(q.first.value * 3600, hour * 3600);
    }
    if q.last.Some? {
      WholeSecondsExact(hour * 3600, q.last.value * 3600);
    }
    hide YearOf, Format, AtMost, TrimSpace;
  }

  /** The row of an hour that a query should return: the roll-up's row when the query wants it. The name it is asked for
      under is the latest one of the hour. */
  function Wanted(history: seq<UsageLog>, q: HourQuery, backend: int, model: string, hour: nat): Option<Row> {
    match Expected(history, backend, model, hour)
    case None => None
    case Some(row) => if Wants(q, row.name, model, hour) then Some(row) else None
  }

  /** Whatever the filters, a query returns exactly the wanted rows, each with all logs ever appended to its hour. */
  lemma QueryExact(ops: seq<Op>, q: HourQuery, backend: int, model: string, hour: nat)
    requires ValidQuery(q) && ValidHour(hour) && ValidHistory(Appended(ops))
    ensures Lookup(Query(ApplyAll(EMPTY, ops).stats, Clause(q)), Key(backend, model, HourText(hour)))
         == Wanted(Appended(ops), q, backend, model, hour)
  {
    hide HourText, ValidHour, ValidQuery, Clause, Passes, Wants, Expected, ApplyAll, Appended, ValidHistory;
    RollupEqualsHistory(ops, backend, model, hour);
    var stats, key := ApplyAll(EMPTY, ops).stats, Key(backend, model, HourText(hour));
    if key in stats {
      PassesExact(q, backend, model, hour, stats[key]);
    }
  }

  /** A filter by name goes by the latest name of the hour: once a backend has been renamed, its earlier logs of the
      hour are not found under the old name and are all counted under the new one. */
  lemma RenamedInTheHour(log: UsageLog, name: string, now: Instant)
    requires Counted(log) && log.createdAt != Instant(0, 0) && ValidHour(HourOf(log.createdAt))
    requires !Blank(name) && TrimSpace(name) != TrimSpace(log.name)
    ensures var ops := [Append(log, now), Append(log.(name := name), now)];
            var stats := ApplyAll(EMPTY, ops).stats;
            && Lookup(Query(stats, Clause(HourQuery(log.name, "", None, None))), KeyOf(log)) == None
            && Lookup(Query(stats, Clause(HourQuery(name, "", None, None))), KeyOf(log))
               == Some(Row(TrimSpace(name), Plus(One(log), One(log))))
  {
    var other := log.(name := name);
    var ops := [Append(log, now), Append(other, now)];
    var hour, model := HourOf(log.createdAt), TrimSpace(log.model);
    assert ops[1..] == [Append(other, now)] && ops[1..][1..] == [];
    assert Appended([Append(other, now)]) == [other] + [];
    assert Appended(ops) == [log] + [other];
    assert Appended(ops) == [log, other];
    TwoLogs(log, other, log.backend, model, hour);
    QueryExact(ops, HourQuery(log.name, "", None, None), log.backend, model, hour);
    QueryExact(ops, HourQuery(name, "", None, None), log.backend, model, hour);
    hide ApplyAll, Appended, Query, Clause, HourText, TrimSpace, Expected, One, Plus, Lookup;
    BlankEmpty();
  }

  lemma BlankEmpty()
    ensures Blank("")
  {
  }

  lemma TwoLogs(a: UsageLog, b: UsageLog, backend: int, model: string, hour: nat)
    requires Belongs(a, backend, model, hour, hour) && Belongs(b, backend, model, hour, hour) && One(a) == One(b)
    ensures Expected([a, b], backend, model, hour) == Some(Row(TrimSpace(b.name), Plus(One(a), One(a))))
  {
    hide Belongs, TrimSpace, One;
    assert [a, b][..1] == [a] && [a][..0] == [];
    assert Fold([a], backend, model, hour, hour) == Plus(ZERO, One(a));
    PlusZero(One(a));
  }

  // ----- totals over hours -----

  /** What a result holds for one hour. */
  function Entry(result: map<Key, Row>, backend: int, model: string, hour: nat): Stats {
    var key := Key(backend, model, HourText(hour));
    if key in result then result[key].stats else ZERO
  }

  /** What a result holds for a backend and model, added up over hours. */
  function Total(result: map<Key, Row>, backend: int, model: string, low: nat, high: int): Stats
    decreases high - low
  {
    if high < low then ZERO
    else
      Plus(Total(result, backend, model, low, high - 1), Entry(result, backend, model, high))
  }

  lemma BelongsSplits(log: UsageLog, backend: int, model: string, low: nat, high: nat)
    requires low <= high
    ensures Belongs(log, backend, model, low, high)
       <==> (low < high && Belongs(log, backend, model, low, high - 1)) || Belongs(log, backend, model, high, high)
    ensures !(low < high && Belongs(log, backend, model, low, high - 1) && Belongs(log, backend, model, high, high))
  {
  }

  lemma FoldStep(history: seq<UsageLog>, backend: int, model: string, low: nat, high: nat)
    ensures Fold([], backend, model, low, high) == ZERO
    ensures history != [] ==>
              Fold(history, backend, model, low, high)
              == var before := Fold(history[..|history| - 1], backend, model, low, high);
                 if Belongs(history[|history| - 1], backend, model, low, high)
                 then Plus(before, One(history[|history| - 1])) else before
  {
  }

  lemma SplitStep(a: Stats, b: Stats, one: Stats, early: bool, late: bool)
    requires !(early && late)
    ensures (if early || late then Plus(Plus(a, b), one) else Plus(a, b))
         == Plus(if early then Plus(a, one) else a, if late then Plus(b, one) else b)
  {
  }

  lemma {:induction false} FoldSplits(history: seq<UsageLog>, backend: int, model: string, low: nat, high: nat)
    requires low < high
    ensures Fold(history, backend, model, low, high)
         == Plus(Fold(history, backend, model, low, high - 1), Fold(history, backend, model, high, high))
    decreases history
  {
    FoldStep(history, backend, model, low, high);
    FoldStep(history, backend, model, low, high - 1);
    FoldStep(history, backend, model, high, high);
    hide Belongs, One, Fold, Plus;
    if history == [] {
      ZeroPlusZero();
    } else {
      var n := |history| - 1;
      var log := history[n];
      FoldSplits(history[..n], backend, model, low, high);
      BelongsSplits(log, backend, model, low, high);
      SplitStep(Fold(history[..n], backend, model, low, high - 1), Fold(history[..n], backend, model, high, high),
                One(log),
                Belongs(log, backend, model, low, high - 1), Belongs(log, backend, model, high, high));
    }
  }

  lemma ZeroPlusZero()
    ensures Plus(ZERO, ZERO) == ZERO
  {
  }

  /** What the wanted rows of some hours add up to. */
  function WantedTotal(history: seq<UsageLog>, q: HourQuery, backend: int, model: string, low: nat, high: int): Stats
    decreases high - low
  {
    if high < low then ZERO
    else
      var row := Wanted(history, q, backend, model, high);
      Plus(WantedTotal(history, q, backend, model, low, high - 1), if row.Some? then row.value.stats else ZERO)
  }

  /** What a query returns for a backend and model over some hours, whatever its filters. */
  lemma {:induction false} QueryTotal(ops: seq<Op>, q: HourQuery, backend: int, model: string, low: nat, high: int)
    requires ValidQuery(q) && ValidHistory(Appended(ops)) && (high >= 0 ==> ValidHour(high))
    ensures Total(Query(ApplyAll(EMPTY, ops).stats, Clause(q)), backend, model, low, high)
         == WantedTotal(Appended(ops), q, backend, model, low, high)
    decreases high - low
  {
    hide HourText, ValidHour, ValidQuery, Query, Clause, Wanted, ApplyAll, Appended, ValidHistory, Plus;
    if low <= high {
      QueryExact(ops, q, backend, model, high);
      if high > 0 {
        HoursBetween(high - 1, high - 1, high);
      }
      QueryTotal(ops, q, backend, model, low, high - 1);
    }
  }

  lemma {:induction false} YearGrows(day: nat, later: nat, year: nat)
    requires day <= later
    ensures YearFrom(day, year).0 <= YearFrom(later, year).0
  {
    if day < later {
      YearFromIncreases(day, later, year);
    }
  }

  lemma HoursBetween(low: nat, hour: nat, high: nat)
    requires low <= hour <= high && ValidHour(high)
    ensures ValidHour(hour)
  {
    assert hour * 3600 / DAY <= high * 3600 / DAY;
    YearGrows(hour * 3600 / DAY, high * 3600 / DAY, 1);
  }

  lemma {:induction false} AllWanted(history: seq<UsageLog>, q: HourQuery, backend: int, model: string, low: nat,
                                     high: nat)
    requires low <= high && Blank(q.name) && (Blank(q.model) || model == TrimSpace(q.model))
    requires forall h | low <= h <= high :: Within(q, h)
    ensures WantedTotal(history, q, backend, model, low, high) == Fold(history, backend, model, low, high)
    decreases high - low
  {
    hide Fold, LatestName, Within, Plus, TrimSpace;
    if LatestName(history, backend, model, high).None? {
      NoLogNoStats(history, backend, model, high);
    }
    assert Within(q, high);
    if low < high {
      FoldSplits(history, backend, model, low, high);
      AllWanted(history, q, backend, model, low, high - 1);
    } else {
      PlusZero(Fold(history, backend, model, high, high));
    }
  }

  /** A query by hours, open or closed at either end, and perhaps by model, returns for any range of hours within its
      bounds what the logs ever appended in that range add up to. */
  lemma RangeQueryEqualsHistory(ops: seq<Op>, q: HourQuery, backend: int, model: string, low: nat, high: nat)
    requires ValidQuery(q) && ValidHour(high) && ValidHistory(Appended(ops))
    requires Blank(q.name) && (Blank(q.model) || model == TrimSpace(q.model))
    requires low <= high && Within(q, low) && Within(q, high)
    ensures Total(Query(ApplyAll(EMPTY, ops).stats, Clause(q)), backend, model, low, high)
         == Fold(Appended(ops), backend, model, low, high)
  {
    hide ValidHour, ValidQuery, Query, Clause, Fold, Total, ApplyAll, Appended, ValidHistory, TrimSpace;
    QueryTotal(ops, q, backend, model, low, high);
    AllWanted(Appended(ops), q, backend, model, low, high);
  }
}
