/** Which backends may serve a model, in which order, and which models the public list promises. */
module Scheduler {
  import opened Breaker
  import opened Text

  datatype Backend = Backend(id: int, row: Row, weight: int, models: seq<string>, mapping: map<string, string>)

  // ----- matching -----

  predicate HasWildcard(pattern: string) {
    '*' in pattern || '?' in pattern
  }

  /** `matchPattern`; `glob` stands for a `path.Match` that succeeds. */
  predicate Matches(glob: (string, string) -> bool, pattern: string, value: string) {
    var p := TrimSpace(pattern);
    p == "" || p == "*" || if HasWildcard(p) then glob(p, value) else p == value
  }

  predicate SupportsModel(glob: (string, string) -> bool, patterns: seq<string>, model: string) {
    exists i | 0 <= i < |patterns| :: Matches(glob, patterns[i], model)
  }

  predicate Maps(mapping: map<string, string>, key: string, model: string) {
    key in mapping && TrimSpace(key) == model && TrimSpace(mapping[key]) != ""
  }

  predicate SupportsBackendModel(glob: (string, string) -> bool, b: Backend, model: string) {
    || SupportsModel(glob, b.models, model)
    || (TrimSpace(model) != "" && exists key | key in b.mapping :: Maps(b.mapping, key, TrimSpace(model)))
  }

  /** `MappedBackendModel`: the name the upstream is asked for. */
  function MappedModel(b: Backend, model: string): string {
    var key := TrimSpace(model);
    if key in b.mapping && TrimSpace(b.mapping[key]) != "" then TrimSpace(b.mapping[key]) else model
  }

  // ----- selection -----

  predicate Eligible(glob: (string, string) -> bool, b: Backend, model: string) {
    b.row.status == Normal && SupportsBackendModel(glob, b, model)
  }

  predicate Precedes(a: Backend, b: Backend) {
    a.weight > b.weight || (a.weight == b.weight && a.id <= b.id)
  }

  predicate Ordered(s: seq<Backend>) {
    forall i, j | 0 <= i < j < |s| :: Precedes(s[i], s[j])
  }

  /** Ids are the table's primary key. */
  predicate DistinctIds(s: seq<Backend>) {
    forall i, j | 0 <= i < j < |s| :: s[i].id != s[j].id
  }

  function Candidates(glob: (string, string) -> bool, backends: seq<Backend>, model: string): (r: seq<Backend>)
    decreases backends
  {
    if backends == [] then []
    else
      var n := |backends| - 1;
      Candidates(glob, backends[..n], model) + if Eligible(glob, backends[n], model) then [backends[n]] else []
  }

  lemma InsertedOrdered(r: seq<Backend>, i: nat, b: Backend)
    requires i <= |r| && Ordered(r)
    requires (forall k | 0 <= k < i :: Precedes(r[k], b)) && forall k | i <= k < |r| :: Precedes(b, r[k])
    ensures Ordered(r[..i] + [b] + r[i..])
  {
    hide Precedes;
    var s := r[..i] + [b] + r[i..];
    forall x, y | 0 <= x < y < |s| ensures Precedes(s[x], s[y]) {
      assert s[x] == if x < i then r[x] else if x == i then b else r[x - 1];
      assert s[y] == if y < i then r[y] else if y == i then b else r[y - 1];
    }
  }

  lemma InsertedMultiset(r: seq<Backend>, i: nat, b: Backend)
    requires i <= |r|
    ensures multiset(r[..i] + [b] + r[i..]) == multiset(r) + multiset{b}
  {
    assert r == r[..i] + r[i..];
  }

  method Insert(r: seq<Backend>, b: Backend) returns (s: seq<Backend>)
    requires Ordered(r)
    ensures Ordered(s) && multiset(s) == multiset(r) + multiset{b}
  {
    hide Ordered, Precedes;
    var i := |r|;
    while i > 0 && !Precedes(r[i - 1], b)
      invariant 0 <= i <= |r|
      invariant forall k | i <= k < |r| :: Precedes(b, r[k])
    {
      i := i - 1;
      Total(r[i], b);
    }
    if i > 0 {
      Before(r, i, b);
    }
    InsertedOrdered(r, i, b);
    InsertedMultiset(r, i, b);
    s := r[..i] + [b] + r[i..];
  }

  lemma Before(r: seq<Backend>, i: nat, b: Backend)
    requires 0 < i <= |r| && Ordered(r) && Precedes(r[i - 1], b)
    ensures forall k | 0 <= k < i :: Precedes(r[k], b)
  {
    assert forall k | 0 <= k < i - 1 :: Precedes(r[k], r[i - 1]);
  }

  lemma Total(a: Backend, b: Backend)
    ensures Precedes(a, b) || Precedes(b, a)
  {
  }

  method StableSort(s: seq<Backend>) returns (r: seq<Backend>)
    ensures Ordered(r) && multiset(r) == multiset(s)
  {
    hide Ordered;
    r := [];
    assert Ordered(r) by { EmptyOrdered(); }
    for n := 0 to |s|
      invariant Ordered(r) && multiset(r) == multiset(s[..n])
    {
      assert s[..n + 1] == s[..n] + [s[n]];
      r := Insert(r, s[n]);
    }
    assert s[..|s|] == s;
  }

  lemma EmptyOrdered()
    ensures Ordered([])
  {
  }

  /** The candidates in the order they are tried; an error when there is none. */
  method SelectBackend(glob: (string, string) -> bool, backends: seq<Backend>, model: string)
    returns (selection: Result<seq<Backend>>)
    ensures selection.Err? <==> Candidates(glob, backends, model) == []
    ensures selection.Ok? ==> IsSelection(glob, backends, model, selection.value)
  {
    var candidates := [];
    for n := 0 to |backends|
      invariant candidates == Candidates(glob, backends[..n], model)
    {
      assert backends[..n + 1][..n] == backends[..n];
      if backends[n].row.status != Normal {
        continue;
      }
      if !SupportsBackendModel(glob, backends[n], model) {
        continue;
      }
      candidates := candidates + [backends[n]];
    }
    assert backends[..|backends|] == backends;
    candidates := StableSort(candidates);
    assert |candidates| == |multiset(candidates)|;
    if |candidates| == 0 {
      return Err("no backend available");
    }
    selection := Ok(candidates);
  }

  ghost predicate IsSelection(glob: (string, string) -> bool, backends: seq<Backend>, model: string, r: seq<Backend>) {
    Ordered(r) && multiset(r) == multiset(Candidates(glob, backends, model))
  }

  lemma {:induction false} CandidateCount(glob: (string, string) -> bool, backends: seq<Backend>, model: string,
                                          b: Backend)
    ensures multiset(Candidates(glob, backends, model))[b]
         == if Eligible(glob, b, model) then multiset(backends)[b] else 0
    decreases backends
  {
    hide Eligible;
    if backends != [] {
      var n := |backends| - 1;
      assert backends == backends[..n] + [backends[n]];
      CandidateCount(glob, backends[..n], model, b);
    }
  }

  /** A selection holds exactly the normal backends that support the model. */
  lemma SelectedIff(glob: (string, string) -> bool, backends: seq<Backend>, model: string, r: seq<Backend>, b: Backend)
    requires IsSelection(glob, backends, model, r)
    ensures b in r <==> b in backends && Eligible(glob, b, model)
  {
    hide Eligible;
    CandidateCount(glob, backends, model, b);
    assert b in r <==> multiset(r)[b] > 0;
    assert b in backends <==> multiset(backends)[b] > 0;
  }

  /** Two ordered lists of the same backends are the same list. */
  lemma {:induction false} OrderedUnique(a: seq<Backend>, b: seq<Backend>)
    requires Ordered(a) && Ordered(b) && DistinctIds(a) && DistinctIds(b) && forall x :: x in a <==> x in b
    ensures a == b
    decreases a
  {
    if a == [] {
      assert forall k | 0 <= k < |b| :: b[k] in b;
    } else {
      assert a[0] in a && b != [] && b[0] in b;
      assert a[0] == b[0] by {
        assert Precedes(a[0], b[0]) && Precedes(b[0], a[0]);
      }
      forall x ensures x in a[1..] <==> x in b[1..] {
        assert x in a[1..] <==> x in a && x != a[0];
        assert x in b[1..] <==> x in b && x != b[0];
      }
      OrderedUnique(a[1..], b[1..]);
    }
  }

  lemma Twice(a: seq<Backend>, i: nat, j: nat)
    requires i < j < |a| && a[i] == a[j]
    ensures multiset(a)[a[i]] >= 2
  {
    var front, back := a[..j], a[j..];
    assert a == front + back && front[i] == a[i] && back[0] == a[j];
    assert a[i] in front && a[j] in back;
    assert multiset(a) == multiset(front) + multiset(back);
  }

  lemma DistinctById(a: seq<Backend>, backends: seq<Backend>)
    requires DistinctIds(backends) && multiset(a) <= multiset(backends)
    ensures DistinctIds(a)
  {
    hide DistinctIds;
    forall i, j | 0 <= i < j < |a| ensures a[i].id != a[j].id {
      assert a[i] in multiset(a) && a[j] in multiset(a);
      OnlyOnce(backends, a[i]);
      if a[i] == a[j] {
        Twice(a, i, j);
        assert false;
      }
      assert a[i] in backends && a[j] in backends;
      DifferentIds(backends, a[i], a[j]);
    }
    DistinctMeans(a);
  }

  lemma DistinctMeans(a: seq<Backend>)
    requires forall i, j | 0 <= i < j < |a| :: a[i].id != a[j].id
    ensures DistinctIds(a)
  {
  }

  lemma DifferentIds(backends: seq<Backend>, a: Backend, b: Backend)
    requires DistinctIds(backends) && a in backends && b in backends && a != b
    ensures a.id != b.id
  {
  }

  lemma {:induction false} OnlyOnce(backends: seq<Backend>, b: Backend)
    requires DistinctIds(backends)
    ensures multiset(backends)[b] <= 1
    decreases backends
  {
    if backends != [] {
      assert backends == [backends[0]] + backends[1..];
      OnlyOnce(backends[1..], b);
      if b == backends[0] {
        assert b !in backends[1..];
      }
    }
  }

  /** The selection is a function of which backends the store holds, not of the order it lists them in. */
  lemma SelectionIsUnique(glob: (string, string) -> bool, backends: seq<Backend>, shuffled: seq<Backend>, model: string,
                          r: seq<Backend>, q: seq<Backend>)
    requires DistinctIds(backends) && DistinctIds(shuffled) && forall b :: b in backends <==> b in shuffled
    requires IsSelection(glob, backends, model, r) && IsSelection(glob, shuffled, model, q)
    ensures r == q
  {
    hide Eligible, DistinctIds, Ordered, IsSelection;
    SelectionShape(glob, backends, model, r);
    SelectionShape(glob, shuffled, model, q);
    forall b ensures b in r <==> b in q {
      SelectedIff(glob, backends, model, r, b);
      SelectedIff(glob, shuffled, model, q, b);
    }
    OrderedUnique(r, q);
  }

  lemma SelectionShape(glob: (string, string) -> bool, backends: seq<Backend>, model: string, r: seq<Backend>)
    requires DistinctIds(backends) && IsSelection(glob, backends, model, r)
    ensures Ordered(r) && DistinctIds(r)
  {
    hide Eligible, DistinctIds, Ordered;
    forall b ensures multiset(r)[b] <= multiset(backends)[b] {
      CandidateCount(glob, backends, model, b);
    }
    DistinctById(r, backends);
  }

  // ----- normalized lists and maps -----

  function NormalList(values: seq<string>): seq<string>
    decreases values
  {
    if values == [] then []
    else
      var before := NormalList(values[..|values| - 1]);
      var trimmed := TrimSpace(values[|values| - 1]);
      if trimmed == "" || trimmed in before then before else before + [trimmed]
  }

  method NormalizeList(values: seq<string>) returns (normalized: seq<string>)
    ensures normalized == NormalList(values)
  {
    var seen: set<string> := {};
    normalized := [];
    for n := 0 to |values|
      invariant normalized == NormalList(values[..n])
      invariant forall x :: x in seen <==> x in normalized
    {
      assert values[..n + 1][..n] == values[..n];
      var trimmed := TrimSpace(values[n]);
      if trimmed == "" || trimmed in seen {
        continue;
      }
      seen := seen + {trimmed};
      normalized := normalized + [trimmed];
    }
    assert values[..|values|] == values;
  }

  predicate Trimmed(s: string) {
    s != "" && TrimSpace(s) == s
  }

  predicate IsNormalList(s: seq<string>) {
    (forall i | 0 <= i < |s| :: Trimmed(s[i])) && forall i, j | 0 <= i < j < |s| :: s[i] != s[j]
  }

  /** A normalized list holds each trimmed, non-blank value once. */
  lemma {:induction false} NormalListMeaning(values: seq<string>)
    ensures IsNormalList(NormalList(values))
    ensures forall x :: x in NormalList(values) <==> x != "" && exists v | v in values :: TrimSpace(v) == x
    decreases values
  {
    hide TrimSpace;
    if values != [] {
      var n := |values| - 1;
      NormalListMeaning(values[..n]);
      TrimSpaceIdempotent(values[n]);
      assert values == values[..n] + [values[n]];
      forall x ensures x in NormalList(values) <==> x != "" && exists v | v in values :: TrimSpace(v) == x {
        assert (exists v | v in values :: TrimSpace(v) == x)
          <==> TrimSpace(values[n]) == x || exists v | v in values[..n] :: TrimSpace(v) == x;
      }
    }
  }

  /** Storing a list and reading it back normalizes twice, which changes nothing more. */
  lemma {:induction false} NormalListFixed(s: seq<string>)
    requires IsNormalList(s)
    ensures NormalList(s) == s
    decreases s
  {
    if s != [] {
      var n := |s| - 1;
      NormalListFixed(s[..n]);
      assert s == s[..n] + [s[n]];
      assert Trimmed(s[n]) && s[n] !in s[..n];
    }
  }

  predicate IsNormalMap(m: map<string, string>) {
    forall k | k in m :: Trimmed(k) && Trimmed(m[k])
  }

  /** The entries a normalized map may take a key's value from. */
  predicate Provides(values: map<string, string>, source: string, key: string) {
    source in values && TrimSpace(source) == key != "" && TrimSpace(values[source]) != ""
  }

  /** Keys and values trimmed, blank ones dropped; of several keys that trim to one, any may win. */
  predicate Normalizes(values: map<string, string>, m: map<string, string>) {
    && (forall s | s in values && TrimSpace(values[s]) != "" && TrimSpace(s) != "" :: TrimSpace(s) in m)
    && (forall k | k in m :: exists s | s in values :: Provides(values, s, k) && m[k] == TrimSpace(values[s]))
  }

  method NormalizeMap(values: map<string, string>) returns (normalized: map<string, string>)
    ensures Normalizes(values, normalized)
  {
    hide TrimSpace;
    normalized := map[];
    var left := values.Keys;
    while left != {}
      invariant left <= values.Keys
      invariant forall s | s in values && s !in left && TrimSpace(values[s]) != "" && TrimSpace(s) != "" ::
                  TrimSpace(s) in normalized
      invariant forall k | k in normalized ::
                  exists s | s in values :: Provides(values, s, k) && normalized[k] == TrimSpace(values[s])
      decreases left
    {
      var s :| s in left;
      left := left - {s};
      var key, value := TrimSpace(s), TrimSpace(values[s]);
      if key == "" || value == "" {
        continue;
      }
      assert Provides(values, s, key);
      normalized := normalized[key := value];
    }
  }

  lemma NormalMapMeaning(values: map<string, string>, m: map<string, string>)
    requires Normalizes(values, m)
    ensures IsNormalMap(m)
  {
    hide TrimSpace;
    forall k | k in m ensures Trimmed(k) && Trimmed(m[k]) {
      var s :| s in values && Provides(values, s, k) && m[k] == TrimSpace(values[s]);
      TrimSpaceIdempotent(s);
      TrimSpaceIdempotent(values[s]);
    }
  }

  lemma NormalMapFixed(values: map<string, string>, m: map<string, string>)
    requires IsNormalMap(values) && Normalizes(values, m)
    ensures m == values
  {
    hide TrimSpace;
    forall k | k in values ensures k in m {
      assert Trimmed(k) && Trimmed(values[k]);
    }
    forall k | k in m ensures k in values && m[k] == values[k] {
      var s :| s in values && Provides(values, s, k) && m[k] == TrimSpace(values[s]);
      EntryFixed(values, s, k);
    }
  }

  lemma EntryFixed(values: map<string, string>, source: string, key: string)
    requires IsNormalMap(values) && Provides(values, source, key)
    ensures source == key && TrimSpace(values[source]) == values[source]
  {
    hide TrimSpace;
    assert Trimmed(source) && Trimmed(values[source]);
  }

  // ----- the public list of models -----

  predicate MappedUpstream(mapping: map<string, string>, model: string) {
    exists key | key in mapping ::
      TrimSpace(key) != "" && TrimSpace(mapping[key]) != "" && TrimSpace(mapping[key]) == model
  }

  predicate MappedClient(mapping: map<string, string>, model: string) {
    exists key | key in mapping :: TrimSpace(key) != "" && TrimSpace(mapping[key]) != "" && TrimSpace(key) == model
  }

  predicate ListsModel(models: seq<string>, mapping: map<string, string>, model: string) {
    exists i | 0 <= i < |models| ::
      TrimSpace(models[i]) == model && !HasWildcard(model) && !MappedUpstream(mapping, model)
  }

  /** A backend promises a model: some mapping takes it, or it is listed plainly and no mapping leads to it. */
  predicate Promises(b: Backend, model: string) {
    b.row.status == Normal && (MappedClient(b.mapping, model) || ListsModel(b.models, b.mapping, model))
  }

  predicate Advertised(backends: seq<Backend>, model: string) {
    exists i | 0 <= i < |backends| :: Promises(backends[i], model)
  }

  method MappingModels(mapping: map<string, string>) returns (clients: set<string>, upstreams: set<string>)
    ensures forall m :: m in clients <==> MappedClient(mapping, m)
    ensures forall m :: m in upstreams <==> MappedUpstream(mapping, m)
  {
    hide TrimSpace;
    clients, upstreams := {}, {};
    var left := mapping.Keys;
    while left != {}
      invariant left <= mapping.Keys
      invariant forall m :: m in clients <==> MappedClient(mapping - left, m)
      invariant forall m :: m in upstreams <==> MappedUpstream(mapping - left, m)
      decreases left
    {
      var key :| key in left;
      ghost var before := mapping - left;
      left := left - {key};
      assert mapping - left == before[key := mapping[key]];
      var client, upstream := TrimSpace(key), TrimSpace(mapping[key]);
      MappedWith(before, key, mapping[key]);
      if client != "" && upstream != "" {
        upstreams := upstreams + {upstream};
        clients := clients + {client};
      }
    }
    assert mapping - left == mapping;
  }

  lemma MappedWith(mapping: map<string, string>, key: string, value: string)
    requires key !in mapping
    ensures forall m :: MappedClient(mapping[key := value], m)
              <==> MappedClient(mapping, m) || (TrimSpace(key) != "" && TrimSpace(value) != "" && TrimSpace(key) == m)
    ensures forall m :: MappedUpstream(mapping[key := value], m)
              <==> MappedUpstream(mapping, m)
                   || (TrimSpace(key) != "" && TrimSpace(value) != "" && TrimSpace(value) == m)
  {
    hide TrimSpace;
    var more := mapping[key := value];
    assert forall k | k in more :: k == key || (k in mapping && more[k] == mapping[k]);
    forall m ensures MappedClient(more, m)
              <==> MappedClient(mapping, m) || (TrimSpace(key) != "" && TrimSpace(value) != "" && TrimSpace(key) == m) {
      assert forall k | k in mapping :: k in more && more[k] == mapping[k];
      assert key in more && more[key] == value;
    }
    forall m ensures MappedUpstream(more, m)
              <==> MappedUpstream(mapping, m)
                   || (TrimSpace(key) != "" && TrimSpace(value) != "" && TrimSpace(value) == m)
    {
      assert forall k | k in mapping :: k in more && more[k] == mapping[k];
      assert key in more && more[key] == value;
    }
  }

  /** `handlePublicModels`, without the listing's own order. */
  method PublicModels(backends: seq<Backend>) returns (models: set<string>)
    ensures forall m :: m in models <==> Advertised(backends, m)
  {
    hide TrimSpace, MappedClient, MappedUpstream;
    models := {};
    for n := 0 to |backends|
      invariant forall m :: m in models <==> Advertised(backends[..n], m)
    {
      var b := backends[n];
      assert forall m :: Advertised(backends[..n + 1], m) <==> Advertised(backends[..n], m) || Promises(b, m) by {
        AdvertisedWith(backends, n);
      }
      if b.row.status != Normal {
        continue;
      }
      var clients, mapped := MappingModels(b.mapping);
      ghost var before := models + clients;
      models := models + clients;
      for i := 0 to |b.models|
        invariant forall m :: m in models <==> m in before || ListsModel(b.models[..i], b.mapping, m)
      {
        var model := TrimSpace(b.models[i]);
        ListedWith(b.models, b.mapping, i);
        if HasWildcard(model) || model in mapped {
          continue;
        }
        models := models + {model};
      }
      assert b.models[..|b.models|] == b.models;
    }
    assert backends[..|backends|] == backends;
  }

  lemma AdvertisedWith(backends: seq<Backend>, n: nat)
    requires n < |backends|
    ensures forall m :: Advertised(backends[..n + 1], m) <==> Advertised(backends[..n], m) || Promises(backends[n], m)
  {
    hide Promises;
    forall m ensures Advertised(backends[..n + 1], m) <==> Advertised(backends[..n], m) || Promises(backends[n], m) {
      var a, b := backends[..n], backends[..n + 1];
      assert b[n] == backends[n] && forall i | 0 <= i < n :: a[i] == b[i];
    }
  }

  lemma ListedWith(models: seq<string>, mapping: map<string, string>, n: nat)
    requires n < |models|
    ensures forall m :: ListsModel(models[..n + 1], mapping, m)
              <==> ListsModel(models[..n], mapping, m)
                   || (TrimSpace(models[n]) == m && !HasWildcard(m) && !MappedUpstream(mapping, m))
  {
    hide TrimSpace, MappedUpstream, HasWildcard;
    var a, b := models[..n], models[..n + 1];
    assert b[n] == models[n] && forall i | 0 <= i < n :: a[i] == b[i];
  }

  /** Every advertised model can be served: some selected backend supports it, and whichever backend does so asks
      its upstream for a name that is not empty. */
  lemma AdvertisedIsServed(glob: (string, string) -> bool, backends: seq<Backend>, model: string, r: seq<Backend>)
    requires forall b | b in backends :: IsNormalList(b.models) && IsNormalMap(b.mapping)
    requires Advertised(backends, model) && IsSelection(glob, backends, model, r)
    ensures r != [] && forall b | b in r :: MappedModel(b, model) != ""
  {
    var i :| 0 <= i < |backends| && Promises(backends[i], model);
    var b := backends[i];
    assert b in backends;
    PromiseIsKept(glob, b, model);
    hide Eligible, IsSelection;
    SelectedIff(glob, backends, model, r, b);
  }

  lemma PromiseIsKept(glob: (string, string) -> bool, b: Backend, model: string)
    requires IsNormalList(b.models) && IsNormalMap(b.mapping) && Promises(b, model)
    ensures Eligible(glob, b, model) && model != ""
  {
    hide TrimSpace;
    if MappedClient(b.mapping, model) {
      var key :| key in b.mapping && TrimSpace(key) != "" && TrimSpace(b.mapping[key]) != "" && TrimSpace(key) == model;
      TrimSpaceIdempotent(key);
      assert Maps(b.mapping, key, TrimSpace(model));
    } else {
      var i :| 0 <= i < |b.models| && TrimSpace(b.models[i]) == model && !HasWildcard(model);
      assert Trimmed(b.models[i]);
      assert Matches(glob, b.models[i], model);
    }
  }
}
