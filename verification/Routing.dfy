/** Selection in plain terms: which backend may serve a model, in which order they are tried, which name each asks
    for, and which models the public list shows. */
module Routing {
  import opened Breaker
  import opened Scheduler
  import opened Text

  // ----- who may serve -----

  /** A listed pattern takes a model: a blank one or a star takes every model, one with a wildcard what the glob takes,
      and any other just itself. */
  predicate Takes(glob: (string, string) -> bool, pattern: string, model: string) {
    var p := TrimSpace(pattern);
    || p == "" || p == "*"
    || (('*' in p || '?' in p) && glob(p, model))
    || ('*' !in p && '?' !in p && p == model)
  }

  /** A mapping takes a model: its client name is the model once both are trimmed, and its upstream name is usable. */
  predicate TakesByMapping(mapping: map<string, string>, model: string) {
    TrimSpace(model) != "" && exists key :: key in mapping && TrimSpace(key) == TrimSpace(model) && !Blank(mapping[key])
  }

  lemma EligibleIff(glob: (string, string) -> bool, b: Backend, model: string)
    ensures Eligible(glob, b, model) <==>
              && b.row.status.Normal?
              && ((exists i :: 0 <= i < |b.models| && Takes(glob, b.models[i], model))
                  || TakesByMapping(b.mapping, model))
  {
    hide TrimSpace;
    forall i | 0 <= i < |b.models| ensures Matches(glob, b.models[i], model) <==> Takes(glob, b.models[i], model) {
    }
    hide Matches, Takes;
    if TakesByMapping(b.mapping, model) {
      var key :| key in b.mapping && TrimSpace(key) == TrimSpace(model) && !Blank(b.mapping[key]);
      assert Maps(b.mapping, key, TrimSpace(model));
    }
  }

  /** A selection holds just the stored backends that are normal and take the model, the heaviest first and the older
      of equally heavy ones before the younger. */
  lemma SelectionMeans(glob: (string, string) -> bool, backends: seq<Backend>, model: string, r: seq<Backend>)
    requires IsSelection(glob, backends, model, r)
    ensures forall b :: b in r <==> b in backends && Eligible(glob, b, model)
    ensures forall i, j | 0 <= i < j < |r| ::
              r[i].weight > r[j].weight || (r[i].weight == r[j].weight && r[i].id <= r[j].id)
  {
    hide Eligible;
    forall b ensures b in r <==> b in backends && Eligible(glob, b, model) {
      SelectedIff(glob, backends, model, r, b);
    }
  }

  // ----- the name the upstream is asked for -----

  /** With a normalized mapping a client name is replaced by its upstream name, also when it comes with white space
      around it, and every other model is asked for as it is. */
  lemma MappedIsRenamed(b: Backend, model: string)
    requires IsNormalMap(b.mapping)
    ensures forall key | key in b.mapping && key == TrimSpace(model) :: MappedModel(b, model) == b.mapping[key]
    ensures TrimSpace(model) !in b.mapping ==> MappedModel(b, model) == model
  {
    hide TrimSpace;
    forall key | key in b.mapping && key == TrimSpace(model) ensures MappedModel(b, model) == b.mapping[key] {
      assert Trimmed(b.mapping[key]);
    }
  }

  /** Without that, a mapping to a blank name does not count, and the upstream name is trimmed. */
  lemma MappedIff(b: Backend, model: string, name: string)
    ensures MappedModel(b, model) == name <==>
              || (exists key :: key in b.mapping && key == TrimSpace(model) && !Blank(b.mapping[key])
                                && name == TrimSpace(b.mapping[key]))
              || (name == model && (TrimSpace(model) in b.mapping ==> Blank(b.mapping[TrimSpace(model)])))
  {
    hide TrimSpace;
  }

  // ----- stored lists -----

  /** Adding values to a list never moves or drops what was kept before: of equal values the first one stays. */
  lemma {:induction false} FirstsStay(values: seq<string>, more: seq<string>)
    ensures NormalList(values) <= NormalList(values + more)
    decreases more
  {
    hide TrimSpace;
    if more == [] {
      assert values + more == values;
    } else {
      var n := |more| - 1;
      assert (values + more)[..|values + more| - 1] == values + more[..n];
      FirstsStay(values, more[..n]);
    }
  }

  // ----- the public list -----

  /** What a stored backend promises: while it is normal, the client names of its mapping, and the names it lists that
      are no patterns and that no mapping leads to. */
  lemma PromisesIff(b: Backend, model: string)
    requires IsNormalList(b.models) && IsNormalMap(b.mapping)
    ensures Promises(b, model) <==>
              && b.row.status.Normal?
              && (model in b.mapping
                  || (model in b.models && '*' !in model && '?' !in model && model !in b.mapping.Values))
  {
    hide TrimSpace, Trimmed;
    forall i | 0 <= i < |b.models| ensures TrimSpace(b.models[i]) == b.models[i] {
      TrimmedMeans(b.models[i]);
    }
    forall key | key in b.mapping
      ensures TrimSpace(key) == key != "" && TrimSpace(b.mapping[key]) == b.mapping[key] != ""
    {
      TrimmedMeans(key);
      TrimmedMeans(b.mapping[key]);
    }
    assert forall m :: m in b.mapping.Values <==> exists key :: key in b.mapping && b.mapping[key] == m;
    assert MappedClient(b.mapping, model) <==> model in b.mapping;
    assert MappedUpstream(b.mapping, model) <==> model in b.mapping.Values;
  }

  lemma TrimmedMeans(s: string)
    requires Trimmed(s)
    ensures TrimSpace(s) == s != ""
  {
  }
}
