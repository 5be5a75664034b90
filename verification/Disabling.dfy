/** How long a backend stays disabled when requests overlap with the administrator's edit. */
module Disabling {
  import opened Breaker
  import opened StoredTime
  import opened Text

  /** The steps that take a disabled backend out of that status. A success does so whoever reports it, and so does
      a failure or an edit that read the row before it was disabled. */
  predicate Reenables(w: World, s: Step, id: int) {
    match s
    case Succeed(i) => i == id
    case WriteFailure(call, _) => WritesFailure(w, s, id) && w.failing[call].row.status != Disabled
    case WriteEdit(call, wanted) =>
      && call in w.editing && w.editing[call].id == id
      && if wanted == Keep then w.editing[call].row.status != Disabled else wanted == Want(Normal)
    case _ => false
  }

  lemma DisabledUntil(threshold: int, w: World, s: Step, id: int)
    requires id in w.rows && id < w.next && w.rows[id].status == Disabled && s != Delete(id)
    ensures id in Next(threshold, w, s).rows
    ensures Next(threshold, w, s).rows[id].status != Disabled <==> Reenables(w, s, id)
  {
    hide AtMost, Format;
  }

  /** A failure that began before the administrator disabled the backend makes it normal again. */
  lemma DisablingCanBeUndone(until: Instant)
    ensures var steps := [Create, ReadFailure(0, 1), ReadEdit(0, 1), WriteEdit(0, Want(Disabled)),
                          WriteFailure(0, until)];
            1 in Run(2, INIT, steps).rows && Run(2, INIT, steps).rows[1] == Row(Normal, 1, None)
  {
    var a := Next(2, INIT, Create);
    var b := Next(2, a, ReadFailure(0, 1));
    var c := Next(2, b, ReadEdit(0, 1));
    var d := Next(2, c, WriteEdit(0, Want(Disabled)));
    var e := Next(2, d, WriteFailure(0, until));
    var s4 := [WriteFailure(0, until)];
    var s3 := [WriteEdit(0, Want(Disabled))] + s4;
    var s2 := [ReadEdit(0, 1)] + s3;
    var s1 := [ReadFailure(0, 1)] + s2;
    assert [Create] + s1
        == [Create, ReadFailure(0, 1), ReadEdit(0, 1), WriteEdit(0, Want(Disabled)), WriteFailure(0, until)];
    RunStep(2, INIT, Create, s1);
    RunStep(2, a, ReadFailure(0, 1), s2);
    RunStep(2, b, ReadEdit(0, 1), s3);
    RunStep(2, c, WriteEdit(0, Want(Disabled)), s4);
    RunStep(2, d, WriteFailure(0, until), []);
    assert s4 == [WriteFailure(0, until)] + [];
  }

  // ----- once the calls that read earlier are over -----

  /** The backend is disabled and so is every copy of its row that a caller still holds. */
  predicate Settled(w: World, id: int) {
    && id in w.rows && id < w.next && w.rows[id].status == Disabled
    && (forall call | call in w.failing && w.failing[call].id == id :: w.failing[call].row.status == Disabled)
    && (forall call | call in w.editing && w.editing[call].id == id :: w.editing[call].row.status == Disabled)
  }

  /** A success, or an edit that asks for the normal status. */
  predicate Enables(w: World, s: Step, id: int) {
    || s == Succeed(id)
    || (s.WriteEdit? && s.wanted == Want(Normal) && s.call in w.editing && w.editing[s.call].id == id)
  }

  lemma SettledStep(threshold: int, w: World, s: Step, id: int)
    requires Settled(w, id) && s != Delete(id)
    ensures Enables(w, s, id) <==> !Settled(Next(threshold, w, s), id)
    ensures Enables(w, s, id) <==> Next(threshold, w, s).rows[id].status != Disabled
  {
    hide AtMost, Format;
  }

  predicate EverEnabled(threshold: int, w: World, steps: seq<Step>, id: int)
    decreases steps
  {
    steps != [] && (Enables(w, steps[0], id) || EverEnabled(threshold, Next(threshold, w, steps[0]), steps[1..], id))
  }

  /** The backend is disabled after every step of the run. */
  predicate DisabledThroughout(threshold: int, w: World, steps: seq<Step>, id: int)
    decreases steps
  {
    && id in w.rows && w.rows[id].status == Disabled
    && (steps == [] || DisabledThroughout(threshold, Next(threshold, w, steps[0]), steps[1..], id))
  }

  /** Once every call that read before the disabling is over, a backend stays disabled through a run, whatever overlaps,
      if and only if no success of it is reported and no edit asks for the normal status. */
  lemma {:induction false} StaysDisabledIff(threshold: int, w: World, steps: seq<Step>, id: int)
    requires Settled(w, id) && Delete(id) !in steps
    ensures DisabledThroughout(threshold, w, steps, id) <==> !EverEnabled(threshold, w, steps, id)
    decreases steps
  {
    if steps != [] {
      assert steps[0] in steps;
      SettledStep(threshold, w, steps[0], id);
      hide Next, Settled, Enables;
      if Enables(w, steps[0], id) {
        NotThroughout(threshold, Next(threshold, w, steps[0]), steps[1..], id);
      } else {
        StaysDisabledIff(threshold, Next(threshold, w, steps[0]), steps[1..], id);
      }
    }
  }

  lemma NotThroughout(threshold: int, w: World, steps: seq<Step>, id: int)
    requires id in w.rows && w.rows[id].status != Disabled
    ensures !DisabledThroughout(threshold, w, steps, id)
  {
  }

  /** The administrator's write settles a backend when no caller holds a copy of its row from before. */
  lemma DisablingSettles(threshold: int, w: World, call: int, id: int)
    requires call in w.editing && w.editing[call].id == id && id in w.rows && id < w.next
    requires forall c | c in w.failing && w.failing[c].id == id :: w.failing[c].row.status == Disabled
    requires forall c | c in w.editing && w.editing[c].id == id && c != call :: w.editing[c].row.status == Disabled
    ensures Settled(Next(threshold, w, WriteEdit(call, Want(Disabled))), id)
  {
  }
}
