/** What the three-phase batch, and so every pass of the loop, achieves. */
module PassLaws {
  import opened Specs
  import opened Steps
  import opened Pass

  function Subject(e: Event): Spec {
    match e
    case Reconfigured(from, _) => from
    case ReconfigureFailed(from, _) => from
    case Stopped(s) => s
    case StopFailed(s) => s
    case Started(s) => s
    case StartFailed(s) => s
  }

  /** The elements of xs that are in keep, in their order. */
  function Keep(xs: seq<Spec>, keep: set<Spec>): seq<Spec> {
    if xs == [] then []
    else Keep(xs[..|xs| - 1], keep) + if xs[|xs| - 1] in keep then [xs[|xs| - 1]] else []
  }

  lemma {:induction false} KeepReplace(xs: seq<Spec>, i: nat, y: Spec, keep: set<Spec>)
    requires i < |xs| && xs[i] !in keep && y !in keep
    ensures Keep(xs[i := y], keep) == Keep(xs, keep)
  {
    var init, x, after := xs[..|xs| - 1], xs[|xs| - 1], xs[i := y];
    if i < |xs| - 1 {
      assert after[..|xs| - 1] == init[i := y];
      KeepReplace(init, i, y, keep);
    } else {
      assert after[..|xs| - 1] == init;
    }
  }

  /** How far running is from wanted, in working steps. */
  function Distance(running: seq<Spec>, wanted: seq<Spec>): nat {
    |Elems(wanted) - Elems(running)| + |Elems(running) - Elems(wanted)|
  }

  lemma CloserByReplacing(running: seq<Spec>, i: nat, w: Spec, wanted: seq<Spec>)
    requires NoDuplicates(running) && i < |running| && Replaceable(running, wanted, i, w) && w in wanted
    ensures NoDuplicates(running[i := w]) && Distance(running[i := w], wanted) + 2 == Distance(running, wanted)
    ensures Elems(running) * Elems(wanted) <= Elems(running[i := w])
  {
    var after := running[i := w];
    ReplaceDistinct(running, i, w);
    assert Elems(wanted) - Elems(after) == (Elems(wanted) - Elems(running)) - {w};
    assert Elems(after) - Elems(wanted) == (Elems(running) - Elems(wanted)) - {running[i]};
    assert w in Elems(wanted) - Elems(running);
    assert running[i] in Elems(running) - Elems(wanted);
  }

  lemma {:induction false} ReconfigurePhaseDistance(running: seq<Spec>, wanted: seq<Spec>, k: nat, h: Hooks)
    requires k <= |wanted| && NoDuplicates(running)
    ensures var b := ReconfigurePhase(running, wanted, k, h);
            && NoDuplicates(b.running) && (b.raised ==> Distance(b.running, wanted) >= 2)
            && 2 * |b.trace| + Distance(b.running, wanted) == Distance(running, wanted) + if b.raised then 2 else 0
    decreases |wanted| - k
  {
    hide Offer, Distance, NoDuplicates;
    if k < |wanted| {
      match Offer(running, wanted, k, 0, h)
      case NoneAccepts => ReconfigurePhaseDistance(running, wanted, k + 1, h);
      case AttemptRaised(i, _) => CloserByReplacing(running, i, wanted[k], wanted);
      case Accepted(i, _) =>
        CloserByReplacing(running, i, wanted[k], wanted);
        ReconfigurePhaseDistance(running[i := wanted[k]], wanted, k + 1, h);
    }
  }

  lemma {:induction false} ReconfigurePhaseOrder(running: seq<Spec>, wanted: seq<Spec>, k: nat, h: Hooks,
      keep: set<Spec>)
    requires k <= |wanted| && NoDuplicates(running) && keep <= Elems(running) * Elems(wanted)
    ensures var b := ReconfigurePhase(running, wanted, k, h);
            && Keep(b.running, keep) == Keep(running, keep)
            && keep <= Elems(b.running)
            && (forall e :: e in b.trace ==> Subject(e) !in wanted)
    decreases |wanted| - k
  {
    if k < |wanted| {
      match Offer(running, wanted, k, 0, h)
      case NoneAccepts => ReconfigurePhaseOrder(running, wanted, k + 1, h, keep);
      case AttemptRaised(_, _) =>
      case Accepted(i, _) =>
        CloserByReplacing(running, i, wanted[k], wanted);
        KeepReplace(running, i, wanted[k], keep);
        ReconfigurePhaseOrder(running[i := wanted[k]], wanted, k + 1, h, keep);
    }
  }

  /** What the stop phase leaves running: what is wanted, and what fails to stop. */
  function Survivors(running: seq<Spec>, wanted: seq<Spec>, errors: seq<Spec>, h: Hooks): set<Spec> {
    set y | y in Elems(running) && (Stoppable(y, wanted, errors) ==> h.stopFails(y))
  }

  function StopFailures(running: seq<Spec>, wanted: seq<Spec>, errors: seq<Spec>, h: Hooks): set<Spec> {
    set y | y in Elems(running) && Stoppable(y, wanted, errors) && h.stopFails(y)
  }

  /** How the last module on the list adds to what survives and what fails. */
  lemma LastSurvivor(running: seq<Spec>, wanted: seq<Spec>, errors: seq<Spec>, h: Hooks)
    requires running != []
    ensures var init, x := running[..|running| - 1], running[|running| - 1];
            && Survivors(running, wanted, errors, h) ==
              Survivors(init, wanted, errors, h) + (if Stoppable(x, wanted, errors) && !h.stopFails(x) then {} else {x})
            && StopFailures(running, wanted, errors, h) ==
              StopFailures(init, wanted, errors, h) + if Stoppable(x, wanted, errors) && h.stopFails(x) then {x} else {}
  {
    InitElems(running);
  }

  lemma {:induction false} StopPhaseMembers(running: seq<Spec>, wanted: seq<Spec>, errors: seq<Spec>, h: Hooks)
    requires NoDuplicates(running)
    ensures var b := StopPhase(running, wanted, errors, h);
            && NoDuplicates(b.running) && !b.raised
            && Elems(b.running) == Survivors(running, wanted, errors, h)
            && Elems(b.errors) == Elems(errors) + StopFailures(running, wanted, errors, h)
  {
    if running != [] {
      var init, x := running[..|running| - 1], running[|running| - 1];
      LastSurvivor(running, wanted, errors, h);
      if !Stoppable(x, wanted, errors) {
        StopPhaseMembers(init, wanted, errors, h);
        AppendSurvivor(init, x, wanted, errors, errors, h);
        hide Survivors, StopFailures;
      } else if h.stopFails(x) {
        StopPhaseMembers(init, wanted, errors + [x], h);
        AppendSurvivor(init, x, wanted, errors + [x], errors, h);
        assert Elems(errors + [x]) == Elems(errors) + {x};
        hide Survivors, StopFailures;
      } else {
        StopPhaseMembers(init, wanted, errors, h);
        hide Survivors, StopFailures;
      }
    }
  }

  lemma AppendSurvivor(init: seq<Spec>, x: Spec, wanted: seq<Spec>, errors': seq<Spec>, errors: seq<Spec>, h: Hooks)
    requires x !in init && (errors' == errors || errors' == errors + [x])
    requires NoDuplicates(StopPhase(init, wanted, errors', h).running)
    requires Elems(StopPhase(init, wanted, errors', h).running) == Survivors(init, wanted, errors', h)
    ensures NoDuplicates(StopPhase(init, wanted, errors', h).running + [x])
    ensures Elems(StopPhase(init, wanted, errors', h).running + [x]) == Survivors(init, wanted, errors, h) + {x}
    ensures StopFailures(init, wanted, errors', h) == StopFailures(init, wanted, errors, h)
  {
    assert x !in Survivors(init, wanted, errors', h);
    AppendDistinct(StopPhase(init, wanted, errors', h).running, x);
    assert forall y :: y in Elems(init) ==> Stoppable(y, wanted, errors') == Stoppable(y, wanted, errors);
  }

  lemma {:induction false} StopPhaseOrder(running: seq<Spec>, wanted: seq<Spec>, errors: seq<Spec>, h: Hooks,
      keep: set<Spec>)
    requires keep <= Elems(wanted)
    ensures var b := StopPhase(running, wanted, errors, h);
            && Keep(b.running, keep) == Keep(running, keep)
            && (forall e :: e in b.trace ==> Subject(e) !in wanted)
  {
    if running != [] {
      var init, x := running[..|running| - 1], running[|running| - 1];
      if !Stoppable(x, wanted, errors) {
        StopPhaseOrder(init, wanted, errors, h, keep);
        var b := StopPhase(init, wanted, errors, h);
        assert (b.running + [x])[..|b.running|] == b.running;
      } else if h.stopFails(x) {
        StopPhaseOrder(init, wanted, errors + [x], h, keep);
        var b := StopPhase(init, wanted, errors + [x], h);
        assert (b.running + [x])[..|b.running|] == b.running;
      } else {
        StopPhaseOrder(init, wanted, errors, h, keep);
      }
    }
  }

  lemma {:induction false} StopPhaseLength(running: seq<Spec>, wanted: seq<Spec>, errors: seq<Spec>, h: Hooks)
    requires NoDuplicates(running)
    ensures |StopPhase(running, wanted, errors, h).trace| <= |Elems(running) - Elems(wanted) - Elems(errors)|
  {
    if running != [] {
      var init, x := running[..|running| - 1], running[|running| - 1];
      InitElems(running);
      var before := Elems(running) - Elems(wanted) - Elems(errors);
      if !Stoppable(x, wanted, errors) {
        StopPhaseLength(init, wanted, errors, h);
        assert Elems(init) - Elems(wanted) - Elems(errors) == before;
      } else {
        assert x in before;
        if h.stopFails(x) {
          StopPhaseLength(init, wanted, errors + [x], h);
          assert Elems(errors + [x]) == Elems(errors) + {x};
          assert Elems(init) - Elems(wanted) - Elems(errors + [x]) == before - {x};
        } else {
          StopPhaseLength(init, wanted, errors, h);
          assert Elems(init) - Elems(wanted) - Elems(errors) == before - {x};
        }
      }
    }
  }

  lemma {:induction false} StartPhaseMembers(running: seq<Spec>, wanted: seq<Spec>, k: nat, h: Hooks)
    requires k <= |wanted| && NoDuplicates(running)
    ensures var b := StartPhase(running, wanted, k, h);
            && NoDuplicates(b.running)
            && (!b.raised ==> Elems(b.running) == Elems(running) + Elems(wanted[k..]))
    decreases |wanted| - k
  {
    if k < |wanted| {
      var w := wanted[k];
      assert wanted[k..] == [w] + wanted[k + 1..];
      assert Elems(wanted[k..]) == {w} + Elems(wanted[k + 1..]);
      if w in running {
        StartPhaseMembers(running, wanted, k + 1, h);
      } else {
        AppendDistinct(running, w);
        StartPhaseMembers(running + [w], wanted, k + 1, h);
      }
    }
  }

  lemma {:induction false} StartPhaseOrder(running: seq<Spec>, wanted: seq<Spec>, k: nat, h: Hooks, keep: set<Spec>)
    requires k <= |wanted| && keep <= Elems(running)
    ensures var b := StartPhase(running, wanted, k, h);
            && Keep(b.running, keep) == Keep(running, keep)
            && (forall e :: e in b.trace ==> Subject(e) !in keep)
            && |b.trace| <= |Elems(wanted) - Elems(running)|
    decreases |wanted| - k
  {
    if k < |wanted| {
      var w := wanted[k];
      if w in running {
        StartPhaseOrder(running, wanted, k + 1, h, keep);
      } else {
        var after := running + [w];
        assert after[..|running|] == running;
        assert Elems(after) == Elems(running) + {w};
        assert Elems(wanted) - Elems(after) == (Elems(wanted) - Elems(running)) - {w};
        assert w in Elems(wanted) - Elems(running);
        StartPhaseOrder(after, wanted, k + 1, h, keep);
      }
    }
  }

  lemma StopThenStartMembers(running: seq<Spec>, wanted: seq<Spec>, h: Hooks)
    requires NoDuplicates(running)
    ensures var b := StopThenStart(running, wanted, [], h);
            && NoDuplicates(b.running)
            && (forall x :: x in Elems(b.errors) ==> h.stopFails(x) && x !in wanted)
            && (!b.raised ==> Elems(b.running) == Elems(wanted) + Elems(b.errors))
  {
    var b := StopPhase(running, wanted, [], h);
    StopPhaseMembers(running, wanted, [], h);
    StartPhaseMembers(b.running, wanted, 0, h);
    assert wanted[0..] == wanted;
    assert Elems(b.running) + Elems(wanted) == Elems(wanted) + StopFailures(running, wanted, [], h);
  }

  lemma StopThenStartOrder(running: seq<Spec>, wanted: seq<Spec>, h: Hooks, keep: set<Spec>)
    requires NoDuplicates(running) && keep <= Elems(running) * Elems(wanted)
    ensures var b := StopThenStart(running, wanted, [], h);
            && Keep(b.running, keep) == Keep(running, keep)
            && (forall e :: e in b.trace ==> Subject(e) !in keep)
            && |b.trace| <= Distance(running, wanted)
  {
    var b := StopPhase(running, wanted, [], h);
    StopPhaseOrder(running, wanted, [], h, keep);
    StopPhaseLength(running, wanted, [], h);
    StopPhaseKeepsWanted(running, wanted, h);
    StartPhaseOrder(b.running, wanted, 0, h, keep);
  }

  lemma StopPhaseKeepsWanted(running: seq<Spec>, wanted: seq<Spec>, h: Hooks)
    requires NoDuplicates(running)
    ensures Elems(wanted) - Elems(StopPhase(running, wanted, [], h).running) == Elems(wanted) - Elems(running)
    ensures Elems(running) * Elems(wanted) <= Elems(StopPhase(running, wanted, [], h).running)
    ensures Elems(running) - Elems(wanted) - Elems([]) == Elems(running) - Elems(wanted)
  {
    StopPhaseMembers(running, wanted, [], h);
  }

  lemma ReconfigurePhaseDistinct(running: seq<Spec>, wanted: seq<Spec>, h: Hooks)
    requires NoDuplicates(running)
    ensures NoDuplicates(ReconfigurePhase(running, wanted, 0, h).running)
  {
    ReconfigurePhaseDistance(running, wanted, 0, h);
  }

  /** The contract of start_stop_modules, for hooks that do not call back: afterwards running
      matches wanted, except for the modules that failed to stop. */
  lemma PassSynchronizes(running: seq<Spec>, wanted: seq<Spec>, h: Hooks)
    requires NoDuplicates(running)
    ensures var b := WholePass(running, wanted, [], h);
            && NoDuplicates(b.running)
            && (b.Outcome().Synchronized? ==> Elems(b.running) == Elems(wanted))
            && (b.Outcome().FailedToStop? ==> Elems(b.running) == Elems(wanted) + Elems(b.errors))
            && (forall x :: x in Elems(b.errors) ==> h.stopFails(x) && x !in wanted)
  {
    var a := ReconfigurePhase(running, wanted, 0, h);
    ReconfigurePhaseDistinct(running, wanted, h);
    if a.raised {
      assert WholePass(running, wanted, [], h) == Batch(a.running, a.trace, [], true);
    } else {
      StopThenStartMembers(a.running, wanted, h);
      var b := StopThenStart(a.running, wanted, [], h);
      assert WholePass(running, wanted, [], h) == b.(trace := a.trace + b.trace);
      assert b.errors == [] ==> Elems(b.errors) == {};
    }
  }

  /** The trace tells what the hooks did. */
  predicate Truthful(h: Hooks, e: Event) {
    match e
    case Reconfigured(from, to) => h.reconfigure(from, to).Accepts?
    case ReconfigureFailed(from, to) => h.reconfigure(from, to).Raises?
    case Stopped(s) => !h.stopFails(s)
    case StopFailed(s) => h.stopFails(s)
    case Started(s) => !h.startFails(s)
    case StartFailed(s) => h.startFails(s)
  }

  ghost predicate AllTruthful(h: Hooks, trace: seq<Event>) {
    forall e :: e in trace ==> Truthful(h, e)
  }

  predicate EndsPass(e: Event) {
    e.StartFailed? || e.ReconfigureFailed?
  }

  /** The pass was cut short exactly if the trace has a start or a reconfigure that raised. */
  ghost predicate RaisedByTrace(b: Batch) {
    b.raised <==> exists e :: e in b.trace && EndsPass(e)
  }

  lemma Prepended(h: Hooks, b: Batch, e: Event)
    requires AllTruthful(h, b.trace) && RaisedByTrace(b) && Truthful(h, e) && !EndsPass(e)
    ensures AllTruthful(h, b.Prepend(e).trace) && RaisedByTrace(b.Prepend(e))
  {
    assert forall f :: f in b.Prepend(e).trace <==> f == e || f in b.trace;
    hide Truthful;
  }

  lemma {:induction false} OfferTruthful(running: seq<Spec>, wanted: seq<Spec>, k: nat, i: nat, h: Hooks)
    requires k < |wanted| && i <= |running|
    ensures var r := Offer(running, wanted, k, i, h);
            && (r.Accepted? ==> h.reconfigure(running[r.i], wanted[k]).Accepts?)
            && (r.AttemptRaised? ==> h.reconfigure(running[r.i], wanted[k]).Raises?)
    decreases |running| - i
  {
    if i < |running| {
      OfferTruthful(running, wanted, k, i + 1, h);
    }
  }

  lemma {:induction false} ReconfigurePhaseTruthful(running: seq<Spec>, wanted: seq<Spec>, k: nat, h: Hooks)
    requires k <= |wanted|
    ensures var b := ReconfigurePhase(running, wanted, k, h); AllTruthful(h, b.trace) && RaisedByTrace(b)
    decreases |wanted| - k
  {
    if k < |wanted| {
      OfferTruthful(running, wanted, k, 0, h);
      match Offer(running, wanted, k, 0, h)
      case NoneAccepts => ReconfigurePhaseTruthful(running, wanted, k + 1, h);
      case AttemptRaised(i, _) =>
        var e := ReconfigureFailed(running[i], wanted[k]);
        assert e in [e] && EndsPass(e);
      case Accepted(i, _) =>
        var after := running[i := wanted[k]];
        ReconfigurePhaseTruthful(after, wanted, k + 1, h);
        Prepended(h, ReconfigurePhase(after, wanted, k + 1, h), Reconfigured(running[i], wanted[k]));
        hide AllTruthful, RaisedByTrace;
    }
  }

  lemma {:induction false} StopPhaseTruthful(running: seq<Spec>, wanted: seq<Spec>, errors: seq<Spec>, h: Hooks)
    ensures var b := StopPhase(running, wanted, errors, h); AllTruthful(h, b.trace) && RaisedByTrace(b)
  {
    if running != [] {
      var init, x := running[..|running| - 1], running[|running| - 1];
      if !Stoppable(x, wanted, errors) {
        StopPhaseTruthful(init, wanted, errors, h);
      } else if h.stopFails(x) {
        var b := StopPhase(init, wanted, errors + [x], h);
        StopPhaseTruthful(init, wanted, errors + [x], h);
        Prepended(h, b, StopFailed(x));
      } else {
        StopPhaseTruthful(init, wanted, errors, h);
        Prepended(h, StopPhase(init, wanted, errors, h), Stopped(x));
      }
    }
  }

  lemma {:induction false} StartPhaseTruthful(running: seq<Spec>, wanted: seq<Spec>, k: nat, h: Hooks)
    requires k <= |wanted|
    ensures var b := StartPhase(running, wanted, k, h); AllTruthful(h, b.trace) && RaisedByTrace(b)
    decreases |wanted| - k
  {
    if k < |wanted| {
      var w := wanted[k];
      if w in running {
        StartPhaseTruthful(running, wanted, k + 1, h);
      } else if h.startFails(w) {
        assert StartFailed(w) in [StartFailed(w)] && EndsPass(StartFailed(w));
      } else {
        StartPhaseTruthful(running + [w], wanted, k + 1, h);
        Prepended(h, StartPhase(running + [w], wanted, k + 1, h), Started(w));
        hide AllTruthful, RaisedByTrace;
      }
    }
  }

  lemma TracesJoined(h: Hooks, a: Batch, b: Batch, c: Batch)
    requires AllTruthful(h, a.trace) && AllTruthful(h, b.trace) && RaisedByTrace(a) && RaisedByTrace(b) && !a.raised
    requires c.trace == a.trace + b.trace && c.raised == b.raised
    ensures AllTruthful(h, c.trace) && RaisedByTrace(c)
  {
    assert forall e :: e in c.trace <==> e in a.trace || e in b.trace;
    hide Truthful;
  }

  /** The trace of a pass tells what the hooks did, and the pass raises exactly if a start or a
      reconfigure did. */
  lemma PassTruthful(running: seq<Spec>, wanted: seq<Spec>, h: Hooks)
    requires NoDuplicates(running)
    ensures var b := WholePass(running, wanted, [], h);
            && (forall e :: e in b.trace ==> Truthful(h, e))
            && (b.Outcome().Raised? <==> exists e :: e in b.trace && (e.StartFailed? || e.ReconfigureFailed?))
  {
    var a := ReconfigurePhase(running, wanted, 0, h);
    ReconfigurePhaseTruthful(running, wanted, 0, h);
    if !a.raised {
      var b := StopPhase(a.running, wanted, [], h);
      var c := StartPhase(b.running, wanted, 0, h);
      StopPhaseTruthful(a.running, wanted, [], h);
      StartPhaseTruthful(b.running, wanted, 0, h);
      ReconfigurePhaseDistinct(running, wanted, h);
      StopPhaseMembers(a.running, wanted, [], h);
      var d := StopThenStart(a.running, wanted, [], h);
      TracesJoined(h, b, c, d);
      TracesJoined(h, a, d, WholePass(running, wanted, [], h));
    }
    hide Truthful;
  }

  /** Where no hook fails, every pass synchronizes. */
  lemma PassWorks(running: seq<Spec>, wanted: seq<Spec>, h: Hooks)
    requires NoDuplicates(running)
    requires forall s :: !h.stopFails(s) && !h.startFails(s)
    requires forall r, w :: !h.reconfigure(r, w).Raises?
    ensures WholePass(running, wanted, [], h).Outcome().Synchronized?
    ensures Elems(WholePass(running, wanted, [], h).running) == Elems(wanted)
  {
    var b := WholePass(running, wanted, [], h);
    PassTruthful(running, wanted, h);
    PassSynchronizes(running, wanted, h);
    assert b.errors != [] ==> b.errors[0] in Elems(b.errors);
    hide WholePass;
  }

  /** Modules both running and wanted are not touched and keep their order, and every working step
      brings the two lists closer. */
  lemma PassSparesShared(running: seq<Spec>, wanted: seq<Spec>, h: Hooks)
    requires NoDuplicates(running)
    ensures var b := WholePass(running, wanted, [], h);
            var both := Elems(running) * Elems(wanted);
            && (forall e :: e in b.trace ==> Subject(e) !in both)
            && Keep(b.running, both) == Keep(running, both)
            && |b.trace| <= Distance(running, wanted)
  {
    var both := Elems(running) * Elems(wanted);
    var a := ReconfigurePhase(running, wanted, 0, h);
    ReconfigurePhaseDistance(running, wanted, 0, h);
    ReconfigurePhaseOrder(running, wanted, 0, h, both);
    if !a.raised {
      StopThenStartOrder(a.running, wanted, h, both);
    }
  }
}
