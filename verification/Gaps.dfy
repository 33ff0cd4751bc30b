/** How much work is left, measured so that every operation of a re-entrant pass leaves less of it. */
module Gaps {
  import opened Specs
  import opened Expansion
  import opened Selection

  /** The occurrences in xs of modules outside keep, among per-session modules or among the others. */
  ghost function Surplus(env: Setting, child: bool, xs: seq<Spec>, keep: set<Spec>): multiset<Spec> {
    if xs == [] then multiset{}
    else
      var x := xs[|xs| - 1];
      Surplus(env, child, xs[..|xs| - 1], keep) + if env.IsChild(x) == child && x !in keep then multiset{x}
        else multiset{}
  }

  lemma {:induction false} SurplusCount(env: Setting, child: bool, xs: seq<Spec>, keep: set<Spec>, x: Spec)
    ensures Surplus(env, child, xs, keep)[x] == if env.IsChild(x) == child && x !in keep then multiset(xs)[x] else 0
  {
    if xs != [] {
      SurplusCount(env, child, xs[..|xs| - 1], keep, x);
      assert xs == xs[..|xs| - 1] + [xs[|xs| - 1]];
    }
  }

  // ---- The gap between running and wanted, per-session modules left aside ----

  /** flips: whether the lock state may still change from unlocked to locked. */
  datatype Gap = Gap(flips: nat, surplus: multiset<Spec>, missing: set<Spec>)

  function Flips(inp: Inputs, locked: bool): nat {
    if inp.shuttingDown || locked then 0 else 1
  }

  ghost function BaseGap(env: Setting, inp: Inputs, running: seq<Spec>, locked: bool): Gap
    requires env.Acyclic()
  {
    var base := BaseSet(env, inp, locked);
    Gap(Flips(inp, locked), Surplus(env, false, running, base), base - Elems(running))
  }

  ghost predicate AtMost(a: Gap, b: Gap) {
    a.flips < b.flips || (a.flips == b.flips && a.surplus <= b.surplus && a.missing <= b.missing)
  }

  ghost predicate Less(a: Gap, b: Gap) {
    AtMost(a, b) && a != b
  }

  lemma LessTransitive(a: Gap, b: Gap, c: Gap)
    requires AtMost(a, b) && Less(b, c)
    ensures Less(a, c)
  {
    assert a.surplus <= b.surplus && b.surplus <= a.surplus ==> a.surplus == b.surplus;
    assert a.missing <= b.missing && b.missing <= a.missing ==> a.missing == b.missing;
  }

  lemma SurplusRemove(env: Setting, running: seq<Spec>, i: nat, keep: set<Spec>)
    requires i < |running| && running[i] !in keep
    ensures Surplus(env, false, RemoveAt(running, i), keep) <= Surplus(env, false, running, keep)
    ensures !env.IsChild(running[i]) ==>
      Surplus(env, false, RemoveAt(running, i), keep) != Surplus(env, false, running, keep)
  {
    var x, after := running[i], RemoveAt(running, i);
    RemoveAtCounts(running, i);
    forall y ensures Surplus(env, false, after, keep)[y] <= Surplus(env, false, running, keep)[y] {
      SurplusCount(env, false, running, keep, y);
      SurplusCount(env, false, after, keep, y);
    }
    if !env.IsChild(x) {
      SurplusCount(env, false, running, keep, x);
      SurplusCount(env, false, after, keep, x);
      assert x in multiset(running);
    }
  }

  lemma GapRemove(env: Setting, inp: Inputs, running: seq<Spec>, i: nat, locked: bool)
    requires env.Acyclic() && i < |running| && running[i] !in BaseSet(env, inp, locked)
    ensures var g, g' := BaseGap(env, inp, running, locked), BaseGap(env, inp, RemoveAt(running, i), locked);
            AtMost(g', g) && (!env.IsChild(running[i]) ==> Less(g', g))
  {
    SurplusRemove(env, running, i, BaseSet(env, inp, locked));
    RemoveAtMembers(running, i);
  }

  lemma SurplusPutBack(env: Setting, running: seq<Spec>, i: nat, after: seq<Spec>, keep: set<Spec>)
    requires i < |running|
    requires Surplus(env, false, after, keep) <= Surplus(env, false, RemoveAt(running, i), keep)
    ensures Surplus(env, false, InsertAt(after, i, running[i]), keep) <= Surplus(env, false, running, keep)
  {
    var x, before, back := running[i], RemoveAt(running, i), InsertAt(after, i, running[i]);
    RemoveAtCounts(running, i);
    InsertAtCounts(after, i, x);
    forall y ensures Surplus(env, false, back, keep)[y] <= Surplus(env, false, running, keep)[y] {
      SurplusCount(env, false, running, keep, y);
      SurplusCount(env, false, before, keep, y);
      SurplusCount(env, false, after, keep, y);
      SurplusCount(env, false, back, keep, y);
      assert Surplus(env, false, after, keep)[y] <= Surplus(env, false, before, keep)[y];
    }
  }

  lemma MissingPutBack(running: seq<Spec>, i: nat, after: seq<Spec>, base: set<Spec>)
    requires i < |running| && base - Elems(after) <= base - Elems(RemoveAt(running, i))
    ensures base - Elems(InsertAt(after, i, running[i])) <= base - Elems(running)
  {
    InsertAtMembers(after, i, running[i]);
    RemoveAtMembers(running, i);
    forall y | y in base - Elems(InsertAt(after, i, running[i])) ensures y in base - Elems(running) {
      assert y in base - Elems(after);
      assert y in base - Elems(RemoveAt(running, i));
    }
  }

  /** Putting a module back undoes at most what taking it out gained. */
  lemma GapPutBack(env: Setting, inp: Inputs, running: seq<Spec>, i: nat, locked: bool, after: seq<Spec>, locked': bool)
    requires env.Acyclic() && i < |running|
    requires AtMost(BaseGap(env, inp, after, locked'), BaseGap(env, inp, RemoveAt(running, i), locked))
    ensures AtMost(BaseGap(env, inp, InsertAt(after, i, running[i]), locked'), BaseGap(env, inp, running, locked))
  {
    if Flips(inp, locked') == Flips(inp, locked) {
      var base := BaseSet(env, inp, locked);
      assert base == BaseSet(env, inp, locked');
      SurplusPutBack(env, running, i, after, base);
      MissingPutBack(running, i, after, base);
    }
  }

  lemma GapAppend(env: Setting, inp: Inputs, running: seq<Spec>, w: Spec, locked: bool)
    requires env.Acyclic() && w !in running && (!env.IsChild(w) ==> w in BaseSet(env, inp, locked))
    ensures var g, g' := BaseGap(env, inp, running, locked), BaseGap(env, inp, running + [w], locked);
            AtMost(g', g) && (!env.IsChild(w) ==> Less(g', g))
  {
    var base := BaseSet(env, inp, locked);
    assert (running + [w])[..|running|] == running;
    assert Elems(running + [w]) == Elems(running) + {w};
    if !env.IsChild(w) {
      assert w in base - Elems(running) && w !in base - Elems(running + [w]);
    }
  }

  lemma SurplusReorder(env: Setting, a: seq<Spec>, b: seq<Spec>, keep: set<Spec>)
    requires multiset(a) == multiset(b)
    ensures Surplus(env, false, a, keep) == Surplus(env, false, b, keep)
  {
    forall x ensures Surplus(env, false, a, keep)[x] == Surplus(env, false, b, keep)[x] {
      SurplusCount(env, false, a, keep, x);
      SurplusCount(env, false, b, keep, x);
    }
  }

  lemma ElemsReorder(a: seq<Spec>, b: seq<Spec>)
    requires multiset(a) == multiset(b)
    ensures Elems(a) == Elems(b)
  {
    forall x ensures x in a <==> x in b {
      assert x in multiset(a) <==> x in multiset(b);
    }
  }

  /** The gap is a matter of counts, not of order. */
  lemma GapReorder(env: Setting, inp: Inputs, a: seq<Spec>, b: seq<Spec>, locked: bool)
    requires env.Acyclic() && multiset(a) == multiset(b)
    ensures BaseGap(env, inp, a, locked) == BaseGap(env, inp, b, locked)
  {
    SurplusReorder(env, a, b, BaseSet(env, inp, locked));
    ElemsReorder(a, b);
  }

  lemma SurplusReplace(env: Setting, running: seq<Spec>, i: nat, w: Spec, keep: set<Spec>)
    requires i < |running| && running[i] !in keep && env.IsChild(w) == env.IsChild(running[i])
    requires !env.IsChild(w) ==> w in keep
    ensures Surplus(env, false, running[i := w], keep) <= Surplus(env, false, running, keep)
    ensures !env.IsChild(w) ==> Surplus(env, false, running[i := w], keep) != Surplus(env, false, running, keep)
  {
    var r, after := running[i], running[i := w];
    ReplaceCounts(running, i, w);
    forall x ensures Surplus(env, false, after, keep)[x] <= Surplus(env, false, running, keep)[x] {
      SurplusCount(env, false, running, keep, x);
      SurplusCount(env, false, after, keep, x);
    }
    if !env.IsChild(w) {
      SurplusCount(env, false, running, keep, r);
      SurplusCount(env, false, after, keep, r);
      assert r in multiset(running);
    }
  }

  lemma MissingReplace(env: Setting, running: seq<Spec>, i: nat, w: Spec, base: set<Spec>)
    requires i < |running| && running[i] !in base
    ensures base - Elems(running[i := w]) <= base - Elems(running)
  {
    ReplaceMembers(running, i, w);
  }

  lemma GapReplace(env: Setting, inp: Inputs, running: seq<Spec>, i: nat, w: Spec, locked: bool)
    requires env.Acyclic() && i < |running| && running[i] !in BaseSet(env, inp, locked)
    requires env.IsChild(w) == env.IsChild(running[i]) && (!env.IsChild(w) ==> w in BaseSet(env, inp, locked))
    ensures var g, g' := BaseGap(env, inp, running, locked), BaseGap(env, inp, running[i := w], locked);
            AtMost(g', g) && (!env.IsChild(w) ==> Less(g', g))
  {
    SurplusReplace(env, running, i, w, BaseSet(env, inp, locked));
    MissingReplace(env, running, i, w, BaseSet(env, inp, locked));
  }

  // ---- All the work left in one pass ----

  /** Beyond the gap: base modules to stop that have not failed to in this pass, and then the same
      three counts for per-session modules. */
  datatype Work = Work(
    gap: Gap,
    untried: multiset<Spec>,
    childSurplus: multiset<Spec>,
    childMissing: set<Spec>,
    childUntried: multiset<Spec>
  )

  ghost function WorkLeft(env: Setting, inp: Inputs, running: seq<Spec>, locked: bool, wanted: seq<Spec>,
      errors: seq<Spec>): Work
    requires env.Acyclic()
  {
    Work(
      BaseGap(env, inp, running, locked),
      Surplus(env, false, running, BaseSet(env, inp, locked) + Elems(errors)),
      Surplus(env, true, running, Elems(wanted)),
      ChildMissing(env, running, wanted),
      Surplus(env, true, running, Elems(wanted) + Elems(errors))
    )
  }

  ghost function ChildMissing(env: Setting, running: seq<Spec>, wanted: seq<Spec>): set<Spec> {
    set x | x in Elems(wanted) - Elems(running) && env.IsChild(x)
  }

  ghost predicate LessWork(a: Work, b: Work) {
    || Less(a.gap, b.gap)
    || (a.gap == b.gap &&
        (|| a.untried < b.untried
         || (a.untried == b.untried &&
             (|| a.childSurplus < b.childSurplus
              || (a.childSurplus == b.childSurplus &&
                  (|| a.childMissing < b.childMissing
                   || (a.childMissing == b.childMissing && a.childUntried < b.childUntried)))))))
  }

  lemma EqualGapsEqualBases(env: Setting, inp: Inputs, a: seq<Spec>, locked: bool, b: seq<Spec>, locked': bool)
    requires env.Acyclic() && BaseGap(env, inp, a, locked) == BaseGap(env, inp, b, locked')
    ensures BaseSet(env, inp, locked) == BaseSet(env, inp, locked')
  {
    assert locked == locked' || inp.shuttingDown;
  }

  /** A base module that failed to stop is not tried again in this pass. */
  lemma UntriedLess(env: Setting, child: bool, a: seq<Spec>, b: seq<Spec>, keep: set<Spec>, errors: seq<Spec>, x: Spec)
    requires Surplus(env, child, b, keep) == Surplus(env, child, a, keep)
    requires x in a && env.IsChild(x) == child && x !in keep && x !in errors
    ensures Surplus(env, child, b, keep + Elems(errors + [x])) < Surplus(env, child, a, keep + Elems(errors))
  {
    forall y ensures Surplus(env, child, b, keep + Elems(errors + [x]))[y] <= Surplus(env, child, a,
      keep + Elems(errors))[y] {
      UntriedCount(env, child, a, b, keep, errors, x, y);
    }
    UntriedCount(env, child, a, b, keep, errors, x, x);
  }

  lemma UntriedCount(env: Setting, child: bool, a: seq<Spec>, b: seq<Spec>, keep: set<Spec>, errors: seq<Spec>,
      x: Spec, y: Spec)
    requires Surplus(env, child, b, keep) == Surplus(env, child, a, keep)
    ensures Surplus(env, child, b, keep + Elems(errors + [x]))[y] <= Surplus(env, child, a, keep + Elems(errors))[y]
    ensures y == x && x in a && env.IsChild(x) == child && x !in keep && x !in errors ==>
      Surplus(env, child, b, keep + Elems(errors + [x]))[y] < Surplus(env, child, a, keep + Elems(errors))[y]
  {
    SurplusCount(env, child, a, keep, y);
    SurplusCount(env, child, b, keep, y);
    SurplusCount(env, child, a, keep + Elems(errors), y);
    SurplusCount(env, child, b, keep + Elems(errors + [x]), y);
    assert y in a <==> y in multiset(a);
  }

  /** What concerns per-session modules does not touch the base modules still to be tried. */
  lemma UntriedSame(env: Setting, a: seq<Spec>, b: seq<Spec>, keep: set<Spec>, errors: set<Spec>, errors': set<Spec>)
    requires Surplus(env, false, b, keep) == Surplus(env, false, a, keep)
    requires forall y :: !env.IsChild(y) ==> (y in errors <==> y in errors')
    ensures Surplus(env, false, b, keep + errors') == Surplus(env, false, a, keep + errors)
  {
    forall y ensures Surplus(env, false, b, keep + errors')[y] == Surplus(env, false, a, keep + errors)[y] {
      SurplusCount(env, false, a, keep, y);
      SurplusCount(env, false, b, keep, y);
      SurplusCount(env, false, a, keep + errors, y);
      SurplusCount(env, false, b, keep + errors', y);
    }
  }

  lemma ChildSurplusRemove(env: Setting, running: seq<Spec>, i: nat, keep: set<Spec>)
    requires i < |running| && running[i] !in keep && env.IsChild(running[i])
    ensures Surplus(env, true, RemoveAt(running, i), keep) < Surplus(env, true, running, keep)
  {
    var x, after := running[i], RemoveAt(running, i);
    RemoveAtCounts(running, i);
    forall y ensures Surplus(env, true, after, keep)[y] <= Surplus(env, true, running, keep)[y] {
      SurplusCount(env, true, running, keep, y);
      SurplusCount(env, true, after, keep, y);
    }
    SurplusCount(env, true, running, keep, x);
    SurplusCount(env, true, after, keep, x);
    assert x in multiset(running);
  }

  lemma ChildSurplusReplace(env: Setting, running: seq<Spec>, i: nat, w: Spec, keep: set<Spec>)
    requires i < |running| && running[i] !in keep && env.IsChild(running[i]) && w in keep
    ensures Surplus(env, true, running[i := w], keep) < Surplus(env, true, running, keep)
  {
    var r, after := running[i], running[i := w];
    ReplaceCounts(running, i, w);
    forall x ensures Surplus(env, true, after, keep)[x] <= Surplus(env, true, running, keep)[x] {
      SurplusCount(env, true, running, keep, x);
      SurplusCount(env, true, after, keep, x);
    }
    SurplusCount(env, true, running, keep, r);
    SurplusCount(env, true, after, keep, r);
    assert r in multiset(running);
  }

  lemma ChildSurplusAppend(env: Setting, running: seq<Spec>, w: Spec, keep: set<Spec>)
    requires w in keep
    ensures Surplus(env, true, running + [w], keep) == Surplus(env, true, running, keep)
  {
    assert (running + [w])[..|running|] == running;
  }

  lemma ChildMissingAppend(env: Setting, running: seq<Spec>, w: Spec, wanted: seq<Spec>)
    requires w in wanted && w !in running && env.IsChild(w)
    ensures ChildMissing(env, running + [w], wanted) < ChildMissing(env, running, wanted)
  {
    assert w in ChildMissing(env, running, wanted) && w !in ChildMissing(env, running + [w], wanted);
  }

  // ---- Each kind of operation leaves less work ----

  lemma StopFailureLessWork(env: Setting, inp: Inputs, a: seq<Spec>, la: bool, wa: seq<Spec>, errors: seq<Spec>,
                            b: seq<Spec>, lb: bool, wb: seq<Spec>, x: Spec)
    requires env.Acyclic() && AtMost(BaseGap(env, inp, b, lb), BaseGap(env, inp, a, la))
    requires x in a && x !in errors && !env.IsChild(x) && x !in BaseSet(env, inp, la)
    ensures LessWork(WorkLeft(env, inp, b, lb, wb, errors + [x]), WorkLeft(env, inp, a, la, wa, errors))
  {
    if BaseGap(env, inp, b, lb) == BaseGap(env, inp, a, la) {
      EqualGapsEqualBases(env, inp, a, la, b, lb);
      UntriedLess(env, false, a, b, BaseSet(env, inp, la), errors, x);
    }
  }

  lemma ChildFailureLessWork(env: Setting, inp: Inputs, a: seq<Spec>, l: bool, wanted: seq<Spec>, errors: seq<Spec>,
      x: Spec)
    requires env.Acyclic() && x in a && x !in errors && x !in wanted && env.IsChild(x)
    ensures LessWork(WorkLeft(env, inp, a, l, wanted, errors + [x]), WorkLeft(env, inp, a, l, wanted, errors))
  {
    UntriedSame(env, a, a, BaseSet(env, inp, l), Elems(errors), Elems(errors + [x]));
    UntriedLess(env, true, a, a, Elems(wanted), errors, x);
  }

  lemma ChildStepLessWork(env: Setting, inp: Inputs, a: seq<Spec>, b: seq<Spec>, l: bool, wanted: seq<Spec>,
      errors: seq<Spec>)
    requires env.Acyclic() && AtMost(BaseGap(env, inp, b, l), BaseGap(env, inp, a, l))
    requires var sa, sb := Surplus(env, true, a, Elems(wanted)), Surplus(env, true, b, Elems(wanted));
             sb < sa || (sb == sa && ChildMissing(env, b, wanted) < ChildMissing(env, a, wanted))
    ensures LessWork(WorkLeft(env, inp, b, l, wanted, errors), WorkLeft(env, inp, a, l, wanted, errors))
  {
    if BaseGap(env, inp, b, l) == BaseGap(env, inp, a, l) {
      UntriedSame(env, a, b, BaseSet(env, inp, l), Elems(errors), Elems(errors));
    }
  }
}
