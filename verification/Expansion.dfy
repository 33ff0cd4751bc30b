/** Dependency expansion, as `update` performs it: depth first, then keep-first deduplication. */
module Expansion {
  import opened Specs

  /** The list `add` appends for one spec: its dependencies' expansions, then the spec itself. */
  ghost function Expand(env: Setting, s: Spec): (r: seq<Spec>)
    requires env.Acyclic()
    ensures r != [] && r[|r| - 1] == s
    decreases env.rank(s)
  {
    ExpandFrom(env, s, 0) + [s]
  }

  ghost function ExpandFrom(env: Setting, s: Spec, i: nat): seq<Spec>
    requires env.Acyclic() && i <= |env.dependencies(s)|
    decreases env.rank(s), |env.dependencies(s)| - i
  {
    var ds := env.dependencies(s);
    if i == |ds| then [] else Expand(env, ds[i]) + ExpandFrom(env, s, i + 1)
  }

  ghost function ExpandAll(env: Setting, xs: seq<Spec>): seq<Spec>
    requires env.Acyclic()
  {
    if xs == [] then [] else ExpandAll(env, xs[..|xs| - 1]) + Expand(env, xs[|xs| - 1])
  }

  /** list(dict.fromkeys(xs)) */
  function Dedupe(xs: seq<Spec>): (r: seq<Spec>)
    ensures forall x :: x in r <==> x in xs
  {
    if xs == [] then []
    else
      var x, d := xs[|xs| - 1], Dedupe(xs[..|xs| - 1]);
      assert xs == xs[..|xs| - 1] + [x];
      if x in d then d else d + [x]
  }

  /** The nested function `add` of update: appends to the list it closes over. */
  method Add(env: Setting, s: Spec, list: seq<Spec>) returns (withDependencies: seq<Spec>)
    requires env.Acyclic()
    ensures withDependencies == list + Expand(env, s)
    decreases env.rank(s)
  {
    withDependencies := list;
    var ds := env.dependencies(s);
    for i := 0 to |ds|
      invariant withDependencies + ExpandFrom(env, s, i) == list + ExpandFrom(env, s, 0)
    {
      withDependencies := Add(env, ds[i], withDependencies);
    }
    assert withDependencies == list + ExpandFrom(env, s, 0);
    withDependencies := withDependencies + [s];
  }

  method AddDependencies(env: Setting, selected: seq<Spec>) returns (wanted: seq<Spec>)
    requires env.Acyclic()
    ensures wanted == Dedupe(ExpandAll(env, selected))
  {
    var withDependencies := [];
    for i := 0 to |selected|
      invariant withDependencies == ExpandAll(env, selected[..i])
    {
      withDependencies := Add(env, selected[i], withDependencies);
      assert selected[..i + 1][..i] == selected[..i];
    }
    assert selected[..|selected|] == selected;
    wanted := Dedupe(withDependencies);
  }

  // ---- Reachability: what the expansion is for ----

  /** p is a chain of dependency edges. */
  ghost predicate IsChain(env: Setting, p: seq<Spec>) {
    p != [] && forall i :: 0 <= i < |p| - 1 ==> p[i + 1] in env.dependencies(p[i])
  }

  ghost predicate Requires(env: Setting, s: Spec, t: Spec) {
    exists p :: IsChain(env, p) && p[0] == s && p[|p| - 1] == t
  }

  /** Every dependency of every element stands before it. */
  ghost predicate Ordered(env: Setting, xs: seq<Spec>) {
    forall i, d :: 0 <= i < |xs| && d in env.dependencies(xs[i]) ==> d in xs[..i]
  }

  lemma {:induction false} ExpandReaches(env: Setting, s: Spec, t: Spec)
    requires env.Acyclic()
    ensures t in Expand(env, s) ==> Requires(env, s, t)
    decreases env.rank(s), |env.dependencies(s)| + 1
  {
    if t in ExpandFrom(env, s, 0) {
      ExpandFromReaches(env, s, 0, t);
    } else if t == s {
      assert IsChain(env, [s]);
    }
  }

  lemma {:induction false} ExpandFromReaches(env: Setting, s: Spec, i: nat, t: Spec)
    requires env.Acyclic() && i <= |env.dependencies(s)|
    ensures t in ExpandFrom(env, s, i) ==> Requires(env, s, t)
    decreases env.rank(s), |env.dependencies(s)| - i
  {
    var ds := env.dependencies(s);
    if i < |ds| {
      ExpandFromReaches(env, s, i + 1, t);
      ExpandReaches(env, ds[i], t);
      if t in Expand(env, ds[i]) {
        var p :| IsChain(env, p) && p[0] == ds[i] && p[|p| - 1] == t;
        assert IsChain(env, [s] + p);
      }
    }
  }

  lemma {:induction false} DependencyExpanded(env: Setting, s: Spec, i: nat, d: Spec, t: Spec)
    requires env.Acyclic() && i <= |env.dependencies(s)|
    requires d in env.dependencies(s)[i..] && t in Expand(env, d)
    ensures t in ExpandFrom(env, s, i)
    decreases |env.dependencies(s)| - i
  {
    var ds := env.dependencies(s);
    if ds[i] != d {
      DependencyExpanded(env, s, i + 1, d, t);
    }
  }

  lemma {:induction false} ChainExpanded(env: Setting, p: seq<Spec>)
    requires env.Acyclic() && IsChain(env, p)
    ensures p[|p| - 1] in Expand(env, p[0])
    decreases |p|
  {
    if |p| > 1 {
      var rest := p[1..];
      assert IsChain(env, rest);
      ChainExpanded(env, rest);
      DependencyExpanded(env, p[0], 0, p[1], p[|p| - 1]);
    }
  }

  /** The expansion of a spec contains exactly what the spec transitively requires. */
  lemma ExpandExact(env: Setting, s: Spec, t: Spec)
    requires env.Acyclic()
    ensures t in Expand(env, s) <==> Requires(env, s, t)
  {
    ExpandReaches(env, s, t);
    if Requires(env, s, t) {
      var p :| IsChain(env, p) && p[0] == s && p[|p| - 1] == t;
      ChainExpanded(env, p);
    }
  }

  lemma {:induction false} ExpandAllMember(env: Setting, xs: seq<Spec>, t: Spec)
    requires env.Acyclic()
    ensures t in ExpandAll(env, xs) <==> exists s :: s in xs && t in Expand(env, s)
  {
    if xs != [] {
      var init, last := xs[..|xs| - 1], xs[|xs| - 1];
      ExpandAllMember(env, init, t);
      assert xs == init + [last];
      assert last in xs;
      if s :| s in xs && t in Expand(env, s) {
        assert s in init || s == last;
      }
    }
  }

  // ---- Order ----

  lemma OrderedConcat(env: Setting, a: seq<Spec>, b: seq<Spec>)
    requires Ordered(env, a) && Ordered(env, b)
    ensures Ordered(env, a + b)
  {
    var c := a + b;
    forall i, d | 0 <= i < |c| && d in env.dependencies(c[i])
      ensures d in c[..i]
    {
      if i < |a| {
        assert c[..i] == a[..i];
      } else {
        assert c[i] == b[i - |a|];
        assert c[..i] == a + b[..i - |a|];
      }
    }
  }

  lemma OrderedAppend(env: Setting, a: seq<Spec>, s: Spec)
    requires Ordered(env, a)
    requires forall d :: d in env.dependencies(s) ==> d in a
    ensures Ordered(env, a + [s])
  {
    var c := a + [s];
    forall i, d | 0 <= i < |c| && d in env.dependencies(c[i])
      ensures d in c[..i]
    {
      assert c[..i] == a[..i];
    }
  }

  lemma {:induction false} ExpandOrdered(env: Setting, s: Spec)
    requires env.Acyclic()
    ensures Ordered(env, Expand(env, s))
    decreases env.rank(s), |env.dependencies(s)| + 1
  {
    ExpandFromOrdered(env, s, 0);
    forall d | d in env.dependencies(s) ensures d in ExpandFrom(env, s, 0) {
      DependencyExpanded(env, s, 0, d, d);
    }
    OrderedAppend(env, ExpandFrom(env, s, 0), s);
  }

  lemma {:induction false} ExpandFromOrdered(env: Setting, s: Spec, i: nat)
    requires env.Acyclic() && i <= |env.dependencies(s)|
    ensures Ordered(env, ExpandFrom(env, s, i))
    decreases env.rank(s), |env.dependencies(s)| - i
  {
    var ds := env.dependencies(s);
    if i < |ds| {
      ExpandOrdered(env, ds[i]);
      ExpandFromOrdered(env, s, i + 1);
      OrderedConcat(env, Expand(env, ds[i]), ExpandFrom(env, s, i + 1));
    }
  }

  lemma {:induction false} ExpandAllOrdered(env: Setting, xs: seq<Spec>)
    requires env.Acyclic()
    ensures Ordered(env, ExpandAll(env, xs))
  {
    if xs != [] {
      var init, last := xs[..|xs| - 1], xs[|xs| - 1];
      ExpandAllOrdered(env, init);
      ExpandOrdered(env, last);
      OrderedConcat(env, ExpandAll(env, init), Expand(env, last));
    }
  }

  lemma {:induction false} DedupeOrdered(env: Setting, xs: seq<Spec>)
    requires Ordered(env, xs)
    ensures NoDuplicates(Dedupe(xs)) && Ordered(env, Dedupe(xs))
  {
    if xs != [] {
      var init, last := xs[..|xs| - 1], xs[|xs| - 1];
      forall i, d | 0 <= i < |init| && d in env.dependencies(init[i]) ensures d in init[..i] {
        assert init[i] == xs[i] && init[..i] == xs[..i];
      }
      DedupeOrdered(env, init);
      if last !in Dedupe(init) {
        OrderedAppend(env, Dedupe(init), last);
      }
    }
  }

  /** The wanted list: duplicate-free, every dependency before its dependents, and exactly the
      specs some selected spec transitively requires. */
  lemma WantedListExact(env: Setting, selected: seq<Spec>)
    requires env.Acyclic()
    ensures var wanted := Dedupe(ExpandAll(env, selected));
            && NoDuplicates(wanted)
            && Ordered(env, wanted)
            && forall t :: t in wanted <==> exists s :: s in selected && Requires(env, s, t)
  {
    ExpandAllOrdered(env, selected);
    DedupeOrdered(env, ExpandAll(env, selected));
    forall t ensures t in Dedupe(ExpandAll(env, selected)) <==> exists s :: s in selected && Requires(env, s, t) {
      ExpandAllMember(env, selected, t);
      forall s ensures t in Expand(env, s) <==> Requires(env, s, t) {
        ExpandExact(env, s, t);
      }
    }
  }

  lemma {:induction false} ExpandAllConcat(env: Setting, xs: seq<Spec>, ys: seq<Spec>)
    requires env.Acyclic()
    ensures ExpandAll(env, xs + ys) == ExpandAll(env, xs) + ExpandAll(env, ys)
  {
    if ys == [] {
      assert xs + ys == xs;
    } else {
      var n := |ys| - 1;
      assert (xs + ys)[..|xs + ys| - 1] == xs + ys[..n];
      ExpandAllConcat(env, xs, ys[..n]);
    }
  }

  lemma {:induction false} ExpandFromIsAll(env: Setting, s: Spec, i: nat)
    requires env.Acyclic() && i <= |env.dependencies(s)|
    ensures ExpandFrom(env, s, i) == ExpandAll(env, env.dependencies(s)[i..])
    decreases |env.dependencies(s)| - i
  {
    var ds := env.dependencies(s);
    if i < |ds| {
      ExpandFromIsAll(env, s, i + 1);
      assert ds[i..] == [ds[i]] + ds[i + 1..];
      assert [ds[i]][..0] == [];
      ExpandAllConcat(env, [ds[i]], ds[i + 1..]);
    }
  }

  /** A spec stands right after its dependencies, expanded in the order in which it lists them. */
  lemma DependenciesInOrder(env: Setting, s: Spec)
    requires env.Acyclic()
    ensures Expand(env, s) == ExpandAll(env, env.dependencies(s)) + [s]
  {
    ExpandFromIsAll(env, s, 0);
    assert env.dependencies(s)[0..] == env.dependencies(s);
  }

  lemma {:induction false} DedupePrefix(xs: seq<Spec>, ys: seq<Spec>)
    ensures Dedupe(xs) <= Dedupe(xs + ys)
  {
    if ys == [] {
      assert xs + ys == xs;
    } else {
      var n := |ys| - 1;
      assert (xs + ys)[..|xs + ys| - 1] == xs + ys[..n];
      DedupePrefix(xs, ys[..n]);
    }
  }

  /** What is selected later comes later: it adds to the end of the wanted list. */
  lemma SelectedLater(env: Setting, xs: seq<Spec>, ys: seq<Spec>)
    requires env.Acyclic()
    ensures Dedupe(ExpandAll(env, xs)) <= Dedupe(ExpandAll(env, xs + ys))
  {
    ExpandAllConcat(env, xs, ys);
    DedupePrefix(ExpandAll(env, xs), ExpandAll(env, ys));
  }

  /** An ordered list is closed under transitive dependencies, and they stand earlier. */
  lemma {:induction false} OrderedClosed(env: Setting, xs: seq<Spec>, i: nat, p: seq<Spec>)
    requires Ordered(env, xs) && i < |xs|
    requires IsChain(env, p) && p[0] == xs[i] && |p| > 1
    ensures p[|p| - 1] in xs[..i]
    decreases |p|
  {
    var d := p[1];
    assert d in xs[..i];
    var j :| 0 <= j < i && xs[j] == d;
    if |p| > 2 {
      assert IsChain(env, p[1..]);
      OrderedClosed(env, xs, j, p[1..]);
    }
  }
}
