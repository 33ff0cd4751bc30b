/** Module specs, and what the daemon can learn about the module classes behind them. */
module Specs {

  /** A module spec is a tuple: the name of a module class, then the constructor's arguments.
      Per-session modules receive the spec of their session as first argument. */
  datatype Spec = Spec(name: string, params: seq<Param>)

  datatype Param = Text(text: string) | SpecParam(spec: Spec)

  const LOCK := Spec("lock", [])

  /** The class registered under a name, as far as its hooks can touch the daemon's own state. */
  datatype Class =
    | Plain                                               // hooks never call back into the daemon
    | PerSession                                          // a plain module run once per session
    | Session                                             // hooks call update()
    | Launcher(perSessionName: string, sessionType: string)  // hooks edit the selectors, then call update()

  /** What `get` builds for one spec: the lock module takes no arguments, so only LOCK is one. */
  datatype Kind = Ordinary(class_: Class) | LockKind

  /** What a running module's reconfigure() does when offered new parameters. */
  datatype Answer = Accepts | Declines | Raises

  /** Everything a run takes from the installed module classes and from Python's iteration orders. The
      three oracles answer for the outside world; their number is the moment of the question, told by
      the length of the log. */
  datatype Setting = Setting(
    classes: string -> Class,
    dependencies: Spec -> seq<Spec>,
    rank: Spec -> nat,                    // witnesses that dependencies are acyclic
    reconfigurable: string -> bool,       // classes that override reconfigure()
    answer: (Spec, Spec, nat) -> Answer,  // what a running module says to the parameters of another spec
    startWorks: (Spec, nat) -> bool,      // whether the module's own part of start() returns
    stopWorks: (Spec, nat) -> bool,       // whether the module's own part of stop() returns
    core: seq<Spec>,                      // what core_selector asks for
    setOrder: set<Spec> -> seq<Spec>,     // iteration order of a Python set
    keyOrder: set<Spec> -> seq<Spec>      // sorted order of the launchers' selector keys
  )
  {
    function KindOf(s: Spec): Kind {
      if s == LOCK then LockKind else Ordinary(classes(s.name))
    }

    predicate IsChild(s: Spec) {
      classes(s.name).PerSession?
    }

    predicate IsLauncher(s: Spec) {
      KindOf(s).Ordinary? && classes(s.name).Launcher?
    }

    ghost predicate Acyclic() {
      forall s, d :: d in dependencies(s) ==> rank(d) < rank(s)
    }

    /** Facts about the shipped classes that every result relies on. */
    ghost predicate WellFormed() {
      && Acyclic()
      && (classes(LOCK.name).Plain? && !reconfigurable(LOCK.name))
      && (forall n :: classes(n).Launcher? ==>
            classes(classes(n).perSessionName).PerSession? && classes(classes(n).sessionType).Session?)
      && (forall n :: reconfigurable(n) ==> classes(n).Plain? || classes(n).PerSession?)
      && (forall s, d :: IsChild(s) && d in dependencies(s) ==> IsChild(d))
      && (forall specs :: Elems(setOrder(specs)) == specs)
      && (forall specs :: Elems(keyOrder(specs)) == specs)
    }

    /** Facts about the shipped classes that only the claims about dependency order need. */
    ghost predicate LeavesReconfigureAndReenter() {
      && (forall s: Spec :: reconfigurable(s.name) ==> dependencies(s) == [])
      && (forall s, d :: d in dependencies(s) ==> !reconfigurable(d.name))
      && (forall s, d :: d in dependencies(s) ==> !Reenters(d))
    }

    /** Once such a module runs, nothing gets it off the list of running modules. */
    ghost predicate Unstoppable(s: Spec) {
      (forall n :: !stopWorks(s, n)) && !IsLauncher(s) && !reconfigurable(s.name)
    }

    ghost predicate AlwaysStarts(s: Spec) {
      forall n :: startWorks(s, n)
    }

    /** No hook has trouble of its own. */
    ghost predicate AllWorks() {
      && (forall s, n :: startWorks(s, n))
      && (forall s, n :: stopWorks(s, n))
      && (forall s, w, n :: !answer(s, w, n).Raises?)
    }

    /** Classes that do not override reconfigure() decline. */
    function Offered(now: nat): (Spec, Spec) -> Answer {
      (s: Spec, w: Spec) => if reconfigurable(w.name) then answer(s, w, now) else Declines
    }

    /** Whether the hooks of s call update(). */
    predicate Reenters(s: Spec) {
      KindOf(s).LockKind? || KindOf(s).class_.Session? || KindOf(s).class_.Launcher?
    }
  }

  function Elems(xs: seq<Spec>): set<Spec> {
    set x | x in xs
  }

  ghost predicate NoDuplicates(xs: seq<Spec>) {
    xs != [] ==> xs[|xs| - 1] !in xs[..|xs| - 1] && NoDuplicates(xs[..|xs| - 1])
  }

  /** The recursive definition, said about positions. */
  lemma {:induction false} DistinctPositions(xs: seq<Spec>)
    ensures NoDuplicates(xs) <==> forall i, j :: 0 <= i < j < |xs| ==> xs[i] != xs[j]
  {
    if xs != [] {
      var n := |xs| - 1;
      DistinctPositions(xs[..n]);
      if NoDuplicates(xs) {
        forall i, j | 0 <= i < j < |xs| ensures xs[i] != xs[j] {
          assert xs[i] == xs[..n][i];
          if j < n { assert xs[j] == xs[..n][j]; }
        }
      }
      if forall i, j :: 0 <= i < j < |xs| ==> xs[i] != xs[j] {
        assert xs[n] !in xs[..n];
      }
    }
  }

  lemma AppendDistinct(xs: seq<Spec>, x: Spec)
    requires NoDuplicates(xs) && x !in xs
    ensures NoDuplicates(xs + [x]) && Elems(xs + [x]) == Elems(xs) + {x}
  {
    assert (xs + [x])[..|xs + [x]| - 1] == xs;
  }

  /** Position-preserving removal, as `del xs[i]`. */
  function RemoveAt(xs: seq<Spec>, i: nat): seq<Spec>
    requires i < |xs|
  {
    xs[..i] + xs[i + 1..]
  }

  lemma RemoveAtCounts(xs: seq<Spec>, i: nat)
    requires i < |xs|
    ensures multiset(RemoveAt(xs, i)) == multiset(xs) - multiset{xs[i]}
  {
    assert xs == xs[..i] + [xs[i]] + xs[i + 1..];
  }

  lemma RemoveAtMembers(xs: seq<Spec>, i: nat)
    requires i < |xs|
    ensures forall y :: y in RemoveAt(xs, i) ==> y in xs
    ensures forall y :: y in xs && y != xs[i] ==> y in RemoveAt(xs, i)
  {
    var ys := RemoveAt(xs, i);
    assert forall j :: 0 <= j < |ys| ==> ys[j] == xs[if j < i then j else j + 1];
    forall y | y in xs && y != xs[i] ensures y in ys {
      var j :| 0 <= j < |xs| && xs[j] == y;
      assert ys[if j < i then j else j - 1] == y;
    }
  }

  lemma ReplaceMembers(xs: seq<Spec>, i: nat, w: Spec)
    requires i < |xs|
    ensures w in xs[i := w]
    ensures forall y :: y in xs[i := w] ==> y == w || y in xs
    ensures forall y :: y in xs && y != xs[i] ==> y in xs[i := w]
  {
    var ys := xs[i := w];
    assert ys[i] == w;
    forall y | y in xs && y != xs[i] ensures y in ys {
      var j :| 0 <= j < |xs| && xs[j] == y;
      assert ys[j] == y;
    }
  }

  lemma ReplaceCounts(xs: seq<Spec>, i: nat, w: Spec)
    requires i < |xs|
    ensures multiset(xs[i := w]) == multiset(xs) - multiset{xs[i]} + multiset{w}
  {
  }

  lemma InitElems(xs: seq<Spec>)
    requires xs != []
    ensures Elems(xs) == Elems(xs[..|xs| - 1]) + {xs[|xs| - 1]}
  {
    assert xs == xs[..|xs| - 1] + [xs[|xs| - 1]];
  }

  lemma {:induction false} RemoveAtDistinct(xs: seq<Spec>, i: nat)
    requires i < |xs| && NoDuplicates(xs)
    ensures NoDuplicates(RemoveAt(xs, i)) && Elems(RemoveAt(xs, i)) == Elems(xs) - {xs[i]}
  {
    var init, x := xs[..|xs| - 1], xs[|xs| - 1];
    InitElems(xs);
    if i == |xs| - 1 {
      assert RemoveAt(xs, i) == init;
    } else {
      RemoveAtDistinct(init, i);
      assert RemoveAt(xs, i) == RemoveAt(init, i) + [x];
      assert x !in Elems(RemoveAt(init, i));
      AppendDistinct(RemoveAt(init, i), x);
    }
  }

  lemma {:induction false} ReplaceDistinct(xs: seq<Spec>, i: nat, w: Spec)
    requires i < |xs| && NoDuplicates(xs) && w !in xs
    ensures NoDuplicates(xs[i := w]) && Elems(xs[i := w]) == Elems(xs) - {xs[i]} + {w}
  {
    var init, x := xs[..|xs| - 1], xs[|xs| - 1];
    InitElems(xs);
    if i == |xs| - 1 {
      assert xs[i := w] == init + [w];
      AppendDistinct(init, w);
    } else {
      ReplaceDistinct(init, i, w);
      assert xs[i := w] == init[i := w] + [x];
      assert x !in Elems(init[i := w]);
      AppendDistinct(init[i := w], x);
    }
  }

  lemma InsertRemoved(xs: seq<Spec>, i: nat)
    requires i < |xs|
    ensures InsertAt(RemoveAt(xs, i), i, xs[i]) == xs
  {
  }

  /** `xs.insert(i, x)`: an index past the end inserts at the end. */
  function InsertAt(xs: seq<Spec>, i: nat, x: Spec): seq<Spec> {
    var k := if i <= |xs| then i else |xs|;
    xs[..k] + [x] + xs[k..]
  }

  lemma InsertAtCounts(xs: seq<Spec>, i: nat, x: Spec)
    ensures multiset(InsertAt(xs, i, x)) == multiset(xs) + multiset{x}
  {
    var k := if i <= |xs| then i else |xs|;
    assert xs == xs[..k] + xs[k..];
  }

  lemma InsertAtMembers(xs: seq<Spec>, i: nat, x: Spec)
    ensures forall y :: y in InsertAt(xs, i, x) <==> y in xs || y == x
  {
    var k := if i <= |xs| then i else |xs|;
    assert xs == xs[..k] + xs[k..];
  }

  /** x lands where it was asked for, or at the end if the list is shorter by now; the rest is as before. */
  lemma InsertAtPosition(xs: seq<Spec>, i: nat, x: Spec)
    ensures var ys, k := InsertAt(xs, i, x), if i < |xs| then i else |xs|;
            |ys| == |xs| + 1 && ys[k] == x && RemoveAt(ys, k) == xs && (i >= |xs| ==> ys == xs + [x])
  {
  }

  /** `xs.remove(x)`: drops the first occurrence. */
  function RemoveFirst(xs: seq<Spec>, x: Spec): seq<Spec>
    requires x in xs
  {
    if xs[0] == x then xs[1..] else [xs[0]] + RemoveFirst(xs[1..], x)
  }

  lemma {:induction false} RemoveFirstCounts(xs: seq<Spec>, x: Spec)
    requires x in xs
    ensures multiset(RemoveFirst(xs, x)) == multiset(xs) - multiset{x}
  {
    assert xs == [xs[0]] + xs[1..];
    if xs[0] != x {
      RemoveFirstCounts(xs[1..], x);
    }
  }

  lemma {:induction false} RemoveAppended(xs: seq<Spec>, x: Spec)
    requires x !in xs
    ensures RemoveFirst(xs + [x], x) == xs
  {
    if xs != [] {
      assert (xs + [x])[1..] == xs[1..] + [x];
      RemoveAppended(xs[1..], x);
    }
  }
}
