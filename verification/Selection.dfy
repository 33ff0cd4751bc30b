/** What the selectors ask for, given what is running, and the part of it that running cannot change. */
module Selection {
  import opened Specs
  import opened Expansion

  /** What stays fixed while one event is handled: the user's configuration as a function of the
      attached sessions and the lock state (the clock and each session's reading do not move), the
      attached sessions, and whether the shutdown selector is installed. */
  datatype Inputs = Inputs(config: (set<Spec>, bool) -> seq<Spec>, sessions: set<Spec>, shuttingDown: bool)

  /** The spec a launcher asks for on behalf of one session. */
  function Child(env: Setting, launcher: Spec, session: Spec): Spec
    requires env.classes(launcher.name).Launcher?
  {
    Spec(env.classes(launcher.name).perSessionName, [SpecParam(session)] + launcher.params)
  }

  predicate Serves(env: Setting, launcher: Spec, session: Spec) {
    env.classes(launcher.name).Launcher? && session.name == env.classes(launcher.name).sessionType
  }

  /** What the selector of one launcher appends. */
  function ChildrenOf(env: Setting, launcher: Spec, running: seq<Spec>): seq<Spec> {
    if running == [] then []
    else
      var init, s := running[..|running| - 1], running[|running| - 1];
      ChildrenOf(env, launcher, init) + if Serves(env, launcher, s) then [Child(env, launcher, s)] else []
  }

  function Children(env: Setting, launchers: seq<Spec>, running: seq<Spec>): seq<Spec> {
    if launchers == [] then []
    else
      Children(env, launchers[..|launchers| - 1], running) + ChildrenOf(env, launchers[|launchers| - 1], running)
  }

  function LockRequest(locked: bool): seq<Spec> {
    if locked then [LOCK] else []
  }

  /** 10-core, 20-config, 30-sessions */
  function FirstSelected(env: Setting, inp: Inputs, locked: bool): seq<Spec> {
    env.core + inp.config(inp.sessions, locked) + env.setOrder(inp.sessions)
  }

  /** The selectors in the order of their keys: the first three, 40-(launchers), 50-lock, 95-shutdown. */
  function Selected(env: Setting, inp: Inputs, launchers: set<Spec>, running: seq<Spec>, locked: bool): seq<Spec> {
    if inp.shuttingDown then []
    else FirstSelected(env, inp, locked) + Children(env, env.keyOrder(launchers), running) + LockRequest(locked)
  }

  ghost function WantedList(env: Setting, inp: Inputs, launchers: set<Spec>, running: seq<Spec>,
      locked: bool): seq<Spec>
    requires env.Acyclic()
  {
    Dedupe(ExpandAll(env, Selected(env, inp, launchers, running, locked)))
  }

  ghost function WantedSet(env: Setting, inp: Inputs, launchers: set<Spec>, running: seq<Spec>, locked: bool): set<Spec>
    requires env.Acyclic()
  {
    Elems(WantedList(env, inp, launchers, running, locked))
  }

  /** The selectors other than the launchers'. */
  function BaseSelected(env: Setting, inp: Inputs, locked: bool): seq<Spec> {
    if inp.shuttingDown then []
    else FirstSelected(env, inp, locked) + LockRequest(locked)
  }

  /** Wanted modules other than per-session ones: they do not depend on what is running. */
  ghost function BaseSet(env: Setting, inp: Inputs, locked: bool): set<Spec>
    requires env.Acyclic()
  {
    set x | x in ExpandAll(env, BaseSelected(env, inp, locked)) && !env.IsChild(x)
  }

  function NonChildren(env: Setting, xs: seq<Spec>): set<Spec> {
    set x | x in xs && !env.IsChild(x)
  }

  // ---- Membership in the selected list ----

  lemma {:induction false} ChildrenOfMember(env: Setting, launcher: Spec, running: seq<Spec>, c: Spec)
    ensures c in ChildrenOf(env, launcher, running) <==>
      exists s :: s in running && Serves(env, launcher, s) && c == Child(env, launcher, s)
  {
    if running != [] {
      var init, last := running[..|running| - 1], running[|running| - 1];
      ChildrenOfMember(env, launcher, init, c);
      assert running == init + [last];
      assert last in running;
      if s :| s in running && Serves(env, launcher, s) && c == Child(env, launcher, s) {
        assert s in init || s == last;
      }
    }
  }

  /** One launcher asks in the order of the running list. */
  lemma {:induction false} ChildrenOfConcat(env: Setting, launcher: Spec, a: seq<Spec>, b: seq<Spec>)
    ensures ChildrenOf(env, launcher, a + b) == ChildrenOf(env, launcher, a) + ChildrenOf(env, launcher, b)
  {
    if b == [] {
      assert a + b == a;
    } else {
      var n := |b| - 1;
      assert (a + b)[..|a + b| - 1] == a + b[..n];
      ChildrenOfConcat(env, launcher, a, b[..n]);
    }
  }

  /** Launchers ask in the order in which they are called. */
  lemma {:induction false} ChildrenConcat(env: Setting, a: seq<Spec>, b: seq<Spec>, running: seq<Spec>)
    ensures Children(env, a + b, running) == Children(env, a, running) + Children(env, b, running)
  {
    if b == [] {
      assert a + b == a;
    } else {
      var n := |b| - 1;
      assert (a + b)[..|a + b| - 1] == a + b[..n];
      ChildrenConcat(env, a, b[..n], running);
    }
  }

  /** The k-th request of the launchers comes before a later one exactly as the pair of launcher and
      session behind it does: by launcher first, then by place on the running list. */
  lemma ChildrenInOrder(env: Setting, before: seq<Spec>, l: Spec, after: seq<Spec>, first: seq<Spec>, s: Spec,
      last: seq<Spec>)
    requires Serves(env, l, s)
    ensures var running := first + [s] + last;
            Children(env, before + [l] + after, running) ==
              Children(env, before, running) + ChildrenOf(env, l, first) + [Child(env, l, s)]
              + ChildrenOf(env, l, last) + Children(env, after, running)
  {
    var running := first + [s] + last;
    OneEach(env, l, running, s);
    hide Children, ChildrenOf, Serves, Child;
    ChildrenConcat(env, before + [l], after, running);
    ChildrenConcat(env, before, [l], running);
    ChildrenOfConcat(env, l, first + [s], last);
    ChildrenOfConcat(env, l, first, [s]);
  }

  lemma OneEach(env: Setting, l: Spec, running: seq<Spec>, s: Spec)
    ensures Children(env, [l], running) == ChildrenOf(env, l, running)
    ensures Serves(env, l, s) ==> ChildrenOf(env, l, [s]) == [Child(env, l, s)]
  {
    assert [l][..0] == [] && [s][..0] == [];
  }

  ghost predicate Launched(env: Setting, launchers: set<Spec>, running: seq<Spec>, c: Spec) {
    exists l, s :: l in launchers && s in running && Serves(env, l, s) && c == Child(env, l, s)
  }

  lemma {:induction false} ChildrenMember(env: Setting, launchers: seq<Spec>, running: seq<Spec>, c: Spec)
    ensures c in Children(env, launchers, running) <==> Launched(env, Elems(launchers), running, c)
  {
    if launchers != [] {
      var init, last := launchers[..|launchers| - 1], launchers[|launchers| - 1];
      ChildrenMember(env, init, running, c);
      ChildrenOfMember(env, last, running, c);
      InitElems(launchers);
      if c in ChildrenOf(env, last, running) {
        var s :| s in running && Serves(env, last, s) && c == Child(env, last, s);
        assert last in Elems(launchers);
      }
    }
  }

  lemma SelectedMember(env: Setting, inp: Inputs, launchers: set<Spec>, running: seq<Spec>, locked: bool, x: Spec)
    requires env.WellFormed()
    ensures x in Selected(env, inp, launchers, running, locked) <==>
      x in BaseSelected(env, inp, locked) || (!inp.shuttingDown && Launched(env, launchers, running, x))
  {
    ChildrenMember(env, env.keyOrder(launchers), running, x);
  }

  /** Somebody asks for s by name: the core, the user, an attached session, a launcher on behalf of a
      running session of its type, or the lock. */
  ghost predicate AskedFor(env: Setting, inp: Inputs, launchers: set<Spec>, running: seq<Spec>, locked: bool, s: Spec) {
    || s in env.core
    || s in inp.config(inp.sessions, locked)
    || s in inp.sessions
    || (exists l, m :: l in launchers && m in running && RunFor(env, l, m, s))
    || (locked && s == LOCK)
  }

  /** s is the module that l runs for the session m: of the class l names, with m and then l's own
      arguments as arguments. */
  ghost predicate RunFor(env: Setting, l: Spec, m: Spec, s: Spec) {
    env.classes(l.name) == Launcher(s.name, m.name) && s.params == [SpecParam(m)] + l.params
  }

  lemma RunForChild(env: Setting, l: Spec, m: Spec, s: Spec)
    ensures RunFor(env, l, m, s) <==> Serves(env, l, m) && s == Child(env, l, m)
  {
  }

  lemma LaunchedFor(env: Setting, launchers: set<Spec>, running: seq<Spec>, s: Spec)
    ensures Launched(env, launchers, running, s) <==>
      exists l, m :: l in launchers && m in running && RunFor(env, l, m, s)
  {
    forall l, m ensures RunFor(env, l, m, s) <==> Serves(env, l, m) && s == Child(env, l, m) {
      RunForChild(env, l, m, s);
    }
    hide RunFor, Serves, Child;
  }

  /** In either lock state, the selectors select exactly what somebody asks for. */
  lemma SelectedExactly(env: Setting, inp: Inputs, launchers: set<Spec>, running: seq<Spec>, locked: bool, s: Spec)
    requires env.WellFormed()
    ensures s in Selected(env, inp, launchers, running, locked) <==>
      !inp.shuttingDown && AskedFor(env, inp, launchers, running, locked, s)
  {
    SelectedMember(env, inp, launchers, running, locked, s);
    LaunchedFor(env, launchers, running, s);
    assert s in env.setOrder(inp.sessions) <==> s in Elems(env.setOrder(inp.sessions));
    hide Launched, RunFor;
  }

  /** The selectors run in the order of their keys: core, configuration, sessions, launchers, lock. */
  ghost predicate InKeyOrder(env: Setting, inp: Inputs, launchers: set<Spec>, running: seq<Spec>, locked: bool,
      selected: seq<Spec>) {
    exists sessions, launched: seq<Spec> ::
      && Elems(sessions) == inp.sessions
      && (forall c :: c in launched <==> exists l, m :: l in launchers && m in running && RunFor(env, l, m, c))
      && selected ==
         env.core + inp.config(inp.sessions, locked) + sessions + launched + if locked then [LOCK] else []
  }

  lemma SelectedInKeyOrder(env: Setting, inp: Inputs, launchers: set<Spec>, running: seq<Spec>, locked: bool)
    requires env.WellFormed()
    ensures var selected := Selected(env, inp, launchers, running, locked);
            if inp.shuttingDown then selected == [] else InKeyOrder(env, inp, launchers, running, locked, selected)
  {
    if !inp.shuttingDown {
      var sessions, launched := env.setOrder(inp.sessions), Children(env, env.keyOrder(launchers), running);
      forall c ensures c in launched <==> exists l, m :: l in launchers && m in running && RunFor(env, l, m, c) {
        ChildrenMember(env, env.keyOrder(launchers), running, c);
        LaunchedFor(env, launchers, running, c);
      }
      assert Selected(env, inp, launchers, running, locked) ==
        env.core + inp.config(inp.sessions, locked) + sessions + launched + if locked then [LOCK] else [];
      hide RunFor, Children, Launched;
    }
  }

  lemma {:induction false} ChildExpandsToChildren(env: Setting, c: Spec, x: Spec)
    requires env.WellFormed() && env.IsChild(c) && x in Expand(env, c)
    ensures env.IsChild(x)
    decreases env.rank(c), |env.dependencies(c)| + 1
  {
    if x != c {
      ChildExpandsFrom(env, c, 0, x);
    }
  }

  lemma {:induction false} ChildExpandsFrom(env: Setting, c: Spec, i: nat, x: Spec)
    requires env.WellFormed() && env.IsChild(c) && i <= |env.dependencies(c)| && x in ExpandFrom(env, c, i)
    ensures env.IsChild(x)
    decreases env.rank(c), |env.dependencies(c)| - i
  {
    var d := env.dependencies(c)[i];
    assert d in env.dependencies(c);
    if x in Expand(env, d) {
      ChildExpandsToChildren(env, d, x);
    } else {
      ChildExpandsFrom(env, c, i + 1, x);
    }
  }

  lemma WantedMember(env: Setting, inp: Inputs, launchers: set<Spec>, running: seq<Spec>, locked: bool, x: Spec)
    requires env.WellFormed()
    ensures x in WantedList(env, inp, launchers, running, locked) <==>
      exists s :: s in Selected(env, inp, launchers, running, locked) && x in Expand(env, s)
  {
    ExpandAllMember(env, Selected(env, inp, launchers, running, locked), x);
  }

  /** A module is wanted exactly if it is, or is transitively required by, something asked for. */
  lemma WantedExactly(env: Setting, inp: Inputs, launchers: set<Spec>, running: seq<Spec>, locked: bool, t: Spec)
    requires env.WellFormed()
    ensures t in WantedSet(env, inp, launchers, running, locked) <==>
      !inp.shuttingDown && exists s :: AskedFor(env, inp, launchers, running, locked, s) && Requires(env, s, t)
  {
    WantedMember(env, inp, launchers, running, locked, t);
    forall s ensures s in Selected(env, inp, launchers, running, locked) && t in Expand(env, s) <==>
      !inp.shuttingDown && AskedFor(env, inp, launchers, running, locked, s) && Requires(env, s, t)
    {
      SelectedExactly(env, inp, launchers, running, locked, s);
      ExpandExact(env, s, t);
    }
    hide AskedFor, Requires, Selected;
  }

  /** Apart from per-session modules, what is wanted depends on the lock state alone. */
  lemma BaseOfWanted(env: Setting, inp: Inputs, launchers: set<Spec>, running: seq<Spec>, locked: bool)
    requires env.WellFormed()
    ensures NonChildren(env, WantedList(env, inp, launchers, running, locked)) == BaseSet(env, inp, locked)
  {
    forall x | !env.IsChild(x)
      ensures x in WantedList(env, inp, launchers, running, locked) <==>
        x in ExpandAll(env, BaseSelected(env, inp, locked))
    {
      WantedMember(env, inp, launchers, running, locked, x);
      ExpandAllMember(env, BaseSelected(env, inp, locked), x);
      forall s | x in Expand(env, s)
        ensures s in Selected(env, inp, launchers, running, locked) <==> s in BaseSelected(env, inp, locked)
      {
        SelectedMember(env, inp, launchers, running, locked, s);
        if Launched(env, launchers, running, s) {
          ChildExpandsToChildren(env, s, x);
        }
      }
    }
  }

  /** Only running sessions matter to the selectors, and only as a set. */
  ghost predicate SameSessions(env: Setting, a: seq<Spec>, b: seq<Spec>) {
    forall s: Spec :: env.classes(s.name).Session? ==> (s in a <==> s in b)
  }

  lemma WantedSetBySessions(env: Setting, inp: Inputs, launchers: set<Spec>, a: seq<Spec>, b: seq<Spec>, locked: bool)
    requires env.WellFormed() && SameSessions(env, a, b)
    ensures WantedSet(env, inp, launchers, a, locked) == WantedSet(env, inp, launchers, b, locked)
  {
    forall x ensures x in WantedList(env, inp, launchers, a, locked) <==>
      x in WantedList(env, inp, launchers, b, locked) {
      WantedMember(env, inp, launchers, a, locked, x);
      WantedMember(env, inp, launchers, b, locked, x);
      forall s ensures s in Selected(env, inp, launchers, a, locked) <==>
        s in Selected(env, inp, launchers, b, locked) {
        SelectedMember(env, inp, launchers, a, locked, s);
        SelectedMember(env, inp, launchers, b, locked, s);
      }
    }
  }

  /** More launchers and more sessions, more that is wanted. */
  lemma WantedMonotone(env: Setting, inp: Inputs, launchers: set<Spec>, running: seq<Spec>, launchers': set<Spec>,
      running': seq<Spec>, locked: bool)
    requires env.WellFormed() && launchers <= launchers' && Elems(running) <= Elems(running')
    ensures WantedSet(env, inp, launchers, running, locked) <= WantedSet(env, inp, launchers', running', locked)
  {
    forall x | x in running ensures x in running' {
      assert x in Elems(running);
      assert x in Elems(running');
    }
    forall x | x in WantedList(env, inp, launchers, running, locked)
      ensures x in WantedList(env, inp, launchers', running', locked)
    {
      WantedMember(env, inp, launchers, running, locked, x);
      WantedMember(env, inp, launchers', running', locked, x);
      var s :| s in Selected(env, inp, launchers, running, locked) && x in Expand(env, s);
      SelectedMember(env, inp, launchers, running, locked, s);
      SelectedMember(env, inp, launchers', running', locked, s);
    }
  }

  lemma LockedWantsLock(env: Setting, inp: Inputs)
    requires env.WellFormed() && !inp.shuttingDown
    ensures LOCK in BaseSet(env, inp, true)
  {
    var base := BaseSelected(env, inp, true);
    assert base[|base| - 1] == LOCK;
    ExpandAllMember(env, base, LOCK);
  }

  // ---- Per-session modules ----

  /** Neither the core nor the user's configuration asks for per-session modules by name, and only
      per-session modules depend on them. */
  ghost predicate ChildrenOnlyLaunched(env: Setting, inp: Inputs) {
    && (forall x, locked :: x in BaseSelected(env, inp, locked) ==> !env.IsChild(x))
    && (forall s, d :: d in env.dependencies(s) ==> !env.IsChild(d))
  }

  lemma ChainEnd(env: Setting, p: seq<Spec>)
    requires IsChain(env, p) && |p| > 1
    ensures exists s :: p[|p| - 1] in env.dependencies(s)
  {
    assert p[|p| - 2 + 1] in env.dependencies(p[|p| - 2]);
  }

  lemma {:induction false} ExpandedChild(env: Setting, s: Spec, c: Spec)
    requires env.WellFormed() && env.IsChild(c) && c in Expand(env, s)
    requires forall s, d :: d in env.dependencies(s) ==> !env.IsChild(d)
    ensures c == s
  {
    ExpandReaches(env, s, c);
    var p :| IsChain(env, p) && p[0] == s && p[|p| - 1] == c;
    if |p| > 1 {
      ChainEnd(env, p);
    }
  }

  /** Where the running set is what the selectors ask for, the per-session modules running are
      exactly one for each registered launcher and running session of its type. */
  lemma ChildrenExact(env: Setting, inp: Inputs, launchers: set<Spec>, running: seq<Spec>, locked: bool, c: Spec)
    requires env.WellFormed() && ChildrenOnlyLaunched(env, inp) && env.IsChild(c)
    requires Elems(running) == WantedSet(env, inp, launchers, running, locked)
    ensures c in running <==> !inp.shuttingDown && Launched(env, launchers, running, c)
  {
    WantedMember(env, inp, launchers, running, locked, c);
    assert c in running <==> c in Elems(running);
    SelectedMember(env, inp, launchers, running, locked, c);
    assert c in Expand(env, c);
    if c in running {
      var s :| s in Selected(env, inp, launchers, running, locked) && c in Expand(env, s);
      ExpandedChild(env, s, c);
    }
  }

  /** Another launcher with a selector asks for the same per-session module. */
  ghost predicate AskedByAnother(env: Setting, launchers: set<Spec>, running: seq<Spec>, l: Spec, c: Spec) {
    exists m, t :: m in launchers && m != l && t in running && Serves(env, m, t) && c == Child(env, m, t)
  }

  /** At such a point a running launcher lacks its module for a session exactly if it has lost its
      selector and nobody else asks for that module. */
  lemma LacksChild(env: Setting, inp: Inputs, launchers: set<Spec>, running: seq<Spec>, locked: bool, l: Spec, s: Spec)
    requires env.WellFormed() && ChildrenOnlyLaunched(env, inp)
    requires Elems(running) == WantedSet(env, inp, launchers, running, locked)
    requires l in running && s in running && Serves(env, l, s)
    ensures Child(env, l, s) !in running <==>
      l !in launchers && !AskedByAnother(env, launchers, running, l, Child(env, l, s))
  {
    var c := Child(env, l, s);
    ChildrenExact(env, inp, launchers, running, locked, c);
    WantedMember(env, inp, launchers, running, locked, l);
    assert l in Elems(running);
    assert !inp.shuttingDown;
    if l in launchers {
      assert Launched(env, launchers, running, c);
    }
    if m, t :| m in launchers && t in running && Serves(env, m, t) && c == Child(env, m, t) {
      assert m == l || AskedByAnother(env, launchers, running, l, c);
    }
  }

  /** One module per session and list of arguments: launchers ask for one and the same module exactly
      if they name the same class, serve the same session, and pass on the same arguments. */
  lemma ChildEqual(env: Setting, l: Spec, s: Spec, m: Spec, t: Spec)
    requires env.classes(l.name).Launcher? && env.classes(m.name).Launcher?
    ensures Child(env, l, s) == Child(env, m, t) <==>
      s == t && l.params == m.params && env.classes(l.name).perSessionName == env.classes(m.name).perSessionName
  {
    if Child(env, l, s) == Child(env, m, t) {
      assert Child(env, l, s).params[0] == SpecParam(s) && Child(env, m, t).params[0] == SpecParam(t);
      assert Child(env, l, s).params[1..] == l.params && Child(env, m, t).params[1..] == m.params;
    }
  }
}
