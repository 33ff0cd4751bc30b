/** Launchers that have lost their selector: how one comes about, and that none ever recovers. */
module Launchers {
  import opened Specs
  import opened Expansion
  import opened Steps
  import opened Selection
  import opened DependencyOrder
  import opened Gaps
  import opened Daemon
  import opened Events

  /** A launcher runs, but its selector is gone. */
  ghost predicate Stranded(d: Daemon, l: Spec)
    reads d
  {
    d.env.IsLauncher(l) && l in d.running && l !in d.launchers
  }

  /** Whatever is drained from the event queue afterwards, a stop of the daemon included. */
  method StaysStranded(d: Daemon, loop: EventLoop, l: Spec)
    requires d.Valid() && Stranded(d, l)
    modifies d, loop
    ensures d.Valid() && Stranded(d, l)
  {
    assert Fixed(d.env, d.launchers, l);
    ghost var _ := loop.Run(d);
  }

  /** With the daemon in step, a running launcher has no module for a running session of its type
      exactly if it is stranded and no launcher with a selector asks for that module. */
  lemma StrandedLacksChildren(d: Daemon, l: Spec, s: Spec)
    requires d.Valid() && d.Fresh() && Elems(d.running) == Elems(d.wanted) && ChildrenOnlyLaunched(d.env, d.In())
    requires l in d.running && s in d.running && Serves(d.env, l, s)
    ensures Child(d.env, l, s) !in d.running <==>
      Stranded(d, l) && !AskedByAnother(d.env, d.launchers, d.running, l, Child(d.env, l, s))
  {
    LacksChild(d.env, d.In(), d.launchers, d.running, d.locked, l, s);
  }

  // ---- How it comes about ----

  const THE_SESSION := Spec("session", [])
  const THE_LAUNCHER := Spec("launcher", [])
  const THE_CHILD := Spec("child", [SpecParam(THE_SESSION)])

  /** One launcher class, one session class; everything starts, and the module for the session never
      stops. */
  ghost predicate Small(env: Setting) {
    && env.WellFormed()
    && env.classes("session") == Session && env.classes("child") == PerSession
    && env.classes("launcher") == Launcher("child", "session")
    && env.core == [] && !env.reconfigurable("child")
    && (forall s, n :: env.startWorks(s, n)) && (forall s, n :: env.stopWorks(s, n) <==> s != THE_CHILD)
    && (forall s :: env.dependencies(s) == [])
  }

  ghost function AnyOrder(specs: set<Spec>): (r: seq<Spec>)
    ensures Elems(r) == specs
  {
    if specs == {} then []
    else
      var s :| s in specs;
      var rest := AnyOrder(specs - {s});
      assert Elems([s] + rest) == {s} + Elems(rest);
      [s] + rest
  }

  lemma SmallExists()
    ensures exists env :: Small(env)
  {
    var env := Setting(
      n => if n == "session" then Session else if n == "child" then PerSession
           else if n == "launcher" then Launcher("child", "session") else Plain,
      s => [], s => 0, n => false, (s, w, n) => Declines, (s, n) => true, (s, n) => s != THE_CHILD, [],
      specs => AnyOrder(specs), specs => AnyOrder(specs));
    assert Small(env);
  }

  lemma NothingRequired(env: Setting, s: Spec, t: Spec)
    requires Small(env) && Requires(env, s, t)
    ensures s == t
  {
    var p :| IsChain(env, p) && p[0] == s && p[|p| - 1] == t;
    if |p| > 1 {
      ChainEnd(env, p);
    }
  }

  lemma BaseOfSession(env: Setting, inp: Inputs, locked: bool, s: Spec)
    requires Small(env) && inp.config(inp.sessions, locked) == [] && inp.sessions == {THE_SESSION} && !inp.shuttingDown
    ensures s in BaseSelected(env, inp, locked) <==> s == THE_SESSION || (locked && s == LOCK)
  {
    var order := env.setOrder(inp.sessions);
    assert BaseSelected(env, inp, locked) == order + LockRequest(locked);
    assert s in order <==> s in Elems(order);
  }

  lemma ExpandsToItself(env: Setting, s: Spec, x: Spec)
    requires Small(env)
    ensures x in Expand(env, s) <==> x == s
  {
    ExpandExact(env, s, x);
    if x in Expand(env, s) {
      NothingRequired(env, s, x);
    }
  }

  /** With an empty configuration, only the session and the lock are wanted besides launched modules. */
  lemma OnlySessionWanted(env: Setting, inp: Inputs, locked: bool, x: Spec)
    requires Small(env) && inp.config(inp.sessions, locked) == [] && inp.sessions == {THE_SESSION} && !inp.shuttingDown
    ensures x in ExpandAll(env, BaseSelected(env, inp, locked)) <==> x == THE_SESSION || (locked && x == LOCK)
  {
    var base := BaseSelected(env, inp, locked);
    ExpandAllMember(env, base, x);
    ExpandsToItself(env, x, x);
    forall s | s in base && x in Expand(env, s) ensures s == x {
      ExpandsToItself(env, s, x);
    }
    BaseOfSession(env, inp, locked, x);
    hide BaseSelected;
  }

  /** d's events up to now leave nothing wanted but the session. */
  ghost predicate OnlySession(d: Daemon)
    reads d
  {
    && Small(d.env) && d.sessions == {THE_SESSION} && !d.shuttingDown
    && forall sessions, locked :: d.config(sessions, locked) == []
  }

  lemma NoLauncherWanted(d: Daemon, l: Spec, locked: bool)
    requires OnlySession(d) && d.env.IsLauncher(l)
    ensures l !in BaseSet(d.env, d.In(), locked)
  {
    OnlySessionWanted(d.env, d.In(), locked, l);
  }

  lemma NoLauncherStarted(d: Daemon, n: nat, l: Spec)
    requires OnlySession(d) && d.env.IsLauncher(l) && StartsWanted(d.env, d.In(), n, d.log)
    ensures !StartedSince(n, d.log, l)
  {
    NoLauncherWanted(d, l, false);
    NoLauncherWanted(d, l, true);
    hide BaseSet;
  }

  /** The launched module cannot be running in step with the selectors. */
  lemma ChildOutOfStep(d: Daemon)
    requires OnlySession(d) && d.Valid() && d.Current() && d.Fresh() && Elems(d.running) == Elems(d.wanted)
    ensures THE_CHILD !in d.running
  {
    if THE_CHILD in d.running {
      assert THE_CHILD in Elems(d.running);
      WantedMember(d.env, d.In(), d.launchers, d.running, d.locked, THE_CHILD);
      var s :| s in Selected(d.env, d.In(), d.launchers, d.running, d.locked) && THE_CHILD in Expand(d.env, s);
      ExpandExact(d.env, s, THE_CHILD);
      NothingRequired(d.env, s, THE_CHILD);
      ChildNeedsLauncher(d);
    }
  }

  lemma ChildNeedsLauncher(d: Daemon)
    requires OnlySession(d) && d.Valid() && d.Current() && Elems(d.running) == Elems(d.wanted)
    ensures THE_CHILD !in Selected(d.env, d.In(), d.launchers, d.running, d.locked)
  {
    SelectedMember(d.env, d.In(), d.launchers, d.running, d.locked, THE_CHILD);
    OnlySessionWanted(d.env, d.In(), d.locked, THE_CHILD);
    ExpandAllMember(d.env, BaseSelected(d.env, d.In(), d.locked), THE_CHILD);
    assert THE_CHILD in Expand(d.env, THE_CHILD);
    forall l | d.env.IsLauncher(l) ensures l !in d.running {
      NoLauncherWanted(d, l, d.locked);
      assert l in d.running <==> l in Elems(d.running);
      assert l in d.wanted <==> l in NonChildren(d.env, d.wanted);
    }
  }

  /** Stopping the launcher while the module it has launched cannot be stopped. */
  method StopWithStuckChild(d: Daemon, i: nat)
    requires OnlySession(d) && d.Valid() && d.Current()
    requires i < |d.running| && d.running[i] == THE_LAUNCHER && THE_LAUNCHER !in d.wanted && THE_CHILD in d.running
    requires forall j :: i < j < |d.running| ==> d.running[j] in d.wanted
    modifies d`running, d`wanted, d`launchers, d`locked, d`log
    ensures d.Valid() && THE_LAUNCHER in d.running && THE_LAUNCHER !in d.launchers && THE_CHILD in d.running
  {
    hide BaseGap, BaseSet, WantedSet, NonChildren, Less, FailedSince, LockStartedSince, StartsWanted, Continues,
      InOrder, LaunchersRegistered, Ordered;
    assert Fixed(d.env, d.launchers, THE_CHILD);
    ghost var a := d.Now();
    var ok := d.StopModule(i, []);
    StartsMeans(d, a);
    NotStopped(d, ok, |a.log|);
  }

  lemma NotStopped(d: Daemon, ok: bool, n: nat)
    requires OnlySession(d) && d.Valid() && d.Current() && THE_CHILD in d.running
    requires ok ==> d.Fresh() && Elems(d.running) == Elems(d.wanted)
    requires StartsWanted(d.env, d.In(), n, d.log)
    requires THE_LAUNCHER in d.launchers ==> StartedSince(n, d.log, THE_LAUNCHER)
    ensures !ok && THE_LAUNCHER !in d.launchers
  {
    if ok {
      ChildOutOfStep(d);
    }
    NoLauncherStarted(d, n, THE_LAUNCHER);
  }

  lemma StartsMeans(d: Daemon, a: View)
    requires d.env.Acyclic() && Continues(d.env, d.In(), a, d.Now())
    ensures StartsWanted(d.env, d.In(), |a.log|, d.log)
  {
  }

  // ---- A run that ends there ----

  /** Everything here is wanted for itself. */
  lemma WantedSmall(env: Setting, inp: Inputs, launchers: set<Spec>, running: seq<Spec>, x: Spec)
    requires Small(env) && !inp.shuttingDown
    ensures x in WantedSet(env, inp, launchers, running, false) <==>
      x in inp.config(inp.sessions, false) || x in inp.sessions || Launched(env, launchers, running, x)
  {
    WantedMember(env, inp, launchers, running, false, x);
    ExpandsToItself(env, x, x);
    forall s | x in Expand(env, s) ensures s == x {
      ExpandsToItself(env, s, x);
    }
    SelectedMember(env, inp, launchers, running, false, x);
    var order := env.setOrder(inp.sessions);
    assert x in order <==> x in Elems(order);
  }

  lemma LaunchedSmall(env: Setting, running: seq<Spec>, x: Spec)
    requires Small(env) && forall s :: s in running && s.name == "session" ==> s == THE_SESSION
    ensures Launched(env, {THE_LAUNCHER}, running, x) <==> THE_SESSION in running && x == THE_CHILD
  {
    if THE_SESSION in running {
      assert Serves(env, THE_LAUNCHER, THE_SESSION) && Child(env, THE_LAUNCHER, THE_SESSION) == THE_CHILD;
    }
  }

  /** The configuration asks for the launcher; no other session is attached, no other launcher
      registered, and there has been no trouble. */
  ghost predicate Calm(d: Daemon)
    reads d
  {
    && Small(d.env) && d.Valid() && NoStopFailed(d.log) && !d.shuttingDown && !d.locked
    && (forall sessions :: d.config(sessions, false) == [THE_LAUNCHER]) && d.sessions <= {THE_SESSION} &&
      d.launchers <= {THE_LAUNCHER}
  }

  lemma SessionsWanted(d: Daemon, launchers: set<Spec>, running: seq<Spec>, s: Spec)
    requires Calm(d) && launchers <= {THE_LAUNCHER} && s.name == "session"
    ensures s in WantedSet(d.env, d.In(), launchers, running, false) ==> s in d.sessions
  {
    WantedSmall(d.env, d.In(), launchers, running, s);
  }

  lemma CalmWants(d: Daemon, launchers: set<Spec>, running: seq<Spec>, x: Spec)
    requires Calm(d) && launchers <= {THE_LAUNCHER}
    requires forall s :: s in running && s.name == "session" ==> s == THE_SESSION
    ensures x in WantedSet(d.env, d.In(), launchers, running, false) <==>
      x == THE_LAUNCHER || x in d.sessions || (x == THE_CHILD && THE_SESSION in running && THE_LAUNCHER in launchers)
  {
    WantedSmall(d.env, d.In(), launchers, running, x);
    LaunchedSmall(d.env, running, x);
    if THE_LAUNCHER in launchers {
      assert launchers == {THE_LAUNCHER};
    } else {
      assert launchers == {};
    }
  }

  /** What runs once such a daemon is in step. */
  lemma CalmInStep(d: Daemon, x: Spec)
    requires Calm(d) && d.Fresh() && Elems(d.running) == Elems(d.wanted) && d.launchers == {THE_LAUNCHER}
    ensures x in d.running <==> x == THE_LAUNCHER || (THE_SESSION in d.sessions && (x == THE_SESSION || x == THE_CHILD))
  {
    forall s | s in d.running && s.name == "session" ensures s == THE_SESSION {
      assert s in Elems(d.running);
      SessionsWanted(d, d.launchers, d.running, s);
    }
    CalmWants(d, d.launchers, d.running, x);
    CalmWants(d, d.launchers, d.running, THE_SESSION);
    assert x in d.running <==> x in Elems(d.running);
    assert THE_SESSION in d.running <==> THE_SESSION in Elems(d.running);
  }

  /** w is what the pass starts next, and what it brings about starts too. */
  ghost predicate Next(d: Daemon, w: Spec)
    reads d
  {
    || (w == THE_LAUNCHER && d.running == [] && d.launchers == {} && d.sessions == {})
    || (w == THE_SESSION && Elems(d.running) == {THE_LAUNCHER} && d.launchers == {THE_LAUNCHER} && d.sessions ==
      {THE_SESSION})
  }

  lemma StartsThat(d: Daemon, w: Spec, k: nat)
    requires Calm(d) && Next(d, w) && d.Fresh() && k <= |d.wanted|
    requires (k < |d.wanted| ==> d.wanted[k] !in d.running) && forall j :: 0 <= j < k ==> d.wanted[j] in d.running
    ensures k < |d.wanted| && d.wanted[k] == w
  {
    assert forall x :: x in d.running <==> x in Elems(d.running);
    assert forall x :: x in d.wanted <==> x in Elems(d.wanted);
    CalmWants(d, d.launchers, d.running, w);
    assert w in d.wanted && w !in d.running;
    if k < |d.wanted| {
      CalmWants(d, d.launchers, d.running, d.wanted[k]);
    }
  }

  /** In such a daemon everything that runs is wanted, and everything starts. */
  lemma CalmGrows(d: Daemon, w: Spec)
    requires Calm(d) && Next(d, w)
    ensures d.ToGrow()
  {
    forall x | x in Elems(d.running) ensures x in WantedSet(d.env, d.In(), d.launchers, d.running, d.locked) {
      assert x in d.running;
      CalmWants(d, d.launchers, d.running, x);
    }
    LockUnwanted(d);
    assert forall x :: d.env.AlwaysStarts(x);
    hide WantedSet, BaseSet, Small, Next, Setting.AlwaysStarts;
  }

  lemma LockUnwanted(d: Daemon)
    requires Calm(d)
    ensures LOCK !in BaseSet(d.env, d.In(), false)
  {
    var base := BaseSelected(d.env, d.In(), false);
    ExpandAllMember(d.env, base, LOCK);
    forall s | LOCK in Expand(d.env, s) ensures s == LOCK {
      ExpandsToItself(d.env, s, LOCK);
    }
    assert LOCK in d.env.setOrder(d.sessions) <==> LOCK in Elems(d.env.setOrder(d.sessions));
  }

  /** One operation of a pass: it finds w missing and starts it. */
  method StartNext(d: Daemon, w: Spec)
    requires Calm(d) && Next(d, w)
    modifies d`running, d`wanted, d`launchers, d`locked, d`log
    ensures Calm(d) && d.launchers == {THE_LAUNCHER} && d.Fresh() && Elems(d.running) == Elems(d.wanted)
  {
    hide WantedSet, BaseSet, Ordered, InOrder, Continues, Kept, Registers, LaunchersRegistered, Growing, Grown,
      Untroubled, Smooth, StartReturns, NonChildren, BaseGap, NoStopFailed, Small;
    CalmGrows(d, w);
    NextReenters(d, w);
    d.SelectModules();
    var k := FindStart(d.running, d.wanted);
    StartsThat(d, w, k);
    ghost var a := d.Now();
    var ok := d.StartModule(k);
    StillCalm(d, a);
  }

  lemma NextReenters(d: Daemon, w: Spec)
    requires Calm(d) && Next(d, w)
    ensures d.env.Reenters(w)
  {
  }

  /** What was started has caused no trouble. */
  lemma StillCalm(d: Daemon, a: View)
    requires Small(d.env) && d.Valid() && d.Fresh() && Elems(d.running) == Elems(d.wanted) && !d.shuttingDown
    requires (forall sessions :: d.config(sessions, false) == [THE_LAUNCHER]) && d.sessions <= {THE_SESSION}
    requires NoStopFailed(a.log) && !a.locked && Grown(a, d.Now())
    ensures Calm(d) && d.launchers == {THE_LAUNCHER}
  {
    assert Untroubled(|a.log|, d.log);
    StaysClean(a.log, d.log);
    assert forall x :: x in d.running <==> x in Elems(d.running);
    WantedSmall(d.env, d.In(), d.launchers, d.running, THE_LAUNCHER);
    forall l | l in d.launchers ensures l == THE_LAUNCHER {
      WantedSmall(d.env, d.In(), d.launchers, d.running, l);
      assert l in d.running;
    }
    hide WantedSet, InOrder, Untroubled;
  }

  lemma LauncherFound(running: seq<Spec>, wanted: seq<Spec>, i: nat)
    requires Elems(running) == {THE_SESSION, THE_LAUNCHER, THE_CHILD}
    requires forall x :: x in wanted <==> x == THE_SESSION || x == THE_CHILD
    requires i <= |running| && (i < |running| ==> Stoppable(running[i], wanted, []))
    requires forall j :: i < j < |running| ==> !Stoppable(running[j], wanted, [])
    requires i == |running| ==> forall j :: 0 <= j < |running| ==> !Stoppable(running[j], wanted, [])
    ensures i < |running| && running[i] == THE_LAUNCHER && THE_CHILD in running
    ensures forall j :: i < j < |running| ==> running[j] in wanted
  {
    assert forall y :: y in running <==> y in Elems(running);
    assert THE_LAUNCHER in running && THE_CHILD in running;
    assert i < |running|;
    assert running[i] in Elems(running);
  }

  /** The launcher is started. */
  method StartLauncher(env: Setting) returns (d: Daemon)
    requires Small(env)
    ensures fresh(d) && d.env == env && Calm(d) && d.launchers == {THE_LAUNCHER} && d.sessions == {}
    ensures Elems(d.running) == {THE_LAUNCHER}
  {
    d := new Daemon(env, (sessions, locked) => [THE_LAUNCHER]);
    hide InOrder, LaunchersRegistered, WantedSet, NoStopFailed;
    assert NoStopFailed(d.log) by { CleanStart(); }
    StartNext(d, THE_LAUNCHER);
    forall x ensures x in Elems(d.running) <==> x == THE_LAUNCHER {
      CalmInStep(d, x);
    }
  }

  lemma CleanStart()
    ensures NoStopFailed([])
  {
  }

  /** Then a session is attached. */
  method RunLauncher(env: Setting) returns (d: Daemon)
    requires Small(env)
    ensures fresh(d) && d.env == env && Calm(d) && d.launchers == {THE_LAUNCHER} && d.sessions == {THE_SESSION}
    ensures Elems(d.running) == {THE_SESSION, THE_LAUNCHER, THE_CHILD}
  {
    d := StartLauncher(env);
    hide InOrder, LaunchersRegistered, WantedSet, NoStopFailed;
    d.sessions := {THE_SESSION};
    assert d.config(d.sessions, false) == [THE_LAUNCHER];
    StartNext(d, THE_SESSION);
    forall x ensures x in Elems(d.running) <==> x in {THE_SESSION, THE_LAUNCHER, THE_CHILD} {
      CalmInStep(d, x);
    }
  }

  /** The next pass finds the launcher to be stopped, and the module it has launched fails to stop. */
  method StopLauncher(d: Daemon)
    requires OnlySession(d) && d.Valid() && !d.locked && d.launchers == {THE_LAUNCHER}
    requires Elems(d.running) == {THE_SESSION, THE_LAUNCHER, THE_CHILD}
    modifies d`running, d`wanted, d`launchers, d`locked, d`log
    ensures d.Valid() && THE_LAUNCHER in d.running && THE_LAUNCHER !in d.launchers && THE_CHILD in d.running
  {
    hide WantedSet, BaseSet, Ordered, InOrder, LaunchersRegistered, NonChildren, Small;
    d.SelectModules();
    var i := FindStop(d.running, d.wanted, []);
    forall x ensures x in d.wanted <==> x == THE_SESSION || x == THE_CHILD {
      DroppedWants(d, x);
    }
    LauncherFound(d.running, d.wanted, i);
    StopWithStuckChild(d, i);
  }

  /** Then the configuration no longer asks for the launcher. After the next stop it runs without its
      selector. */
  method StrandLauncher(env: Setting) returns (d: Daemon)
    requires Small(env)
    ensures d.env == env && d.Valid() && Stranded(d, THE_LAUNCHER) && THE_CHILD in d.running
  {
    d := RunLauncher(env);
    hide InOrder, LaunchersRegistered;
    d.config := (sessions, locked) => [];
    StopLauncher(d);
  }

  lemma DroppedWants(d: Daemon, x: Spec)
    requires OnlySession(d) && d.Fresh() && !d.locked && d.launchers == {THE_LAUNCHER}
    requires Elems(d.running) == {THE_SESSION, THE_LAUNCHER, THE_CHILD}
    ensures x in d.wanted <==> x == THE_SESSION || x == THE_CHILD
  {
    assert forall y :: y in d.running <==> y in Elems(d.running);
    assert x in d.wanted <==> x in Elems(d.wanted);
    WantedSmall(d.env, d.In(), d.launchers, d.running, x);
    LaunchedSmall(d.env, d.running, x);
  }
}
