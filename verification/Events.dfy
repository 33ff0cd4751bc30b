/** The events the main thread handles, each ending in an update: attaching and detaching sessions,
    locking and unlocking, reconfiguring, shutting down; and the event loop that drains them. */
module Events {
  import opened Specs
  import opened Expansion
  import opened Selection
  import opened Gaps
  import opened DependencyOrder
  import opened Daemon

  /** Whether an outside command asks for the state to be locked, or unlocked. */
  datatype Asked = Asked(locks: bool, unlocks: bool)
  {
    function Or(other: Asked): Asked {
      Asked(locks || other.locks, unlocks || other.unlocks)
    }
  }

  const NOT_ASKED := Asked(false, false)

  /** What one event, or any number of them, keeps: the log only grows; a lock holds unless somebody
      asks to unlock, and comes about only by the lock module's start or on request; core modules are
      not stopped before the daemon is shutting down, and from then on modules are only stopped; there
      is no trouble if no hook has any of its own. */
  ghost predicate Carries(env: Setting, a: View, down: bool, b: View, down': bool, asked: Asked) {
    && a.log <= b.log
    && (down ==> down')
    && (a.locked && !asked.unlocks && !down' ==> b.locked)
    && (b.locked ==> a.locked || asked.locks || LockStartedSince(|a.log|, b.log))
    && (!down' ==> CoreSpared(env, |a.log|, b.log))
    && (down ==> multiset(b.running) <= multiset(a.running) && OnlyStopsSince(|a.log|, b.log))
    && (CoreLasts(env, down, a.log) ==> CoreLasts(env, down', b.log))
    && Smooth(env, a.log, b.log)
  }

  /** Up to some point no core module has been stopped or replaced, and since then modules have only
      been stopped; before the daemon is shutting down, that point is now. */
  ghost predicate CoreLasts(env: Setting, down: bool, log: seq<Event>) {
    exists m: nat :: CoreLastsUntil(env, m, log) && (!down ==> m == |log|)
  }

  ghost predicate CoreLastsUntil(env: Setting, m: nat, log: seq<Event>) {
    && m <= |log| && OnlyStopsSince(m, log)
    && forall k :: 0 <= k < m ==> !TakesCore(env, log[k])
  }

  lemma CarriesTransitive(env: Setting, a: View, down: bool, b: View, down': bool, c: View, down'': bool,
      asked: Asked, asked': Asked)
    requires Carries(env, a, down, b, down', asked) && Carries(env, b, down', c, down'', asked')
    ensures Carries(env, a, down, c, down'', asked.Or(asked'))
  {
    SmoothTransitive(env, a.log, b.log, c.log);
    hide CoreLasts, TakesCore, Smooth;
  }

  lemma CoreLastsOn(env: Setting, down: bool, a: seq<Event>, b: seq<Event>)
    requires a <= b && CoreLasts(env, down, a)
    requires if down then OnlyStopsSince(|a|, b) else CoreSpared(env, |a|, b)
    ensures CoreLasts(env, down, b)
  {
    var m: nat :| CoreLastsUntil(env, m, a) && (!down ==> m == |a|);
    assert CoreLastsUntil(env, if down then m else |b|, b);
    hide TakesCore;
  }

  /** What an update continues, an event carries on. */
  lemma Continued(env: Setting, inp: Inputs, a: View, b: View)
    requires env.Acyclic() && Continues(env, inp, a, b) && Smooth(env, a.log, b.log)
    ensures CoreLasts(env, inp.shuttingDown, a.log) ==> CoreLasts(env, inp.shuttingDown, b.log)
    ensures Carries(env, a, inp.shuttingDown, b, inp.shuttingDown, NOT_ASKED) && a.log <= b.log
  {
    if CoreLasts(env, inp.shuttingDown, a.log) {
      CoreLastsOn(env, inp.shuttingDown, a.log, b.log);
    }
    hide CoreLasts, Smooth;
  }

  lemma NothingCarried(env: Setting, a: View, down: bool, asked: Asked)
    ensures Carries(env, a, down, a, down, asked)
  {
  }

  /** Setting the lock state from outside, before what b tells. */
  lemma CarriedLock(env: Setting, a: View, locked: bool, down: bool, b: View)
    requires Carries(env, a.(locked := locked), down, b, down, NOT_ASKED)
    ensures Carries(env, a, down, b, down, Asked(locked, !locked))
  {
    hide CoreLasts, CoreSpared, Smooth;
  }

  // ---- What an update leaves ----

  /** All that events act upon. */
  datatype Snapshot = Snapshot(inp: Inputs, launchers: set<Spec>, wanted: seq<Spec>, view: View)

  ghost function Snap(d: Daemon): Snapshot
    reads d
  {
    Snapshot(d.In(), d.launchers, d.wanted, d.Now())
  }

  /** What runs is what is wanted, and that is what the selectors would ask for. */
  ghost predicate Settled(env: Setting, s: Snapshot)
    requires env.Acyclic()
  {
    && Elems(s.view.running) == Elems(s.wanted)
    && Elems(s.wanted) == WantedSet(env, s.inp, s.launchers, s.view.running, s.view.locked)
  }

  /** After an update: modules are in step with the selectors; or what has not been stopped, of which
      there is some, has failed to since the log had n entries; or a start or reconfigure raised since. */
  ghost predicate Updated(env: Setting, n: nat, s: Snapshot, r: Outcome)
    requires env.Acyclic()
  {
    && NonChildren(env, s.wanted) == BaseSet(env, s.inp, s.view.locked)
    && (s.inp.shuttingDown ==> s.wanted == [])
    && match r {
         case Synchronized => Settled(env, s)
         case FailedToStop(errors) =>
           && errors != [] && (forall x :: x in errors ==> FailedSince(n, s.view.log, x))
           && Elems(s.wanted) <= Elems(s.view.running) <= Elems(s.wanted) + Elems(errors)
         case Raised => RaisedSince(n, s.view.log)
       }
  }

  // ---- session.py ----

  datatype Attachment =
    | AlreadyAttached
    | Attached
    | AttachFailed(rollback: Outcome)   // the exception is passed on after the roll-back update

  /** All or nothing: either the spec is attached and its module runs, or some hook has raised and the
      set of attached sessions is what it was; then the module does not run unless something else
      wants it, its stop failed, or the roll-back itself was cut short. n: the length of the log when
      the roll-back began. */
  method Attach(d: Daemon, spec: Spec) returns (r: Attachment, ghost n: nat)
    requires d.Valid()
    modifies d`sessions, d`running, d`wanted, d`launchers, d`locked, d`log
    ensures d.Valid() && Carries(d.env, old(d.Now()), d.shuttingDown, d.Now(), d.shuttingDown, NOT_ASKED)
    ensures Kept(d.env, old(d.launchers), old(d.running), d.launchers, d.running)
    ensures r.AlreadyAttached? <==> spec in old(d.sessions)
    ensures r.AlreadyAttached? ==> Snap(d) == old(Snap(d))
    ensures r.Attached? ==>
      d.sessions == old(d.sessions) + {spec} && Updated(d.env, |old(d.log)|, Snap(d), Synchronized)
    ensures r.Attached? && !d.shuttingDown ==> spec in d.running
    ensures r.AttachFailed? ==>
      && d.sessions == old(d.sessions) && |old(d.log)| <= n <= |d.log| && !Untroubled(|old(d.log)|, d.log[..n])
      && Updated(d.env, n, Snap(d), r.rollback) && (r.rollback.Synchronized? <==> Untroubled(n, d.log))
    ensures r.AttachFailed? && spec in d.running ==>
      spec in d.wanted || r.rollback.Raised? || (r.rollback.FailedToStop? && spec in r.rollback.errors)
    ensures r.AttachFailed? && d.env.classes(spec.name).Session? && SessionsOnlyAttached(d.env, d.In()) ==>
      spec !in d.wanted
    ensures r.AttachFailed? <==> !Untroubled(|old(d.log)|, d.log)
    ensures old(spec !in d.sessions && GrowingWith(d, spec)) ==> r.Attached? && Grown(old(d.Now()), d.Now())
  {
    hide WantedSet, BaseSet, NonChildren, Ordered, InOrder, LaunchersRegistered, BaseGap, AtMost, Continues, Carries,
      Kept, Registers, Untroubled, Smooth, Growing, Grown, FailedSince, RaisedSince, SessionsOnlyAttached;
    ghost var a := d.Now();
    NothingCarried(d.env, a, d.shuttingDown, NOT_ASKED);
    NothingLogged(|d.log|, d.log);
    NothingHandled(d.env, d.launchers, d.running, d.log);
    n := 0;
    if spec in d.sessions {
      return AlreadyAttached, n;
    }
    d.sessions := d.sessions + {spec};
    var first := d.Update();
    Continued(d.env, d.In(), a, d.Now());
    if !first.Synchronized? {
      n := |d.log|;
      ghost var log := d.log;
      var rollback := RollBack(d, spec, a, old(d.launchers));
      assert d.log[..n] == log;
      return AttachFailed(rollback), n;
    }
    if !d.shuttingDown {
      AttachedWanted(d.env, d.In(), d.launchers, d.running, d.locked, spec);
      assert spec in Elems(d.running);
    }
    return Attached, n;
  }

  /** With the session attached, all there would be to do is to start what does start. */
  ghost predicate GrowingWith(d: Daemon, spec: Spec)
    requires d.env.Acyclic()
    reads d
  {
    Growing(d.env, d.In().(sessions := d.sessions + {spec}), d.launchers, d.running, d.locked)
  }

  /** The `except` of attach: since a, the update with the spec attached has failed. */
  method RollBack(d: Daemon, spec: Spec, ghost a: View, ghost launchers: set<Spec>) returns (rollback: Outcome)
    requires d.Valid() && spec in d.sessions && a.log <= d.log
    requires Carries(d.env, a, d.shuttingDown, d.Now(), d.shuttingDown, NOT_ASKED)
    requires Kept(d.env, launchers, a.running, d.launchers, d.running)
    requires !Untroubled(|a.log|, d.log)
    modifies d`sessions, d`running, d`wanted, d`launchers, d`locked, d`log
    ensures d.Valid() && Carries(d.env, a, d.shuttingDown, d.Now(), d.shuttingDown, NOT_ASKED)
    ensures Kept(d.env, launchers, a.running, d.launchers, d.running)
    ensures d.sessions == old(d.sessions) - {spec} && Updated(d.env, |old(d.log)|, Snap(d), rollback)
    ensures rollback.Synchronized? <==> Untroubled(|old(d.log)|, d.log)
    ensures old(d.log) <= d.log && !Untroubled(|a.log|, d.log)
    ensures spec in d.running ==>
      spec in d.wanted || rollback.Raised? || (rollback.FailedToStop? && spec in rollback.errors)
    ensures d.env.classes(spec.name).Session? && SessionsOnlyAttached(d.env, d.In()) ==> spec !in d.wanted
  {
    hide WantedSet, BaseSet, NonChildren, Ordered, InOrder, LaunchersRegistered, BaseGap, AtMost, Continues, Carries,
      Kept, Registers, Untroubled, Smooth, Growing, Grown, FailedSince, RaisedSince, SessionsOnlyAttached;
    ghost var b, before := d.Now(), d.launchers;
    d.sessions := d.sessions - {spec};
    rollback := d.Update();
    Continued(d.env, d.In(), b, d.Now());
    KeptTransitive(d.env, launchers, a.running, before, b.running, d.launchers, d.running);
    CarriesTransitive(d.env, a, d.shuttingDown, b, d.shuttingDown, d.Now(), d.shuttingDown, NOT_ASKED, NOT_ASKED);
    UntroubledOn(|a.log|, b.log, d.log);
    assert spec in d.running <==> spec in Elems(d.running);
    if d.env.classes(spec.name).Session? {
      UnattachedUnwanted(d, spec);
    }
  }

  lemma AttachedWanted(env: Setting, inp: Inputs, launchers: set<Spec>, running: seq<Spec>, locked: bool, spec: Spec)
    requires env.WellFormed() && !inp.shuttingDown && spec in inp.sessions
    ensures spec in WantedSet(env, inp, launchers, running, locked)
  {
    assert spec in Elems(env.setOrder(inp.sessions));
    assert spec in FirstSelected(env, inp, locked);
    assert spec in Selected(env, inp, launchers, running, locked);
    assert spec in Expand(env, spec);
    WantedMember(env, inp, launchers, running, locked, spec);
  }

  datatype Detachment = NotAttached | Detached(outcome: Outcome)

  method Detach(d: Daemon, spec: Spec) returns (r: Detachment)
    requires d.Valid()
    modifies d`sessions, d`running, d`wanted, d`launchers, d`locked, d`log
    ensures d.Valid() && Carries(d.env, old(d.Now()), d.shuttingDown, d.Now(), d.shuttingDown, NOT_ASKED)
    ensures Kept(d.env, old(d.launchers), old(d.running), d.launchers, d.running)
    ensures r.NotAttached? <==> spec !in old(d.sessions)
    ensures r.NotAttached? ==> Snap(d) == old(Snap(d))
    ensures r.Detached? ==>
      && d.sessions == old(d.sessions) - {spec} && Updated(d.env, |old(d.log)|, Snap(d), r.outcome)
      && (r.outcome.Synchronized? <==> Untroubled(|old(d.log)|, d.log))
    ensures r.Detached? && spec in d.running ==>
      spec in d.wanted || r.outcome.Raised? || (r.outcome.FailedToStop? && spec in r.outcome.errors)
  {
    hide WantedSet, BaseSet, NonChildren, Ordered, InOrder, LaunchersRegistered, BaseGap, AtMost, Continues, Carries,
      Kept, Registers, Untroubled, Smooth, Growing, Grown, FailedSince, RaisedSince;
    ghost var a := d.Now();
    NothingCarried(d.env, a, d.shuttingDown, NOT_ASKED);
    NothingHandled(d.env, d.launchers, d.running, d.log);
    if spec !in d.sessions {
      return NotAttached;
    }
    d.sessions := d.sessions - {spec};
    var outcome := d.Update();
    Continued(d.env, d.In(), a, d.Now());
    assert spec in d.running <==> spec in Elems(d.running);
    return Detached(outcome);
  }

  /** Nothing but session_specs asks for session modules. */
  ghost predicate SessionsOnlyAttached(env: Setting, inp: Inputs) {
    && (forall x: Spec, locked :: x in env.core + inp.config(inp.sessions, locked) ==> !env.classes(x.name).Session?)
    && (forall s: Spec, d: Spec :: d in env.dependencies(s) ==> !env.classes(d.name).Session?)
  }

  lemma {:induction false} ExpandedSession(env: Setting, s: Spec, x: Spec)
    requires env.Acyclic() && env.classes(x.name).Session? && x in Expand(env, s)
    requires forall s: Spec, d: Spec :: d in env.dependencies(s) ==> !env.classes(d.name).Session?
    ensures x == s
  {
    ExpandReaches(env, s, x);
    var p :| IsChain(env, p) && p[0] == s && p[|p| - 1] == x;
    if |p| > 1 {
      ChainEnd(env, p);
    }
  }

  lemma UnattachedUnwanted(d: Daemon, spec: Spec)
    requires d.env.WellFormed() && d.Current() && d.env.classes(spec.name).Session? && spec !in d.sessions
    ensures SessionsOnlyAttached(d.env, d.In()) ==> spec !in d.wanted
  {
    assert spec in Elems(d.env.setOrder(d.sessions)) <==> spec in d.sessions;
    if SessionsOnlyAttached(d.env, d.In()) && spec in d.wanted {
      assert spec in NonChildren(d.env, d.wanted);
      ExpandAllMember(d.env, BaseSelected(d.env, d.In(), d.locked), spec);
      var s :| s in BaseSelected(d.env, d.In(), d.locked) && spec in Expand(d.env, s);
      ExpandedSession(d.env, s, spec);
    }
  }

  /** Where the running set is what the selectors ask for, the sessions running are exactly the
      attached ones. */
  lemma SessionsExact(env: Setting, inp: Inputs, launchers: set<Spec>, running: seq<Spec>, locked: bool, x: Spec)
    requires env.WellFormed() && SessionsOnlyAttached(env, inp) && env.classes(x.name).Session?
    requires forall s :: s in inp.sessions ==> env.classes(s.name).Session?
    requires Elems(running) == WantedSet(env, inp, launchers, running, locked)
    ensures x in running <==> !inp.shuttingDown && x in inp.sessions
  {
    assert x in running <==> x in Elems(running);
    WantedMember(env, inp, launchers, running, locked, x);
    assert x in Expand(env, x);
    SelectedMember(env, inp, launchers, running, locked, x);
    assert x in Elems(env.setOrder(inp.sessions)) <==> x in inp.sessions;
    if x in running {
      var s :| s in Selected(env, inp, launchers, running, locked) && x in Expand(env, s);
      ExpandedSession(env, s, x);
    }
  }

  /** With the daemon in step and no stop failed so far, every running launcher has exactly one module
      for each running session of its type, and there are no others. */
  lemma ChildrenInStep(d: Daemon, c: Spec)
    requires d.Valid() && d.Fresh() && Elems(d.running) == Elems(d.wanted)
    requires NoStopFailed(d.log) && ChildrenOnlyLaunched(d.env, d.In()) && d.env.IsChild(c)
    ensures c in d.running <==> !d.shuttingDown && Launched(d.env, Elems(d.running), d.running, c)
  {
    ChildrenExact(d.env, d.In(), d.launchers, d.running, d.locked, c);
    forall l, s | l in Elems(d.running) && s in d.running && Serves(d.env, l, s) ensures l in d.launchers {
      assert d.env.IsLauncher(l);
    }
    forall l | l in d.launchers ensures l in Elems(d.running) {
    }
  }

  // ---- __init__.py, config.py, daemon.py ----

  method Lock(d: Daemon) returns (outcome: Outcome)
    requires d.Valid()
    modifies d`running, d`wanted, d`launchers, d`locked, d`log
    ensures d.Valid() && Carries(d.env, old(d.Now()), d.shuttingDown, d.Now(), d.shuttingDown, Asked(true, false))
    ensures Kept(d.env, old(d.launchers), old(d.running), d.launchers, d.running)
    ensures Updated(d.env, |old(d.log)|, Snap(d), outcome)
    ensures outcome.Synchronized? <==> Untroubled(|old(d.log)|, d.log)
    ensures !d.shuttingDown ==> d.locked && LOCK in d.wanted
  {
    hide WantedSet, BaseSet, Ordered, InOrder, LaunchersRegistered, BaseGap, AtMost, Continues, Carries,
      Kept, Registers, Untroubled, Smooth, Growing, Grown, FailedSince, RaisedSince;
    ghost var a := d.Now();
    d.locked := true;
    ghost var b := d.Now();
    outcome := d.Update();
    Continued(d.env, d.In(), b, d.Now());
    StaysLocked(d.env, d.In(), b, d.Now());
    CarriedLock(d.env, a, true, d.shuttingDown, d.Now());
    if !d.shuttingDown {
      LockedWantsLock(d.env, d.In());
      assert LOCK in NonChildren(d.env, d.wanted);
    }
  }

  /** notified: whether writing to the waiting processes works. Raising there leaves the state unlocked
      and modules as they are. */
  method Unlock(d: Daemon, notified: bool) returns (outcome: Outcome)
    requires d.Valid()
    modifies d`running, d`wanted, d`launchers, d`locked, d`log
    ensures d.Valid() && Carries(d.env, old(d.Now()), d.shuttingDown, d.Now(), d.shuttingDown, Asked(false, true))
    ensures Kept(d.env, old(d.launchers), old(d.running), d.launchers, d.running)
    ensures d.locked ==> LockStartedSince(|old(d.log)|, d.log)
    ensures !notified ==> outcome.Raised? && Snap(d) == old(Snap(d)).(view := old(d.Now()).(locked := false))
    ensures notified ==> Updated(d.env, |old(d.log)|, Snap(d), outcome)
    ensures outcome.Synchronized? <==> notified && Untroubled(|old(d.log)|, d.log)
  {
    hide WantedSet, BaseSet, NonChildren, Ordered, InOrder, LaunchersRegistered, BaseGap, AtMost, Continues, Carries,
      Kept, Registers, Untroubled, Smooth, Growing, Grown, FailedSince, RaisedSince;
    ghost var a := d.Now();
    d.locked := false;
    ghost var b := d.Now();
    NothingCarried(d.env, b, d.shuttingDown, NOT_ASKED);
    NothingHandled(d.env, d.launchers, d.running, d.log);
    outcome := Raised;
    if notified {
      outcome := d.Update();
      Continued(d.env, d.In(), b, d.Now());
      StaysLocked(d.env, d.In(), b, d.Now());
    }
    CarriedLock(d.env, a, false, d.shuttingDown, d.Now());
  }

  /** The circumstances have changed: the configuration file, the clock, a session's idleness. */
  method Reconfigure(d: Daemon, config: (set<Spec>, bool) -> seq<Spec>) returns (outcome: Outcome)
    requires d.Valid()
    modifies d`config, d`running, d`wanted, d`launchers, d`locked, d`log
    ensures d.Valid() && Carries(d.env, old(d.Now()), d.shuttingDown, d.Now(), d.shuttingDown, NOT_ASKED)
    ensures Kept(d.env, old(d.launchers), old(d.running), d.launchers, d.running)
    ensures d.config == config && Updated(d.env, |old(d.log)|, Snap(d), outcome)
    ensures outcome.Synchronized? <==> Untroubled(|old(d.log)|, d.log)
  {
    hide WantedSet, BaseSet, NonChildren, Ordered, InOrder, LaunchersRegistered, BaseGap, AtMost, Continues, Carries,
      Kept, Registers, Untroubled, Smooth, Growing, Grown, FailedSince, RaisedSince;
    ghost var a := d.Now();
    d.config := config;
    outcome := d.Update();
    Continued(d.env, d.In(), a, d.Now());
  }

  /** An update of a daemon that is in step does nothing. */
  method UpdateAgain(d: Daemon) returns (outcome: Outcome)
    requires d.Valid() && d.Fresh() && Elems(d.running) == Elems(d.wanted)
    modifies d`running, d`wanted, d`launchers, d`locked, d`log
    ensures d.Valid() && outcome.Synchronized? && d.Now() == old(d.Now()) && d.launchers == old(d.launchers)
  {
    hide WantedSet, BaseSet, NonChildren, Ordered, InOrder, LaunchersRegistered, BaseGap, AtMost, Continues;
    outcome := d.Update();
    NothingLogged(|d.log|, d.log);
  }

  /** Whatever still runs afterwards has failed to stop just now. */
  method Shutdown(d: Daemon) returns (outcome: Outcome)
    requires d.Valid()
    modifies d`shuttingDown, d`running, d`wanted, d`launchers, d`locked, d`log
    ensures d.Valid() && d.shuttingDown && Carries(d.env, old(d.Now()), true, d.Now(), true, NOT_ASKED)
    ensures Kept(d.env, old(d.launchers), old(d.running), d.launchers, d.running)
    ensures d.wanted == [] && !outcome.Raised?
    ensures forall x :: x in d.running ==> FailedSince(|old(d.log)|, d.log, x)
    ensures outcome.Synchronized? <==> Untroubled(|old(d.log)|, d.log)
    ensures outcome.Synchronized? ==> d.running == []
  {
    hide WantedSet, BaseSet, NonChildren, Ordered, InOrder, LaunchersRegistered, BaseGap, AtMost, Continues, Carries,
      Kept, Registers, Untroubled, Smooth, Growing, Grown, FailedSince, RaisedSince;
    ghost var a := d.Now();
    d.shuttingDown := true;
    outcome := d.Update();
    Continued(d.env, d.In(), a, d.Now());
    OnlyStopped(d.env, d.In(), a, d.Now());
    NoneLeft(d.running);
    forall x | x in d.running ensures FailedSince(|a.log|, d.log, x) {
      assert x in Elems(d.running);
    }
  }

  lemma OnlyStopped(env: Setting, inp: Inputs, a: View, b: View)
    requires env.Acyclic() && Continues(env, inp, a, b) && inp.shuttingDown
    ensures !RaisedSince(|a.log|, b.log)
  {
  }

  lemma NoneLeft(running: seq<Spec>)
    ensures Elems(running) == {} <==> running == []
    ensures (forall x :: x !in running) ==> running == []
  {
    if running != [] {
      assert running[0] in Elems(running);
    }
  }

  // ---- The event loop ----

  datatype Task =
    | ReconfigureTask(config: (set<Spec>, bool) -> seq<Spec>)
    | AttachTask(spec: Spec)
    | DetachTask(spec: Spec)
    | LockTask
    | UnlockTask(notified: bool)
    | StopTask

  /** What carrying out a task makes of s. */
  ghost predicate Did(env: Setting, task: Task, s: Snapshot, t: Snapshot)
    requires env.Acyclic()
  {
    var n := |s.view.log|;
    match task {
      case ReconfigureTask(config) => t.inp == s.inp.(config := config) && Ended(env, n, t)
      case AttachTask(spec) =>
        if spec in s.inp.sessions then t == s
        else if Untroubled(n, t.view.log) then
          t.inp == s.inp.(sessions := s.inp.sessions + {spec}) && Updated(env, n, t, Synchronized)
        else t.inp == s.inp && RolledBack(env, n, t)
      case DetachTask(spec) =>
        if spec !in s.inp.sessions then t == s
        else t.inp == s.inp.(sessions := s.inp.sessions - {spec}) && Ended(env, n, t)
      case LockTask =>
        if s.view.locked then t == s
        else t.inp == s.inp && Ended(env, n, t) && (!t.inp.shuttingDown ==> t.view.locked && LOCK in t.wanted)
      case UnlockTask(notified) =>
        if !s.view.locked then t == s
        else if !notified then t == s.(view := s.view.(locked := false))
        else t.inp == s.inp && Ended(env, n, t) && (t.view.locked ==> LockStartedSince(n, t.view.log))
      case StopTask => t.inp == s.inp.(shuttingDown := true) && t.wanted == [] && OnlyFailures(n, t.view)
    }
  }

  /** An update has come to one of its ends. */
  ghost predicate Ended(env: Setting, n: nat, t: Snapshot)
    requires env.Acyclic()
  {
    exists r: Outcome :: Updated(env, n, t, r)
  }

  /** Some hook has raised since the log had n entries, and then another update has come to one of its ends. */
  ghost predicate RolledBack(env: Setting, n: nat, t: Snapshot)
    requires env.Acyclic()
  {
    exists m: nat :: n <= m <= |t.view.log| && !Untroubled(n, t.view.log[..m]) && Ended(env, m, t)
  }

  /** What runs has failed to stop since the log had n entries. */
  ghost predicate OnlyFailures(n: nat, view: View) {
    forall x :: x in view.running ==> FailedSince(n, view.log, x)
  }

  lemma DidDown(env: Setting, task: Task, s: Snapshot, t: Snapshot)
    requires env.Acyclic() && Did(env, task, s, t)
    ensures t.inp.shuttingDown ==> s.inp.shuttingDown || task.StopTask?
    ensures t.inp.shuttingDown && (s.inp.shuttingDown ==> s.wanted == []) ==> t.wanted == []
  {
    hide Settled, BaseSet, Untroubled;
  }

  function AskedBy(task: Task): Asked {
    Asked(task.LockTask?, task.UnlockTask?)
  }

  function AskedByAll(tasks: seq<Task>): Asked {
    if tasks == [] then NOT_ASKED else AskedByAll(tasks[..|tasks| - 1]).Or(AskedBy(tasks[|tasks| - 1]))
  }

  predicate HasStop(tasks: seq<Task>) {
    exists k :: 0 <= k < |tasks| && tasks[k].StopTask?
  }

  /** Between two snapshots one task was carried out, and the daemon carried on as events do, with the
      shutdown selector in place if any task up to then was a stop. */
  ghost predicate Tracked(env: Setting, tasks: seq<Task>, down: bool, snaps: seq<Snapshot>)
    requires |snaps| == |tasks| + 1 && env.Acyclic()
  {
    forall k :: 0 <= k < |tasks| ==>
      && Did(env, tasks[k], snaps[k], snaps[k + 1])
      && var down' := down || HasStop(tasks[..k + 1]);
         Carries(env, snaps[k].view, down', snaps[k + 1].view, down', AskedBy(tasks[k]))
  }

  /** From each stop on, modules were only stopped, and what runs has failed to stop since. */
  ghost predicate Quiet(tasks: seq<Task>, snaps: seq<Snapshot>, now: View)
    requires |snaps| == |tasks| + 1
  {
    forall k :: 0 <= k < |tasks| && tasks[k].StopTask? ==> QuietSince(snaps[k].view, now)
  }

  ghost predicate QuietSince(a: View, now: View) {
    && OnlyStopsSince(|a.log|, now.log) && multiset(now.running) <= multiset(a.running)
    && OnlyFailures(|a.log|, now)
  }

  /** What draining the tasks has done so far. */
  ghost predicate Drained(env: Setting, tasks: seq<Task>, down: bool, snaps: seq<Snapshot>, down': bool)
    requires env.Acyclic()
  {
    && |snaps| == |tasks| + 1
    && Carries(env, snaps[0].view, down, snaps[|tasks|].view, down', AskedByAll(tasks))
    && (down' <==> down || HasStop(tasks))
    && Tracked(env, tasks, down, snaps)
    && Quiet(tasks, snaps, snaps[|tasks|].view)
    && (forall k :: 0 <= k <= |tasks| ==> snaps[k].view.log <= snaps[|tasks|].view.log)
  }

  class EventLoop {
    var queue: seq<Task>
    var stopping: bool

    constructor ()
      ensures queue == [] && !stopping
    {
      queue, stopping := [], false;
    }

    method Call(task: Task)
      modifies this
      ensures queue == old(queue) + [task] && stopping == old(stopping)
    {
      queue := queue + [task];
    }

    /** Drains the queue; a task that fails does not end the loop. Stopping only commits the loop to
        exit once the queue is empty. snaps: how things were before each task, and at the end. */
    method Run(d: Daemon) returns (ghost snaps: seq<Snapshot>)
      requires d.Valid()
      modifies this, d
      ensures d.Valid() && queue == []
      ensures Carries(d.env, old(d.Now()), old(d.shuttingDown), d.Now(), d.shuttingDown, AskedByAll(old(queue)))
      ensures d.shuttingDown == (old(d.shuttingDown) || HasStop(old(queue)))
      ensures stopping == (old(stopping) || HasStop(old(queue)))
      ensures Kept(d.env, old(d.launchers), old(d.running), d.launchers, d.running)
      ensures |snaps| == |old(queue)| + 1 && snaps[0] == old(Snap(d)) && snaps[|old(queue)|] == Snap(d)
      ensures Tracked(d.env, old(queue), old(d.shuttingDown), snaps)
      ensures Quiet(old(queue), snaps, d.Now())
      ensures forall k :: 0 <= k <= |old(queue)| ==> snaps[k].view.log <= d.log
      ensures d.shuttingDown && (old(d.shuttingDown) ==> old(d.wanted) == []) ==> d.wanted == []
    {
      hide Carries, Kept, Drained, Did;
      ghost var tasks, down, n, env := queue, d.shuttingDown, 0, d.env;
      snaps := [Snap(d)];
      NothingDrained(env, Snap(d), down);
      NothingHandled(d.env, d.launchers, d.running, d.log);
      while queue != []
        invariant d.Valid() && n <= |tasks| && queue == tasks[n..] && d.env == env
        invariant |snaps| == n + 1 && snaps[0] == old(Snap(d)) && snaps[n] == Snap(d)
        invariant Drained(env, tasks[..n], down, snaps, d.shuttingDown)
        invariant stopping == (old(stopping) || HasStop(tasks[..n]))
        invariant Kept(env, old(d.launchers), old(d.running), d.launchers, d.running)
        invariant d.shuttingDown && (down ==> old(d.wanted) == []) ==> d.wanted == []
        decreases |queue|
      {
        ghost var s, down' := Snap(d), d.shuttingDown;
        var task := queue[0];
        queue := queue[1..];
        Handle(d, task);
        OneMore(tasks, n);
        DidDown(env, task, s, Snap(d));
        DrainedStep(env, tasks, n, down, snaps, down', Snap(d), d.shuttingDown);
        KeptTransitive(env, old(d.launchers), old(d.running), s.launchers, s.view.running, d.launchers, d.running);
        snaps := snaps + [Snap(d)];
        n := n + 1;
      }
      assert tasks[..n] == tasks;
      DrainedMeans(env, tasks, down, snaps, d.shuttingDown);
    }

    /** An exception that a task raises has been logged; it goes no further. */
    method Handle(d: Daemon, task: Task)
      requires d.Valid()
      modifies `stopping, d
      ensures d.Valid() && Did(d.env, task, old(Snap(d)), Snap(d))
      ensures Carries(d.env, old(d.Now()), d.shuttingDown, d.Now(), d.shuttingDown, AskedBy(task))
      ensures Kept(d.env, old(d.launchers), old(d.running), d.launchers, d.running)
      ensures d.shuttingDown == (old(d.shuttingDown) || task.StopTask?)
      ensures stopping == (old(stopping) || task.StopTask?)
    {
      hide Carries, Kept, Updated, Untroubled, LockStartedSince, Smooth, Grown, Growing, InOrder, LaunchersRegistered,
        SessionsOnlyAttached, RaisedSince, FailedSince;
      NothingCarried(d.env, d.Now(), d.shuttingDown, AskedBy(task));
      NothingHandled(d.env, d.launchers, d.running, d.log);
      match task
      case ReconfigureTask(config) => var _ := Reconfigure(d, config);
      case AttachTask(spec) => var _, _ := Attach(d, spec);
      case DetachTask(spec) => var _ := Detach(d, spec);
      case LockTask =>
        if !d.locked {
          var _ := Lock(d);
        }
      case UnlockTask(notified) =>
        if d.locked {
          var _ := Unlock(d, notified);
        }
      case StopTask =>
        stopping := true;
        var _ := Shutdown(d);
    }
  }

  lemma OneMore(tasks: seq<Task>, n: nat)
    requires n < |tasks|
    ensures AskedByAll(tasks[..n + 1]) == AskedByAll(tasks[..n]).Or(AskedBy(tasks[n]))
    ensures HasStop(tasks[..n + 1]) == (HasStop(tasks[..n]) || tasks[n].StopTask?)
  {
    assert tasks[..n + 1] == tasks[..n] + [tasks[n]];
    assert tasks[..n + 1][n] == tasks[n];
    forall k | 0 <= k < n ensures tasks[..n + 1][k] == tasks[..n][k] {
    }
  }

  lemma NothingDrained(env: Setting, s: Snapshot, down: bool)
    requires env.Acyclic()
    ensures Drained(env, [], down, [s], down)
  {
  }

  lemma DrainedMeans(env: Setting, tasks: seq<Task>, down: bool, snaps: seq<Snapshot>, down': bool)
    requires env.Acyclic() && Drained(env, tasks, down, snaps, down')
    ensures |snaps| == |tasks| + 1 && Tracked(env, tasks, down, snaps) && Quiet(tasks, snaps, snaps[|tasks|].view)
    ensures Carries(env, snaps[0].view, down, snaps[|tasks|].view, down', AskedByAll(tasks))
    ensures down' <==> down || HasStop(tasks)
    ensures forall k :: 0 <= k <= |tasks| ==> snaps[k].view.log <= snaps[|tasks|].view.log
  {
  }

  lemma DrainedStep(env: Setting, tasks: seq<Task>, n: nat, down: bool, snaps: seq<Snapshot>, before: bool,
      now: Snapshot,
      after: bool)
    requires env.Acyclic() && n < |tasks| && Drained(env, tasks[..n], down, snaps, before)
    requires Did(env, tasks[n], snaps[n], now)
    requires Carries(env, snaps[n].view, after, now.view, after, AskedBy(tasks[n])) &&
      (after <==> before || tasks[n].StopTask?)
    ensures Drained(env, tasks[..n + 1], down, snaps + [now], after)
  {
    var s := snaps[n].view;
    OneMore(tasks, n);
    CarriesWeaker(env, s, before, after, now.view, AskedBy(tasks[n]));
    CarriesTransitive(env, snaps[0].view, down, s, before, now.view, after, AskedByAll(tasks[..n]), AskedBy(tasks[n]));
    TrackedStep(env, tasks, n, down, snaps, now);
    QuietStep(env, tasks, n, snaps, now, after);
    CarriesLog(env, s, after, now.view, after, AskedBy(tasks[n]));
    hide Carries, Tracked, Quiet, HasStop, AskedByAll, Did;
  }

  lemma CarriesLog(env: Setting, a: View, down: bool, b: View, down': bool, asked: Asked)
    requires Carries(env, a, down, b, down', asked)
    ensures a.log <= b.log
  {
  }

  lemma CarriesWeaker(env: Setting, a: View, down: bool, down': bool, b: View, asked: Asked)
    requires Carries(env, a, down', b, down', asked) && (down ==> down')
    ensures Carries(env, a, down, b, down', asked)
  {
    if CoreLasts(env, down, a.log) {
      var m: nat :| CoreLastsUntil(env, m, a.log) && (!down ==> m == |a.log|);
      assert CoreLasts(env, down', a.log) || !down';
    }
    hide CoreLastsUntil, CoreSpared, OnlyStopsSince, Smooth;
  }

  lemma TrackedStep(env: Setting, tasks: seq<Task>, n: nat, down: bool, snaps: seq<Snapshot>, now: Snapshot)
    requires env.Acyclic() && n < |tasks| && |snaps| == n + 1 && Tracked(env, tasks[..n], down, snaps)
    requires Did(env, tasks[n], snaps[n], now)
    requires var down' := down || HasStop(tasks[..n + 1]);
             Carries(env, snaps[n].view, down', now.view, down', AskedBy(tasks[n]))
    ensures Tracked(env, tasks[..n + 1], down, snaps + [now])
  {
    hide Carries, Did;
    forall k | 0 <= k < n ensures tasks[..n + 1][..k + 1] == tasks[..n][..k + 1] && tasks[..n + 1][k] == tasks[..n][k] {
    }
    assert tasks[..n + 1][..n + 1] == tasks[..n + 1];
  }

  lemma QuietOn(env: Setting, a: View, b: View, c: View, asked: Asked)
    requires QuietSince(a, b) && Carries(env, b, true, c, true, asked) && |a.log| <= |b.log|
    ensures QuietSince(a, c)
  {
    hide CoreLasts, CoreSpared, Smooth;
    forall x | x in c.running ensures FailedSince(|a.log|, c.log, x) {
      assert x in multiset(c.running) && x in multiset(b.running) && x in b.running;
      var k :| |a.log| <= k < |b.log| && b.log[k] == StopFailed(x);
      assert c.log[k] == StopFailed(x);
    }
    forall k | |a.log| <= k < |c.log| ensures c.log[k].Stopping? || c.log[k].StopFailed? {
      assert k < |b.log| ==> c.log[k] == b.log[k];
    }
  }

  lemma QuietStep(env: Setting, tasks: seq<Task>, n: nat, snaps: seq<Snapshot>, now: Snapshot, down: bool)
    requires env.Acyclic() && n < |tasks| && |snaps| == n + 1 && Quiet(tasks[..n], snaps, snaps[n].view)
    requires HasStop(tasks[..n + 1]) ==> down
    requires Did(env, tasks[n], snaps[n], now)
    requires Carries(env, snaps[n].view, down, now.view, down, AskedBy(tasks[n]))
    requires forall k :: 0 <= k <= n ==> snaps[k].view.log <= snaps[n].view.log
    ensures Quiet(tasks[..n + 1], snaps + [now], now.view)
  {
    hide CoreLasts, CoreSpared, Smooth, QuietSince, Ended, Updated, Untroubled;
    forall k | 0 <= k < n + 1 && tasks[..n + 1][k].StopTask? ensures QuietSince(snaps[k].view, now.view) {
      assert HasStop(tasks[..n + 1]);
      if k < n {
        assert tasks[..n][k].StopTask?;
        QuietOn(env, snaps[k].view, snaps[n].view, now.view, AskedBy(tasks[n]));
      } else {
        QuietNow(env, tasks[n], snaps[n], now);
      }
    }
  }

  lemma QuietNow(env: Setting, task: Task, s: Snapshot, t: Snapshot)
    requires env.Acyclic() && task.StopTask? && Did(env, task, s, t)
    requires Carries(env, s.view, true, t.view, true, AskedBy(task))
    ensures QuietSince(s.view, t.view)
  {
  }
}
