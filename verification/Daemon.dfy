/** The daemon's module machinery with its re-entrant hooks: sessions, per-session launchers and the
    lock module call update() from inside the pass that started or stopped them. */
module Daemon {
  import opened Specs
  import opened Expansion
  import opened Steps
  import opened Selection
  import opened Gaps
  import opened DependencyOrder

  datatype Outcome =
    | Synchronized
    | FailedToStop(errors: seq<Spec>)   // UserError('Failed to stop some modules.')
    | Raised                            // an exception from a start() or reconfigure()

  datatype Progress = KeepGoing | NoMoreWork | HookRaised

  /** The part of the state a pass changes and its caller can observe. */
  datatype View = View(running: seq<Spec>, locked: bool, log: seq<Event>)

  /** What every piece of a pass guarantees towards its caller, whatever hooks do. */
  ghost predicate Continues(env: Setting, inp: Inputs, a: View, b: View)
    requires env.Acyclic()
  {
    && a.log <= b.log
    && AtMost(BaseGap(env, inp, b.running, b.locked), BaseGap(env, inp, a.running, a.locked))
    && (!inp.shuttingDown && a.locked ==> b.locked)
    && (b.locked ==> a.locked || LockStartedSince(|a.log|, b.log))
    && StartsWanted(env, inp, |a.log|, b.log)
    && (!inp.shuttingDown ==> CoreSpared(env, |a.log|, b.log))
    && (inp.shuttingDown ==> multiset(b.running) <= multiset(a.running) && OnlyStopsSince(|a.log|, b.log))
  }

  /** Since the log had n entries, per-session modules aside, only what is wanted in one of the two
      lock states has been started. */
  ghost predicate StartsWanted(env: Setting, inp: Inputs, n: nat, log: seq<Event>)
    requires env.Acyclic()
  {
    forall k :: n <= k < |log| && log[k].Starting? && !env.IsChild(log[k].spec) ==>
      log[k].spec in BaseSet(env, inp, false) || log[k].spec in BaseSet(env, inp, true)
  }

  /** Since the log had n entries, no core module was stopped or replaced. */
  ghost predicate CoreSpared(env: Setting, n: nat, log: seq<Event>) {
    forall k :: n <= k < |log| ==> !TakesCore(env, log[k])
  }

  ghost predicate TakesCore(env: Setting, e: Event) {
    exists x :: x in env.core && !env.IsChild(x) && Takes(e, x)
  }

  ghost predicate OnlyStopsSince(n: nat, log: seq<Event>) {
    forall k :: n <= k < |log| ==> log[k].Stopping? || log[k].StopFailed?
  }

  /** Since the log had n entries, a start() or a reconfigure() has raised. */
  ghost predicate RaisedSince(n: nat, log: seq<Event>) {
    exists k :: n <= k < |log| && (log[k].StartFailed? || log[k].ReconfigureFailed?)
  }

  /** Since the log had n entries, the lock module has been started. */
  ghost predicate LockStartedSince(n: nat, log: seq<Event>) {
    exists k :: n <= k < |log| && log[k].Starting? && log[k].spec == LOCK
  }

  ghost predicate StartedSince(n: nat, log: seq<Event>, x: Spec) {
    exists k :: n <= k < |log| && log[k].Starting? && log[k].spec == x
  }

  ghost predicate FailedSince(n: nat, log: seq<Event>, x: Spec) {
    exists k :: n <= k < |log| && log[k] == StopFailed(x)
  }

  lemma ContinuesTransitive(env: Setting, inp: Inputs, a: View, b: View, c: View)
    requires env.Acyclic() && Continues(env, inp, a, b) && Continues(env, inp, b, c)
    ensures Continues(env, inp, a, c)
  {
  }

  lemma ContinuesLess(env: Setting, inp: Inputs, a: View, b: View, c: View)
    requires env.Acyclic() && Continues(env, inp, b, c)
    requires Less(BaseGap(env, inp, b.running, b.locked), BaseGap(env, inp, a.running, a.locked))
    ensures Less(BaseGap(env, inp, c.running, c.locked), BaseGap(env, inp, a.running, a.locked))
  {
    LessTransitive(BaseGap(env, inp, c.running, c.locked), BaseGap(env, inp, b.running, b.locked),
      BaseGap(env, inp, a.running, a.locked));
  }

  lemma ContinuesReflexive(env: Setting, inp: Inputs, a: View)
    requires env.Acyclic()
    ensures Continues(env, inp, a, a)
  {
  }

  /** Unlocking what is unlocked already, or while shutting down, leaves the base of the wanted list alone. */
  lemma UnlockedContinues(env: Setting, inp: Inputs, a: View)
    requires env.Acyclic() && (a.locked ==> inp.shuttingDown)
    ensures BaseSet(env, inp, false) == BaseSet(env, inp, a.locked)
    ensures Continues(env, inp, a, a.(locked := false))
  {
    assert BaseSelected(env, inp, a.locked) == BaseSelected(env, inp, false);
  }

  /** The view once the start hook of w has set the state it sets itself. */
  ghost function Entered(a: View, w: Spec): View {
    if w == LOCK then a.(locked := true) else a
  }

  /** Locking can only use up the one flip there is. */
  lemma LockingAtMost(env: Setting, inp: Inputs, a: View, w: Spec)
    requires env.Acyclic() && !inp.shuttingDown
    ensures AtMost(BaseGap(env, inp, a.running, Entered(a, w).locked), BaseGap(env, inp, a.running, a.locked))
  {
  }

  lemma LockStartKept(n: nat, m: nat, log: seq<Event>, log': seq<Event>)
    requires LockStartedSince(m, log) && n <= m && log <= log'
    ensures LockStartedSince(n, log')
  {
    var k :| m <= k < |log| && log[k].Starting? && log[k].spec == LOCK;
    assert log'[k] == log[k];
  }

  lemma StaysLocked(env: Setting, inp: Inputs, a: View, b: View)
    requires env.Acyclic() && Continues(env, inp, a, b)
    ensures !inp.shuttingDown && a.locked ==> b.locked
    ensures !a.locked && b.locked ==> LockStartedSince(|a.log|, b.log)
  {
  }

  /** Launchers and their selectors. */
  ghost predicate LaunchersRegistered(env: Setting, launchers: set<Spec>, running: seq<Spec>, log: seq<Event>) {
    && (forall l :: l in launchers ==> l in running && env.IsLauncher(l))
    && (NoStopFailed(log) ==> forall l :: l in running && env.IsLauncher(l) ==> l in launchers)
  }

  /** The running list holds what the log accounts for; while no stop has failed it is also free of
      duplicates and in dependency order. */
  ghost predicate InOrder(env: Setting, running: seq<Spec>, log: seq<Event>) {
    && multiset(running) == Tally(log) && FreshStarts(log)
    && (NoStopFailed(log) ==>
          && NoDuplicates(running)
          && (env.LeavesReconfigureAndReenter() ==> Ordered(env, running) && LogSafe(env, log)))
  }

  /** What no update gets off the list: modules whose stop always raises, and launchers without their
      selector. The latter's stop raises before it does anything. */
  ghost predicate Fixed(env: Setting, launchers: set<Spec>, y: Spec) {
    env.Unstoppable(y) || (env.IsLauncher(y) && y !in launchers)
  }

  ghost predicate Kept(env: Setting, launchers: set<Spec>, running: seq<Spec>, launchers': set<Spec>,
      running': seq<Spec>) {
    forall y :: y in running && Fixed(env, launchers, y) ==> y in running' && Fixed(env, launchers', y)
  }

  // ---- Trouble ----

  /** Since the log had n entries, no hook has raised. */
  ghost predicate Untroubled(n: nat, log: seq<Event>) {
    forall k :: n <= k < |log| ==> !Trouble(log[k])
  }

  predicate Trouble(e: Event) {
    e.StopFailed? || e.StartFailed? || e.ReconfigureFailed?
  }

  /** Where no hook has trouble of its own and none has had any so far, there is none. */
  ghost predicate Smooth(env: Setting, before: seq<Event>, after: seq<Event>) {
    env.AllWorks() && NoStopFailed(before) ==> Untroubled(|before|, after)
  }

  /** When stop() of x returns, given what its hook has found and what has been logged since it was
      called at length n. */
  ghost predicate StopReturns(env: Setting, launchers: set<Spec>, x: Spec, n: nat, log: seq<Event>) {
    && Untroubled(n, log)
    && match env.KindOf(x) {
         case LockKind => env.stopWorks(x, n)                    // telling the processes that wait
         case Ordinary(Launcher(_, _)) => x in launchers         // else KeyError
         case Ordinary(_) => env.stopWorks(x, |log|)
       }
  }

  /** When start() of w returns. */
  ghost predicate StartReturns(env: Setting, w: Spec, n: nat, log: seq<Event>) {
    Untroubled(n, log) && (w == LOCK || env.IsLauncher(w) || env.startWorks(w, n))
  }

  lemma TroubleMeans(n: nat, log: seq<Event>, x: Spec)
    ensures FailedSince(n, log, x) ==> !Untroubled(n, log)
    ensures RaisedSince(n, log) ==> !Untroubled(n, log)
  {
  }

  lemma TroublesMean(n: nat, log: seq<Event>, errors: seq<Spec>)
    requires errors != [] && forall x :: x in errors ==> FailedSince(n, log, x)
    ensures !Untroubled(n, log)
  {
    assert errors[0] in errors;
    TroubleMeans(n, log, errors[0]);
  }

  lemma UntroubledOn(n: nat, a: seq<Event>, b: seq<Event>)
    requires n <= |a| && a <= b
    ensures Untroubled(n, b) <==> Untroubled(n, a) && Untroubled(|a|, b)
  {
    assert forall k :: n <= k < |a| ==> b[k] == a[k];
  }

  lemma UntroubledAppend(n: nat, a: seq<Event>, e: Event)
    requires n <= |a|
    ensures Untroubled(n, a + [e]) <==> Untroubled(n, a) && !Trouble(e)
  {
    UntroubledOn(n, a, a + [e]);
    assert (a + [e])[|a|] == e;
  }

  lemma NothingLogged(n: nat, log: seq<Event>)
    requires n >= |log|
    ensures Untroubled(n, log)
  {
  }

  lemma StaysClean(a: seq<Event>, b: seq<Event>)
    requires a <= b && NoStopFailed(a) && Untroubled(|a|, b)
    ensures NoStopFailed(b)
  {
    forall e | e in b ensures !e.StopFailed? {
      var k :| 0 <= k < |b| && b[k] == e;
      assert k < |a| ==> a[k] == e && e in a;
      assert k >= |a| ==> !Trouble(b[k]);
    }
  }

  lemma SmoothTransitive(env: Setting, a: seq<Event>, b: seq<Event>, c: seq<Event>)
    requires a <= b <= c && Smooth(env, a, b) && Smooth(env, b, c)
    ensures Smooth(env, a, c)
  {
    if env.AllWorks() && NoStopFailed(a) {
      StaysClean(a, b);
      UntroubledOn(|a|, b, c);
    }
  }

  lemma SmoothReflexive(env: Setting, a: seq<Event>)
    ensures Smooth(env, a, a)
  {
  }

  // ---- Which operation comes next ----

  /** The event that the next operation of a pass logs first. */
  ghost predicate NextStep(env: Setting, running: seq<Spec>, wanted: seq<Spec>, errors: seq<Spec>, n: nat, e: Event) {
    match e
    case Reconfigured(s, w) => exists i, k :: AcceptsFirst(running, wanted, env.Offered(n), k, i, s, w)
    case ReconfigureFailed(s, w) =>
      exists k: nat, i: nat ::
        RaisesFirst(running, wanted, env.Offered(n), k, i) && s == running[i] && w == wanted[k]
    case Stopping(x, rest) =>
      && DeclinedBefore(running, wanted, env.Offered(n), |wanted|, 0)
      && (exists i: nat :: LastStoppable(running, wanted, errors, i) && x == running[i] && rest == RemoveAt(running, i))
    case Starting(w, present) =>
      && DeclinedBefore(running, wanted, env.Offered(n), |wanted|, 0)
      && (forall x :: x in running ==> !Stoppable(x, wanted, errors))
      && (exists k: nat :: FirstMissing(running, wanted, k) && w == wanted[k]) && present == running
    case _ => false
  }

  ghost predicate AcceptsFirst(running: seq<Spec>, wanted: seq<Spec>, answer: (Spec, Spec) -> Answer, k: nat, i: nat,
      s: Spec, w: Spec) {
    && k < |wanted| && i < |running| && s == running[i] && w == wanted[k]
    && Replaceable(running, wanted, i, w) && answer(s, w).Accepts?
    && DeclinedBefore(running, wanted, answer, k, i)
  }

  ghost predicate LastStoppable(running: seq<Spec>, wanted: seq<Spec>, errors: seq<Spec>, i: nat) {
    && i < |running| && Stoppable(running[i], wanted, errors)
    && forall j :: i < j < |running| ==> !Stoppable(running[j], wanted, errors)
  }

  ghost predicate FirstMissing(running: seq<Spec>, wanted: seq<Spec>, k: nat) {
    && k < |wanted| && wanted[k] !in running
    && forall j :: 0 <= j < k ==> wanted[j] in running
  }

  lemma OfferTaken(env: Setting, n: nat, s: Spec, w: Spec)
    requires env.Offered(n)(s, w).Accepts?
    ensures env.reconfigurable(w.name)
  {
  }

  lemma ReconfiguresNext(env: Setting, running: seq<Spec>, wanted: seq<Spec>, errors: seq<Spec>, n: nat, k: nat, i: nat)
    requires k < |wanted| && i < |running|
    requires AcceptsFirst(running, wanted, env.Offered(n), k, i, running[i], wanted[k])
    ensures NextStep(env, running, wanted, errors, n, Reconfigured(running[i], wanted[k]))
  {
  }

  lemma StopsNext(env: Setting, running: seq<Spec>, wanted: seq<Spec>, errors: seq<Spec>, n: nat, i: nat)
    requires DeclinedBefore(running, wanted, env.Offered(n), |wanted|, 0) && LastStoppable(running, wanted, errors, i)
    ensures NextStep(env, running, wanted, errors, n, Stopping(running[i], RemoveAt(running, i)))
  {
    hide DeclinedBefore;
    assert LastStoppable(running, wanted, errors, i) && RemoveAt(running, i) == RemoveAt(running, i);
  }

  lemma StartsNext(env: Setting, running: seq<Spec>, wanted: seq<Spec>, errors: seq<Spec>, n: nat, k: nat)
    requires DeclinedBefore(running, wanted, env.Offered(n), |wanted|, 0) && FirstMissing(running, wanted, k)
    requires forall j :: 0 <= j < |running| ==> !Stoppable(running[j], wanted, errors)
    ensures NextStep(env, running, wanted, errors, n, Starting(wanted[k], running))
  {
    hide DeclinedBefore;
  }

  lemma EarlierFailures(errors: seq<Spec>, n: nat, log: seq<Event>)
    requires forall x :: x in errors ==> FailedSince(n, log, x)
    ensures forall x :: x in errors ==> FailedSince(0, log, x)
  {
  }

  lemma AllRunning(running: seq<Spec>, wanted: seq<Spec>, k: nat)
    requires k <= |wanted| && (k < |wanted| ==> wanted[k] !in running)
    ensures Elems(running) == Elems(wanted) ==> k == |wanted|
  {
    if k < |wanted| {
      assert wanted[k] in Elems(wanted) && wanted[k] !in Elems(running);
    }
  }

  // ---- Growing ----

  /** Nothing is to be stopped, and whatever may come to be started does start. */
  ghost predicate Growing(env: Setting, inp: Inputs, launchers: set<Spec>, running: seq<Spec>, locked: bool)
    requires env.Acyclic()
  {
    && Elems(running) <= WantedSet(env, inp, launchers, running, locked)
    && (forall x :: x in BaseSet(env, inp, locked) && x !in running ==> env.AlwaysStarts(x))
    && (forall c :: env.IsChild(c) && c !in running ==> env.AlwaysStarts(c))
    && (LOCK in BaseSet(env, inp, locked) && LOCK !in running ==> locked)
  }

  ghost predicate StartsOnly(n: nat, log: seq<Event>) {
    forall k :: n <= k < |log| ==> log[k].Starting?
  }

  /** From a to b modules have been started, and nothing else was done. */
  ghost predicate Grown(a: View, b: View) {
    a.log <= b.log && Elems(a.running) <= Elems(b.running) && a.locked == b.locked && StartsOnly(|a.log|, b.log)
  }

  lemma GrownReflexive(a: View)
    ensures Grown(a, a)
  {
  }

  lemma GrownTransitive(a: View, b: View, c: View)
    requires Grown(a, b) && Grown(b, c)
    ensures Grown(a, c)
  {
    forall k | |a.log| <= k < |c.log| ensures c.log[k].Starting? {
      assert k < |b.log| ==> c.log[k] == b.log[k];
    }
  }

  /** What is missing and wanted will start. */
  lemma GrowingMeans(env: Setting, inp: Inputs, launchers: set<Spec>, running: seq<Spec>, locked: bool,
      wanted: seq<Spec>)
    requires env.WellFormed() && Elems(wanted) == WantedSet(env, inp, launchers, running, locked)
    ensures Growing(env, inp, launchers, running, locked) ==>
      forall w :: w in wanted && w !in running ==> env.AlwaysStarts(w) && (w == LOCK ==> locked)
  {
    BaseOfWanted(env, inp, launchers, running, locked);
    hide BaseSet, WantedList, Setting.AlwaysStarts;
    forall w | w in wanted && w !in running && Growing(env, inp, launchers, running, locked)
      ensures env.AlwaysStarts(w) && (w == LOCK ==> locked)
    {
      assert w in Elems(wanted);
      assert !env.IsChild(w) ==> w in NonChildren(env, WantedList(env, inp, launchers, running, locked));
    }
  }

  /** Where nothing is to be stopped, there is nothing to reconfigure or stop. */
  lemma AllWanted(env: Setting, inp: Inputs, launchers: set<Spec>, running: seq<Spec>, locked: bool, wanted: seq<Spec>)
    requires env.WellFormed()
    ensures Growing(env, inp, launchers, running, locked) ==>
      Elems(wanted) == WantedSet(env, inp, launchers, running, locked) ==>
        forall j :: 0 <= j < |running| ==> running[j] in wanted
    ensures Elems(running) == Elems(wanted) ==> forall j :: 0 <= j < |running| ==> running[j] in wanted
  {
    hide WantedSet, BaseSet, Setting.AlwaysStarts;
    assert forall j :: 0 <= j < |running| ==> running[j] in Elems(running);
  }

  /** Once w has joined, and has set the state it sets itself, the rest is still to grow. */
  lemma GrowingJoined(env: Setting, inp: Inputs, launchers: set<Spec>, running: seq<Spec>, locked: bool, w: Spec)
    requires env.WellFormed() && Growing(env, inp, launchers, running, locked)
    requires w in WantedSet(env, inp, launchers, running, locked) && (w == LOCK ==> locked)
    ensures Growing(env, inp, WithSelector(env, launchers, w), running + [w], locked)
  {
    assert Elems(running + [w]) == Elems(running) + {w};
    WantedMonotone(env, inp, launchers, running, WithSelector(env, launchers, w), running + [w], locked);
    hide WantedSet, BaseSet, Setting.AlwaysStarts;
  }

  lemma GrowingDone(env: Setting, inp: Inputs, launchers: set<Spec>, a: View, launchers': set<Spec>, b: View)
    requires env.WellFormed() && Growing(env, inp, launchers, a.running, a.locked) && Grown(a, b)
    requires Elems(b.running) == WantedSet(env, inp, launchers', b.running, b.locked)
    ensures Growing(env, inp, launchers', b.running, b.locked)
  {
    assert forall x :: x in a.running ==> x in Elems(a.running);
    assert forall x :: x in b.running <==> x in Elems(b.running);
    BaseOfWanted(env, inp, launchers', b.running, b.locked);
    forall x | x in BaseSet(env, inp, b.locked) ensures x in b.running {
      assert x in NonChildren(env, WantedList(env, inp, launchers', b.running, b.locked));
    }
    hide BaseSet, WantedList, Setting.AlwaysStarts;
  }

  lemma NothingHandled(env: Setting, launchers: set<Spec>, running: seq<Spec>, log: seq<Event>)
    ensures Kept(env, launchers, running, launchers, running) && Registers(launchers, |log|, launchers, log)
  {
  }

  lemma NothingRegistered(launchers: set<Spec>, log: seq<Event>, e: Event)
    ensures Registers(launchers, |log|, launchers, log + [e])
  {
  }

  lemma KeptTransitive(env: Setting, la: set<Spec>, ra: seq<Spec>, lb: set<Spec>, rb: seq<Spec>, lc: set<Spec>,
      rc: seq<Spec>)
    requires Kept(env, la, ra, lb, rb) && Kept(env, lb, rb, lc, rc)
    ensures Kept(env, la, ra, lc, rc)
  {
  }

  /** Fewer selectors, more that is fixed. */
  lemma KeptFromFewer(env: Setting, l: set<Spec>, fewer: set<Spec>, r: seq<Spec>, l': set<Spec>, r': seq<Spec>)
    requires fewer <= l && Kept(env, fewer, r, l', r')
    ensures Kept(env, l, r, l', r')
  {
  }

  /** Since the log had n entries, selectors have been registered by starts only. */
  ghost predicate Registers(launchers: set<Spec>, n: nat, launchers': set<Spec>, log': seq<Event>) {
    forall l :: l in launchers' ==> l in launchers || StartedSince(n, log', l)
  }

  lemma StartedKept(n: nat, m: nat, log: seq<Event>, log': seq<Event>, x: Spec)
    requires StartedSince(m, log, x) && n <= m && log <= log'
    ensures StartedSince(n, log', x)
  {
    var k :| m <= k < |log| && log[k].Starting? && log[k].spec == x;
    assert log'[k] == log[k];
  }

  lemma RegistersTransitive(la: set<Spec>, n: nat, lb: set<Spec>, m: nat, logb: seq<Event>, lc: set<Spec>,
      logc: seq<Event>)
    requires Registers(la, n, lb, logb) && Registers(lb, m, lc, logc) && n <= m && logb <= logc
    ensures Registers(la, n, lc, logc)
  {
    forall l | l in lc && l !in la ensures StartedSince(n, logc, l) {
      if l in lb {
        StartedKept(n, n, logb, logc, l);
      } else {
        StartedKept(n, m, logc, logc, l);
      }
    }
  }

  // ---- What one pass has done so far ----

  /** From a to b, with launchers la and then lb: what a pass guarantees, and the failures it has met. */
  ghost predicate SoFar(env: Setting, inp: Inputs, la: set<Spec>, a: View, lb: set<Spec>, b: View, errors: seq<Spec>,
      raised: bool)
    requires env.Acyclic()
  {
    && Continues(env, inp, a, b) && Smooth(env, a.log, b.log)
    && Kept(env, la, a.running, lb, b.running) && Registers(la, |a.log|, lb, b.log)
    && (forall x :: x in errors ==> FailedSince(|a.log|, b.log, x))
    && (raised ==> RaisedSince(|a.log|, b.log))
    && (Untroubled(|a.log|, b.log) <==> errors == [] && !raised)
  }

  lemma NothingDone(env: Setting, inp: Inputs, l: set<Spec>, a: View)
    requires env.Acyclic()
    ensures SoFar(env, inp, l, a, l, a, [], false)
  {
    hide BaseGap, BaseSet;
  }

  lemma SoFarMeans(env: Setting, inp: Inputs, la: set<Spec>, a: View, lb: set<Spec>, b: View, errors: seq<Spec>,
      raised: bool)
    requires env.Acyclic() && SoFar(env, inp, la, a, lb, b, errors, raised)
    ensures Continues(env, inp, a, b) && Smooth(env, a.log, b.log) && a.log <= b.log
    ensures AtMost(BaseGap(env, inp, b.running, b.locked), BaseGap(env, inp, a.running, a.locked))
    ensures Kept(env, la, a.running, lb, b.running) && Registers(la, |a.log|, lb, b.log)
    ensures forall x :: x in errors ==> FailedSince(|a.log|, b.log, x)
    ensures raised ==> RaisedSince(|a.log|, b.log)
    ensures Untroubled(|a.log|, b.log) <==> errors == [] && !raised
  {
    hide BaseGap;
  }

  lemma SoFarStep(env: Setting, inp: Inputs, la: set<Spec>, a: View, lb: set<Spec>, b: View, errors: seq<Spec>,
      lc: set<Spec>, c: View, errors': seq<Spec>, raised: bool)
    requires env.Acyclic() && SoFar(env, inp, la, a, lb, b, errors, false)
    requires Continues(env, inp, b, c) && Smooth(env, b.log, c.log)
    requires Kept(env, lb, b.running, lc, c.running) && Registers(lb, |b.log|, lc, c.log)
    requires forall x :: x in errors' ==> FailedSince(|a.log|, c.log, x)
    requires raised ==> RaisedSince(|a.log|, c.log)
    requires Untroubled(|b.log|, c.log) <==> errors' == errors && !raised
    requires errors' == [] ==> errors == []
    ensures SoFar(env, inp, la, a, lc, c, errors', raised)
  {
    ContinuesTransitive(env, inp, a, b, c);
    ContinuesAtMost(env, inp, a, b);
    ContinuesAtMost(env, inp, b, c);
    KeptTransitive(env, la, a.running, lb, b.running, lc, c.running);
    RegistersTransitive(la, |a.log|, lb, |b.log|, b.log, lc, c.log);
    SmoothTransitive(env, a.log, b.log, c.log);
    UntroubledOn(|a.log|, b.log, c.log);
    hide Continues, Kept, Registers, Smooth, Untroubled, FailedSince, RaisedSince, BaseGap;
  }

  class Daemon {
    const env: Setting

    // changed by events only
    var config: (set<Spec>, bool) -> seq<Spec>
    var sessions: set<Spec>          // session_specs
    var shuttingDown: bool           // '95-shutdown' is among the selectors

    // changed by passes
    var running: seq<Spec>
    var wanted: seq<Spec>
    var launchers: set<Spec>         // launchers whose '40-' selector is registered
    var locked: bool                 // state.locked
    var log: seq<Event>

    constructor (env: Setting, config: (set<Spec>, bool) -> seq<Spec>)
      requires env.WellFormed()
      ensures Valid() && this.env == env && this.config == config
      ensures running == [] && wanted == [] && launchers == {} && log == []
      ensures sessions == {} && !locked && !shuttingDown
    {
      this.env, this.config := env, config;
      sessions, shuttingDown, running, wanted, launchers, locked, log := {}, false, [], [], {}, false, [];
    }

    ghost predicate Valid()
      reads this
    {
      && env.WellFormed()
      && LaunchersRegistered(env, launchers, running, log)
      && InOrder(env, running, log)
    }

    ghost function In(): Inputs
      reads `config, `sessions, `shuttingDown
    {
      Inputs(config, sessions, shuttingDown)
    }

    ghost function Now(): View
      reads `running, `locked, `log
    {
      View(running, locked, log)
    }

    ghost function Left(): Gap
      requires env.Acyclic()
      reads this
    {
      BaseGap(env, In(), running, locked)
    }

    /** The wanted list was computed in the present lock state. */
    ghost predicate Current()
      requires env.Acyclic()
      reads this
    {
      && NonChildren(env, wanted) == BaseSet(env, In(), locked)
      && Ordered(env, wanted)
      && (shuttingDown ==> wanted == [])
    }

    /** The wanted list is what the selectors would ask for now. */
    ghost predicate Fresh()
      requires env.Acyclic()
      reads this
    {
      Elems(wanted) == WantedSet(env, In(), launchers, running, locked)
    }

    /** What runs is what the selectors would ask for now. */
    ghost predicate InStep()
      requires env.Acyclic()
      reads this
    {
      Elems(running) == WantedSet(env, In(), launchers, running, locked)
    }

    ghost predicate ToGrow()
      requires env.Acyclic()
      reads this
    {
      Growing(env, In(), launchers, running, locked)
    }

    // ---- update ----

    method RunSelectors() returns (selected: seq<Spec>)
      requires env.WellFormed()
      ensures selected == Selected(env, In(), launchers, running, locked)
      ensures if shuttingDown then selected == []
        else InKeyOrder(env, In(), launchers, running, locked, selected)
    {
      SelectedInKeyOrder(env, In(), launchers, running, locked);
      hide InKeyOrder;
      selected := env.core;                               // 10-core
      selected := selected + config(sessions, locked);    // 20-config
      selected := selected + env.setOrder(sessions);      // 30-sessions
      ghost var before := FirstSelected(env, In(), locked);
      var keys := env.keyOrder(launchers);                // 40-...
      for k := 0 to |keys|
        invariant selected == before + Children(env, keys[..k], running)
      {
        selected := PerSessionSelector(keys[k], selected);
        assert keys[..k + 1][..k] == keys[..k];
      }
      assert keys[..|keys|] == keys;
      if locked {                                         // 50-lock
        selected := selected + [LOCK];
      }
      if shuttingDown {                                   // 95-shutdown
        selected := [];
      }
    }

    method PerSessionSelector(launcher: Spec, list: seq<Spec>) returns (list': seq<Spec>)
      ensures list' == list + ChildrenOf(env, launcher, running)
    {
      list' := list;
      for i := 0 to |running|
        invariant list' == list + ChildrenOf(env, launcher, running[..i])
      {
        if Serves(env, launcher, running[i]) {
          list' := list' + [Child(env, launcher, running[i])];
        }
        assert running[..i + 1][..i] == running[..i];
      }
      assert running[..|running|] == running;
    }

    /** Bring running modules in step with the selectors. It always finishes, whatever hooks fail. */
    method Update() returns (r: Outcome)
      requires Valid()
      modifies `running, `wanted, `launchers, `locked, `log
      ensures Valid() && Current() && Continues(env, In(), old(Now()), Now())
      ensures r.Synchronized? ==> Elems(running) == Elems(wanted) && Fresh()
      ensures r.FailedToStop? ==> r.errors != [] && Elems(wanted) <= Elems(running) <= Elems(wanted) + Elems(r.errors)
      ensures r.FailedToStop? ==> forall x :: x in r.errors ==> FailedSince(|old(log)|, log, x)
      ensures r.Raised? ==> RaisedSince(|old(log)|, log)
      ensures r.Synchronized? <==> Untroubled(|old(log)|, log)
      ensures Smooth(env, old(log), log)
      ensures old(ToGrow()) ==>
        r.Synchronized? && ToGrow() && Grown(old(Now()), Now()) && old(launchers) <= launchers
      ensures old(InStep()) ==> Now() == old(Now()) && launchers == old(launchers)
      ensures Kept(env, old(launchers), old(running), launchers, running)
      ensures Registers(old(launchers), |old(log)|, launchers, log)
      decreases Left().flips, Left().surplus, Left().missing, 5
    {
      hide Continues, InOrder, LaunchersRegistered, BaseSet, NonChildren, WantedSet, Ordered, BaseGap, Kept, Registers,
        Grown, Growing, Untroubled, Smooth, FailedSince, RaisedSince;
      SelectModules();
      r := StartStopModules();
    }

    /** The first part of it: what the selectors ask for, with dependencies. */
    method SelectModules()
      requires env.WellFormed()
      modifies `wanted
      ensures Current() && Fresh() && NoDuplicates(wanted)
    {
      var selected := RunSelectors();
      wanted := AddDependencies(env, selected);
      ExpandAllOrdered(env, selected);
      DedupeOrdered(env, ExpandAll(env, selected));
      BaseOfWanted(env, In(), launchers, running, locked);
      assert shuttingDown ==> wanted == [];
    }

    method StartStopModules() returns (r: Outcome)
      requires Valid() && Current() && Fresh()
      modifies `running, `wanted, `launchers, `locked, `log
      ensures Valid() && Current() && Continues(env, In(), old(Now()), Now())
      ensures r.Synchronized? ==> Elems(running) == Elems(wanted) && Fresh()
      ensures r.FailedToStop? ==> r.errors != [] && Elems(wanted) <= Elems(running) <= Elems(wanted) + Elems(r.errors)
      ensures r.FailedToStop? ==> forall x :: x in r.errors ==> FailedSince(|old(log)|, log, x)
      ensures r.Raised? ==> RaisedSince(|old(log)|, log)
      ensures r.Synchronized? <==> Untroubled(|old(log)|, log)
      ensures Smooth(env, old(log), log)
      ensures old(ToGrow()) ==>
        r.Synchronized? && ToGrow() && Grown(old(Now()), Now()) && old(launchers) <= launchers
      ensures Elems(old(running)) == Elems(old(wanted)) ==> Now() == old(Now()) && launchers == old(launchers)
      ensures Kept(env, old(launchers), old(running), launchers, running)
      ensures Registers(old(launchers), |old(log)|, launchers, log)
      decreases Left().flips, Left().surplus, Left().missing, 4
    {
      hide Continues, InOrder, LaunchersRegistered, BaseSet, WantedSet, NonChildren, Ordered, WorkLeft, BaseGap,
        Grown, Growing, Untroubled, Smooth, FailedSince, RaisedSince, SoFar, Kept, Registers, NextStep;
      ghost var inp, a := In(), Now();
      NothingDone(env, inp, launchers, a);
      GrownReflexive(a);
      var errors := [];
      var progress := KeepGoing;
      ghost var work := WorkLeft(env, inp, running, locked, wanted, errors);
      while progress.KeepGoing?
        invariant Valid() && Current() && In() == inp
        invariant SoFar(env, inp, old(launchers), a, launchers, Now(), errors, progress.HookRaised?)
        invariant !progress.HookRaised? && errors == [] ==> Fresh()
        invariant progress.NoMoreWork? ==> Elems(wanted) <= Elems(running) <= Elems(wanted) + Elems(errors)
        invariant old(ToGrow()) ==>
          !progress.HookRaised? && errors == [] && ToGrow() && Grown(a, Now()) && old(launchers) <= launchers
        invariant Elems(old(running)) == Elems(old(wanted)) ==>
          !progress.HookRaised? && errors == [] && Now() == a && wanted == old(wanted) && launchers == old(launchers)
        invariant work == WorkLeft(env, inp, running, locked, wanted, errors)
        decreases progress.KeepGoing?, work.gap.flips, work.gap.surplus, work.gap.missing,
                  work.untried, work.childSurplus, work.childMissing, work.childUntried
      {
        ghost var b, before, errors' := Now(), launchers, errors;
        SoFarMeans(env, inp, old(launchers), a, launchers, b, errors, false);
        progress, errors := DoOneModule(errors, |a.log|);
        SoFarStep(env, inp, old(launchers), a, before, b, errors', launchers, Now(), errors, progress.HookRaised?);
        if old(ToGrow()) {
          GrownTransitive(a, b, Now());
        }
        work := WorkLeft(env, inp, running, locked, wanted, errors);
      }
      SoFarMeans(env, inp, old(launchers), a, launchers, Now(), errors, progress.HookRaised?);
      if progress.HookRaised? {
        return Raised;
      }
      r := if errors != [] then FailedToStop(errors) else Synchronized;
    }

    /** One operation, or none if there is no work left. */
    method DoOneModule(errors: seq<Spec>, ghost n: nat) returns (progress: Progress, errors': seq<Spec>)
      requires Valid() && Current() && n <= |log|
      requires forall x :: x in errors ==> FailedSince(n, log, x)
      modifies `running, `wanted, `launchers, `locked, `log
      ensures Valid() && Current() && Continues(env, In(), old(Now()), Now())
      ensures if progress.NoMoreWork? then Now() == old(Now()) && wanted == old(wanted) && launchers == old(launchers)
        else |log| > |old(log)| && NextStep(env, old(running), old(wanted), errors, |old(log)|, log[|old(log)|])
      ensures forall x :: x in errors' ==> FailedSince(n, log, x)
      ensures errors' == [] ==> errors == []
      ensures !progress.HookRaised? && errors' == [] && old(Fresh()) ==> Fresh()
      ensures progress.NoMoreWork? ==> Elems(wanted) <= Elems(running) <= Elems(wanted) + Elems(errors')
      ensures Elems(old(running)) == Elems(old(wanted)) ==> progress.NoMoreWork? && errors' == errors
      ensures progress.HookRaised? ==> RaisedSince(n, log)
      ensures Untroubled(|old(log)|, log) <==> errors' == errors && !progress.HookRaised?
      ensures Smooth(env, old(log), log)
      ensures old(ToGrow() && Fresh()) ==>
        && !progress.HookRaised? && errors' == errors
        && ToGrow() && Grown(old(Now()), Now()) && old(launchers) <= launchers
      ensures Kept(env, old(launchers), old(running), launchers, running)
      ensures Registers(old(launchers), |old(log)|, launchers, log)
      ensures progress.KeepGoing? ==>
        LessWork(WorkLeft(env, In(), running, locked, wanted, errors'),
          old(WorkLeft(env, In(), running, locked, wanted, errors)))
      decreases Left().flips, Left().surplus, Left().missing, 3
    {
      hide Continues, InOrder, LaunchersRegistered, BaseSet, WantedSet, NonChildren, Ordered, WorkLeft, LessWork,
        BaseGap, Grown, Growing, Kept, Registers, RaisedSince, FailedSince, Untroubled, Smooth, NextStep,
          DeclinedBefore,
        Setting.AllWorks, Setting.Offered, Setting.AlwaysStarts;
      ghost var inp, a := In(), Now();
      errors' := errors;
      AllWanted(env, inp, launchers, running, locked, wanted);
      var attempt := TryReconfigure(running, wanted, env.Offered(|log|));
      match attempt
      case AttemptRaised(i, k) =>
        NoteFailedOffer(i, k, errors, n);
        progress := HookRaised;
      case Accepted(i, k) =>
        ReconfiguresNext(env, running, wanted, errors, |log|, k, i);
        OfferTaken(env, |log|, running[i], wanted[k]);
        ReconfigureModule(i, k);
        ReconfigureLessWork(env, inp, a, Now(), wanted, errors, i, wanted[k]);
        FailuresKept(env, inp, a, Now(), n, errors);
        progress := KeepGoing;
      case NoneAccepts =>
        var i := FindStop(running, wanted, errors);
        if i < |running| {
          progress, errors' := StopNext(i, errors, n);
        } else {
          progress := StartNext(errors, n);
        }
    }

    /** Step 1 of do_one_module, where a reconfigure() raises. */
    method NoteFailedOffer(i: nat, k: nat, ghost errors: seq<Spec>, ghost n: nat)
      requires Valid() && Current() && n <= |log|
      requires forall x :: x in errors ==> FailedSince(n, log, x)
      requires RaisesFirst(running, wanted, env.Offered(|log|), k, i)
      modifies `log
      ensures Valid() && Current() && Continues(env, In(), old(Now()), Now())
      ensures NextStep(env, running, wanted, errors, |old(log)|, ReconfigureFailed(running[i], wanted[k]))
      ensures log == old(log) + [ReconfigureFailed(running[i], wanted[k])]
      ensures forall x :: x in errors ==> FailedSince(n, log, x)
      ensures RaisedSince(n, log) && !Untroubled(|old(log)|, log) && !env.AllWorks()
      ensures Smooth(env, old(log), log)
      ensures Kept(env, launchers, running, launchers, running)
      ensures Registers(launchers, |old(log)|, launchers, log)
    {
      hide Continues, InOrder, LaunchersRegistered, BaseSet, NonChildren, Ordered, BaseGap, Kept, Registers,
        RaisedSince, FailedSince, Untroubled, DeclinedBefore;
      ghost var inp, a := In(), Now();
      var failure := ReconfigureFailed(running[i], wanted[k]);
      Noted(env, inp, launchers, a, failure);
      NothingHandled(env, launchers, running, log);
      NothingRegistered(launchers, log, failure);
      UntroubledAppend(|log|, log, failure);
      log := log + [failure];
      assert Now() == Note(a, failure);
      ContinuesReflexive(env, inp, a);
      RaiseNoted(env, inp, a, a, failure);
      FailuresKept(env, inp, a, Now(), n, errors);
    }

    /** Step 2 of do_one_module, for the module it finds. */
    method StopNext(i: nat, errors: seq<Spec>, ghost n: nat) returns (progress: Progress, errors': seq<Spec>)
      requires Valid() && Current() && n <= |log|
      requires forall x :: x in errors ==> FailedSince(n, log, x)
      requires DeclinedBefore(running, wanted, env.Offered(|log|), |wanted|, 0)
      requires LastStoppable(running, wanted, errors, i)
      modifies `running, `wanted, `launchers, `locked, `log
      ensures Valid() && Current() && Continues(env, In(), old(Now()), Now())
      ensures progress.KeepGoing?
      ensures |log| > |old(log)| && NextStep(env, old(running), old(wanted), errors, |old(log)|, log[|old(log)|])
      ensures errors' == errors || errors' == errors + [old(running[i])]
      ensures forall x :: x in errors' ==> FailedSince(n, log, x)
      ensures errors' == [] && old(Fresh()) ==> Fresh()
      ensures Untroubled(|old(log)|, log) <==> errors' == errors
      ensures Smooth(env, old(log), log)
      ensures Kept(env, old(launchers), old(running), launchers, running)
      ensures Registers(old(launchers), |old(log)|, launchers, log)
      ensures LessWork(WorkLeft(env, In(), running, locked, wanted, errors'),
          old(WorkLeft(env, In(), running, locked, wanted, errors)))
      decreases Left().flips, Left().surplus, Left().missing, 2
    {
      hide Continues, InOrder, LaunchersRegistered, BaseSet, WantedSet, NonChildren, Ordered, WorkLeft, LessWork,
        BaseGap, Kept, Registers, FailedSince, Untroubled, Smooth, NextStep, DeclinedBefore, LockStartedSince,
        StartedSince, StopReturns, Setting.AllWorks, Setting.Offered;
      ghost var inp, a, before := In(), Now(), wanted;
      var x := running[i];
      StopsNext(env, running, wanted, errors, |log|, i);
      EarlierFailures(errors, n, log);
      var ok := StopModule(i, errors);
      FailuresKept(env, inp, a, Now(), n, errors);
      progress, errors' := KeepGoing, errors;
      if ok {
        StopLessWork(env, inp, a, before, Now(), wanted, errors, i);
      } else {
        FailedStopLessWork(env, inp, a, before, Now(), wanted, errors, i);
        errors' := errors + [x];
      }
    }

    /** Step 3 of do_one_module: the first wanted module that is missing. */
    method StartNext(ghost errors: seq<Spec>, ghost n: nat) returns (progress: Progress)
      requires Valid() && Current() && n <= |log|
      requires forall x :: x in errors ==> FailedSince(n, log, x)
      requires DeclinedBefore(running, wanted, env.Offered(|log|), |wanted|, 0)
      requires forall j :: 0 <= j < |running| ==> !Stoppable(running[j], wanted, errors)
      modifies `running, `wanted, `launchers, `locked, `log
      ensures Valid() && Current() && Continues(env, In(), old(Now()), Now())
      ensures if progress.NoMoreWork? then Now() == old(Now()) && wanted == old(wanted) && launchers == old(launchers)
        else |log| > |old(log)| && NextStep(env, old(running), old(wanted), errors, |old(log)|, log[|old(log)|])
      ensures forall x :: x in errors ==> FailedSince(n, log, x)
      ensures !progress.HookRaised? && old(Fresh()) ==> Fresh()
      ensures progress.NoMoreWork? ==> Elems(wanted) <= Elems(running) <= Elems(wanted) + Elems(errors)
      ensures Elems(old(running)) == Elems(old(wanted)) ==> progress.NoMoreWork?
      ensures progress.HookRaised? ==> RaisedSince(n, log)
      ensures Untroubled(|old(log)|, log) <==> !progress.HookRaised?
      ensures Smooth(env, old(log), log)
      ensures old(ToGrow() && Fresh()) ==>
        !progress.HookRaised? && ToGrow() && Grown(old(Now()), Now()) && old(launchers) <= launchers
      ensures Kept(env, old(launchers), old(running), launchers, running)
      ensures Registers(old(launchers), |old(log)|, launchers, log)
      ensures progress.KeepGoing? ==>
        LessWork(WorkLeft(env, In(), running, locked, wanted, errors),
          old(WorkLeft(env, In(), running, locked, wanted, errors)))
      decreases Left().flips, Left().surplus, Left().missing, 2
    {
      hide Continues, InOrder, LaunchersRegistered, BaseSet, WantedSet, NonChildren, Ordered, WorkLeft, LessWork,
        BaseGap, Grown, Growing, Kept, Registers, RaisedSince, FailedSince, Untroubled, Smooth, NextStep,
          DeclinedBefore,
        StartReturns, Setting.AllWorks, Setting.Offered, Setting.AlwaysStarts;
      ghost var inp, a := In(), Now();
      var k := FindStart(running, wanted);
      AllRunning(running, wanted, k);
      if k < |wanted| {
        ghost var before := wanted;
        StartsNext(env, running, wanted, errors, |log|, k);
        var ok := StartModule(k);
        FailuresKept(env, inp, a, Now(), n, errors);
        if ok {
          StartLessWork(env, inp, a, before, Now(), wanted, errors, k);
        }
        progress := if ok then KeepGoing else HookRaised;
      } else {
        NothingLogged(|log|, log);
        SmoothReflexive(env, log);
        GrownReflexive(a);
        NothingHandled(env, launchers, running, log);
        ContinuesReflexive(env, inp, a);
        progress := NoMoreWork;
      }
    }

    /** Step 1 of do_one_module: a running module has accepted the parameters of wanted[k]. */
    method ReconfigureModule(i: nat, k: nat)
      requires Valid() && Current()
      requires i < |running| && k < |wanted| && Replaceable(running, wanted, i, wanted[k])
      requires env.reconfigurable(wanted[k].name)
      modifies `running, `log
      ensures Valid() && Current() && Continues(env, In(), old(Now()), Now())
      ensures old(Fresh()) ==> Fresh()
      ensures running == old(running)[i := wanted[k]]
      ensures log == old(log) + [Reconfigured(old(running[i]), wanted[k])]
      ensures Untroubled(|old(log)|, log) && Smooth(env, old(log), log)
      ensures Kept(env, old(launchers), old(running), launchers, running)
      ensures Registers(old(launchers), |old(log)|, launchers, log)
    {
      hide Continues, InOrder, LaunchersRegistered, BaseSet, WantedSet, NonChildren, Ordered, BaseGap, Untroubled;
      ghost var inp, a := In(), Now();
      Swapped(env, inp, launchers, a, wanted, i, k);
      SwapKept(env, launchers, running, i, wanted[k]);
      NothingLogged(|log|, log);
      UntroubledAppend(|log|, log, Reconfigured(running[i], wanted[k]));
      log := log + [Reconfigured(running[i], wanted[k])];
      running := running[i := wanted[k]];
      assert Now() == Swap(a, i, wanted[k]) && In() == inp;
    }

    // ---- Stopping one module ----

    /** stop() of a module that calls back: its own bookkeeping, then update(). */
    method StopHook(x: Spec) returns (ok: bool)
      requires env.WellFormed() && env.Reenters(x) && InOrder(env, running, log) && Current()
      requires LaunchersRegistered(env, launchers - {x}, running, log)
      requires x in launchers ==> env.IsLauncher(x)
      requires x == LOCK && !shuttingDown ==> !locked
      modifies `running, `wanted, `launchers, `locked, `log
      ensures Valid() && Current() && Continues(env, In(), old(Now()), Now())
      ensures ok <==> StopReturns(env, old(launchers), x, |old(log)|, log)
      ensures ok ==> Fresh() && Elems(running) == Elems(wanted)
      ensures Smooth(env, old(log), log)
      ensures x == LOCK && locked ==> LockStartedSince(|old(log)|, log)
      ensures x == LOCK && !env.stopWorks(x, |old(log)|) ==>
        !locked && running == old(running) && launchers == old(launchers) && log == old(log)
      ensures env.IsLauncher(x) && x !in old(launchers) ==>
        !ok && running == old(running) && launchers == old(launchers) && log == old(log)
      ensures env.IsLauncher(x) && x in launchers ==> StartedSince(|old(log)|, log, x)
      ensures Kept(env, old(launchers), old(running), launchers, running)
      ensures Registers(old(launchers), |old(log)|, launchers, log)
      decreases Left().flips, Left().surplus, Left().missing, 6
    {
      hide Continues, InOrder, LaunchersRegistered, BaseSet, NonChildren, WantedSet, Ordered, BaseGap, LockStartedSince,
        Untroubled, Smooth, Growing, Grown, FailedSince, RaisedSince;
      ghost var inp, a := In(), Now();
      assert x !in launchers ==> launchers - {x} == launchers;
      ContinuesReflexive(env, inp, a);
      SmoothReflexive(env, log);
      match env.KindOf(x) {
        case LockKind =>
          UnlockedContinues(env, inp, a);
          locked := false;
          assert Now() == a.(locked := false);
          if !env.stopWorks(x, |log|) {       // writing to the processes that wait for the unlock
            return false;
          }
        case Ordinary(Launcher(_, _)) =>
          if x !in launchers {                // KeyError
            return false;
          }
          launchers := launchers - {x};
        case Ordinary(Session) =>
      }
      ghost var b := Now();
      ContinuesAtMost(env, inp, a, b);
      ghost var fewer := launchers;
      var r := Update();
      ContinuesTransitive(env, inp, a, b, Now());
      StaysLocked(env, inp, b, Now());
      KeptFromFewer(env, old(launchers), fewer, a.running, launchers, running);
      ok := r.Synchronized?;
      if env.KindOf(x).Ordinary? && env.classes(x.name).Session? {
        ok := ok && env.stopWorks(x, |log|);  // closing the session's own resources
      }
    }

    /** stop() of any module. */
    method CallStop(x: Spec) returns (ok: bool)
      requires env.WellFormed() && InOrder(env, running, log) && Current()
      requires LaunchersRegistered(env, launchers - {x}, running, log)
      requires x in launchers ==> env.IsLauncher(x)
      requires x == LOCK && !shuttingDown ==> !locked
      modifies `running, `wanted, `launchers, `locked, `log
      ensures Valid() && Current() && Continues(env, In(), old(Now()), Now())
      ensures ok <==> StopReturns(env, old(launchers), x, |old(log)|, log)
      ensures Smooth(env, old(log), log)
      ensures ok && env.Reenters(x) ==> Fresh() && Elems(running) == Elems(wanted)
      ensures x == LOCK && locked ==> LockStartedSince(|old(log)|, log)
      ensures env.IsLauncher(x) && x !in old(launchers) ==>
        !ok && running == old(running) && launchers == old(launchers) && log == old(log)
      ensures env.IsLauncher(x) && x in launchers ==> StartedSince(|old(log)|, log, x)
      ensures !env.Reenters(x) ==> Now() == old(Now()) && wanted == old(wanted) && launchers == old(launchers)
      ensures Kept(env, old(launchers), old(running), launchers, running)
      ensures Registers(old(launchers), |old(log)|, launchers, log)
      decreases Left().flips, Left().surplus, Left().missing, if env.Reenters(x) then 7 else 0
    {
      hide Continues, InOrder, LaunchersRegistered, BaseSet, NonChildren, WantedSet, Ordered, BaseGap, LockStartedSince,
        StartedSince, Untroubled, Smooth, Kept, Registers, Growing, Grown;
      if env.Reenters(x) {
        ok := StopHook(x);
      } else {
        assert launchers - {x} == launchers;
        ok := env.stopWorks(x, |log|);
        NothingLogged(|log|, log);
        ContinuesReflexive(env, In(), Now());
        SmoothReflexive(env, log);
        NothingHandled(env, launchers, running, log);
      }
    }

    /** Step 2 of do_one_module, for the module it finds. */
    method StopModule(i: nat, ghost errors: seq<Spec>) returns (ok: bool)
      requires Valid() && Current()
      requires i < |running| && Stoppable(running[i], wanted, errors)
      requires forall j :: i < j < |running| ==> !Stoppable(running[j], wanted, errors)
      requires forall e :: e in errors ==> FailedSince(0, log, e)
      modifies `running, `wanted, `launchers, `locked, `log
      ensures Valid() && Current() && Continues(env, In(), old(Now()), Now())
      ensures |log| > |old(log)| && log[|old(log)|] == Stopping(old(running[i]), RemoveAt(old(running), i))
      ensures ok <==> StopReturns(env, old(launchers), old(running[i]), |old(log)| + 1,
          if ok then log else log[..|log| - 1])
      ensures ok <==> Untroubled(|old(log)|, log)
      ensures Smooth(env, old(log), log)
      ensures ok && old(Fresh()) ==> Fresh()
      ensures !ok ==> FailedSince(|old(log)|, log, old(running[i]))
      ensures !ok ==> running != [] && running[if i < |running| then i else |running| - 1] == old(running[i])
      ensures ok && !env.IsChild(old(running[i])) ==> Less(Left(), old(Left()))
      ensures old(running[i]) == LOCK && locked ==> LockStartedSince(|old(log)|, log)
      ensures env.IsLauncher(old(running[i])) && old(running[i]) !in old(launchers) ==>
        !ok && running == old(running) && launchers == old(launchers)
      ensures ok && env.Reenters(old(running[i])) ==> Fresh() && Elems(running) == Elems(wanted)
      ensures env.IsLauncher(old(running[i])) && old(running[i]) in launchers ==>
        StartedSince(|old(log)|, log, old(running[i]))
      ensures Kept(env, old(launchers), old(running), launchers, running)
      ensures Registers(old(launchers), |old(log)|, launchers, log)
      ensures !env.Reenters(old(running[i])) ==>
        && wanted == old(wanted) && locked == old(locked) && launchers == old(launchers)
        && running == (if ok then RemoveAt(old(running), i) else old(running))
        && |log| == |old(log)| + if ok then 1 else 2
      decreases Left().flips, Left().surplus, Left().missing, 1
    {
      hide Continues, InOrder, LaunchersRegistered, BaseGap, BaseSet, WantedSet, NonChildren, Ordered,
        LockStartedSince, FailedSince, Untroubled, Smooth, StopReturns,
        Kept, Registers, StartedSince;
      var x := running[i];
      ghost var inp, a := In(), Now();
      ghost var b := Leaving(a, i);
      LeaveList(i, errors);
      ok := CallStop(x);
      if !env.IsChild(x) {
        ContinuesLess(env, inp, a, b, Now());
      }
      ContinuesAtMost(env, inp, b, Now());
      StopKeepsFixed(env, old(launchers), x, |b.log|, log, ok, launchers);
      InsertRemoved(a.running, i);
      SettleStop(ok, i, x, a, old(launchers));
    }

    /** A module is off the list before its stop hook is called. */
    method LeaveList(i: nat, ghost errors: seq<Spec>)
      requires Valid() && Current()
      requires i < |running| && Stoppable(running[i], wanted, errors)
      requires forall j :: i < j < |running| ==> !Stoppable(running[j], wanted, errors)
      requires forall e :: e in errors ==> FailedSince(0, log, e)
      modifies `running, `log
      ensures Now() == Leaving(old(Now()), i)
      ensures Current() && InOrder(env, running, log)
      ensures LaunchersRegistered(env, launchers - {old(running[i])}, running, log)
      ensures Continues(env, In(), old(Now()), Now())
      ensures AtMost(Left(), old(Left())) && (!env.IsChild(old(running[i])) ==> Less(Left(), old(Left())))
      ensures old(running[i]) in launchers ==> env.IsLauncher(old(running[i]))
      ensures old(running[i]) == LOCK && !shuttingDown ==> !locked
      ensures !env.Reenters(old(running[i])) && old(Fresh()) ==> Fresh()
    {
      hide Continues, InOrder, LaunchersRegistered, BaseGap, BaseSet, WantedSet, NonChildren, Ordered, FailedSince;
      var x := running[i];
      ghost var inp, a := In(), Now();
      ghost var b := Leaving(a, i);
      TakenOut(env, inp, launchers, a, wanted, i, errors);
      WantedSetByPlain(env, inp, launchers, running, b.running, locked, x);
      StopsUnlocked(env, inp, launchers, a, wanted, x);
      ContinuesAtMost(env, inp, a, b);
      running := RemoveAt(running, i);
      log := log + [Stopping(x, running)];
      assert Now() == b && In() == inp;
      assert Left() == BaseGap(env, inp, b.running, b.locked);
    }

    /** Once stop() has returned or raised. */
    method SettleStop(ok: bool, i: nat, x: Spec, ghost a: View, ghost before: set<Spec>)
      requires Valid() && Current() && i < |a.running| && a.running[i] == x
      requires Continues(env, In(), a, Leaving(a, i)) && Continues(env, In(), Leaving(a, i), Now())
      requires LaunchersRegistered(env, before, a.running, a.log)
      requires Kept(env, before, RemoveAt(a.running, i), launchers, running)
      requires Registers(before, |a.log| + 1, launchers, log)
      requires Fixed(env, before, x) ==> !ok && Fixed(env, launchers, x)
      requires Leaving(a, i).log <= log && Smooth(env, Leaving(a, i).log, log)
      requires ok <==> StopReturns(env, before, x, |a.log| + 1, log)
      modifies `running, `log
      ensures Valid() && Current() && Continues(env, In(), a, Now())
      ensures ok ==> Now() == old(Now())
      ensures !ok ==> Now() == Returned(old(Now()), i, x) && FailedSince(|a.log|, log, x)
      ensures !ok ==> running != [] && running[if i < |running| then i else |running| - 1] == x
      ensures log[|a.log|] == Stopping(x, RemoveAt(a.running, i))
      ensures ok <==> StopReturns(env, before, x, |a.log| + 1, if ok then log else log[..|log| - 1])
      ensures ok <==> Untroubled(|a.log|, log)
      ensures Smooth(env, a.log, log)
      ensures Kept(env, before, a.running, launchers, running)
      ensures Registers(before, |a.log|, launchers, log)
      ensures old(StartedSince(|a.log| + 1, log, x)) ==> StartedSince(|a.log|, log, x)
      ensures old(LockStartedSince(|a.log| + 1, log)) ==> LockStartedSince(|a.log|, log)
    {
      hide Continues, InOrder, LaunchersRegistered, BaseSet, WantedSet, NonChildren, Ordered, FailedSince, Untroubled,
        Kept, Registers, Fixed, StartedSince, LockStartedSince, Smooth, StopReturns;
      ghost var c := log;
      StopKept(env, before, a.running, i, launchers, running);
      RegistersAfterStop(before, a.log, Leaving(a, i).log, launchers, log, x);
      StoppedSmoothly(env, before, a, i, log, ok);
      assert c[|a.log|] == Leaving(a, i).log[|a.log|];
      if ok {
        ContinuesTransitive(env, In(), a, Leaving(a, i), Now());
      } else {
        ReturnModule(i, x, a);
        TroubleMeans(|a.log|, log, x);
        assert log[..|log| - 1] == c;
      }
    }

    /** What failed to stop goes back to its place: it may well have effects left. */
    method ReturnModule(i: nat, x: Spec, ghost a: View)
      requires Valid() && Current() && i < |a.running| && a.running[i] == x
      requires Continues(env, In(), a, Leaving(a, i)) && Continues(env, In(), Leaving(a, i), Now())
      modifies `running, `log
      ensures Valid() && Current() && Continues(env, In(), a, Now())
      ensures Now() == Returned(old(Now()), i, x) && FailedSince(|a.log|, log, x)
      ensures running != [] && running[if i < |running| then i else |running| - 1] == x
    {
      hide Continues, InOrder, LaunchersRegistered, BaseSet, WantedSet, NonChildren, Ordered, FailedSince;
      PutBack(env, In(), a, i, Now());
      FailureRecorded(env, launchers, running, i, x, log);
      InsertAtPosition(running, i, x);
      running := InsertAt(running, i, x);
      log := log + [StopFailed(x)];
    }

    // ---- Starting one module ----

    /** start() of a module that calls back: its own bookkeeping, then update(). */
    method StartHook(w: Spec) returns (ok: bool)
      requires env.WellFormed() && env.Reenters(w) && InOrder(env, running, log) && Current() && !shuttingDown
      requires LaunchersRegistered(env, WithSelector(env, launchers, w), running, log)
      modifies `running, `wanted, `launchers, `locked, `log
      ensures Valid() && Current() && Continues(env, In(), Entered(old(Now()), w), Now())
      ensures ok <==> StartReturns(env, w, |old(log)|, log)
      ensures ok ==> Fresh() && Elems(running) == Elems(wanted)
      ensures env.classes(w.name).Session? && !env.startWorks(w, |old(log)|) ==>
        Now() == old(Now()) && wanted == old(wanted) && launchers == old(launchers)
      ensures Smooth(env, old(log), log)
      ensures env.AlwaysStarts(w) && (w == LOCK ==> old(locked)) ==>
        old(Growing(env, In(), WithSelector(env, launchers, w), running, locked)) ==>
          ok && ToGrow() && Grown(old(Now()), Now()) && WithSelector(env, old(launchers), w) <= launchers
      ensures Kept(env, WithSelector(env, old(launchers), w), old(running), launchers, running)
      ensures Registers(WithSelector(env, old(launchers), w), |old(log)|, launchers, log)
      decreases Left().flips, Left().surplus, Left().missing, 6
    {
      hide Continues, InOrder, LaunchersRegistered, BaseSet, NonChildren, WantedSet, Ordered, BaseGap,
        Growing, Grown, Untroubled, FailedSince, RaisedSince;
      ghost var inp, a := In(), Now();
      LockingAtMost(env, inp, a, w);
      ContinuesReflexive(env, inp, Entered(a, w));
      match env.KindOf(w) {
        case LockKind =>
          locked := true;
        case Ordinary(Launcher(_, _)) =>
          launchers := launchers + {w};
        case Ordinary(Session) =>
          if !env.startWorks(w, |log|) {      // opening the session's own resources
            NothingLogged(|log|, log);
            return false;
          }
      }
      assert Now() == Entered(a, w);
      assert launchers == WithSelector(env, old(launchers), w);
      var r := Update();
      ok := r.Synchronized?;
    }

    /** start() of any module. */
    method CallStart(w: Spec) returns (ok: bool)
      requires env.WellFormed() && InOrder(env, running, log) && Current() && !shuttingDown
      requires LaunchersRegistered(env, WithSelector(env, launchers, w), running, log)
      modifies `running, `wanted, `launchers, `locked, `log
      ensures Valid() && Current() && Continues(env, In(), Entered(old(Now()), w), Now())
      ensures ok <==> StartReturns(env, w, |old(log)|, log)
      ensures Smooth(env, old(log), log)
      ensures Kept(env, WithSelector(env, old(launchers), w), old(running), launchers, running)
      ensures Registers(WithSelector(env, old(launchers), w), |old(log)|, launchers, log)
      ensures env.Reenters(w) && ok ==> Fresh() && Elems(running) == Elems(wanted)
      ensures env.AlwaysStarts(w) && (w == LOCK ==> old(locked)) ==>
        old(Growing(env, In(), WithSelector(env, launchers, w), running, locked)) ==>
          ok && ToGrow() && Grown(old(Now()), Now()) && WithSelector(env, old(launchers), w) <= launchers
      ensures !env.Reenters(w) ==> Now() == old(Now()) && wanted == old(wanted) && launchers == old(launchers)
      decreases Left().flips, Left().surplus, Left().missing, if env.Reenters(w) then 7 else 0
    {
      hide Continues, InOrder, BaseSet, NonChildren, WantedSet, Ordered, BaseGap, Growing, Grown, Kept, Registers,
        Untroubled;
      if env.Reenters(w) {
        ok := StartHook(w);
      } else {
        ok := env.startWorks(w, |log|);
        NothingLogged(|log|, log);
        GrownReflexive(Now());
        ContinuesReflexive(env, In(), Now());
        NothingHandled(env, launchers, running, log);
      }
    }

    /** Step 3 of do_one_module, for the module it finds. */
    method StartModule(k: nat) returns (ok: bool)
      requires Valid() && Current()
      requires k < |wanted| && wanted[k] !in running
      requires forall j :: 0 <= j < k ==> wanted[j] in running
      modifies `running, `wanted, `launchers, `locked, `log
      ensures Valid() && Current() && Continues(env, In(), old(Now()), Now())
      ensures |log| > |old(log)| && log[|old(log)|] == Starting(old(wanted[k]), old(running))
      ensures ok <==> StartReturns(env, old(wanted[k]), |old(log)| + 1, if ok then log else log[..|log| - 1])
      ensures ok <==> Untroubled(|old(log)|, log)
      ensures Smooth(env, old(log), log)
      ensures ok && old(Fresh()) ==> Fresh()
      ensures ok && !env.IsChild(old(wanted[k])) ==> Less(Left(), old(Left()))
      ensures ok && old(wanted[k]) in wanted && old(wanted[k]) in running ==> running[|running| - 1] == old(wanted[k])
      ensures !ok ==> RaisedSince(|old(log)|, log) && log[|log| - 1] == StartFailed(old(wanted[k]))
      ensures old(wanted[k]) == LOCK ==> locked
      ensures !env.Reenters(old(wanted[k])) ==>
        && wanted == old(wanted) && locked == old(locked) && launchers == old(launchers)
        && running == old(running) + [old(wanted[k])]
        && |log| == |old(log)| + if ok then 1 else 2
      ensures ok && env.Reenters(old(wanted[k])) ==> Elems(running) == Elems(wanted)
      ensures old(ToGrow() && Fresh()) ==>
        ok && ToGrow() && Grown(old(Now()), Now()) && old(launchers) <= launchers
      ensures Kept(env, old(launchers), old(running), launchers, running)
      ensures Registers(old(launchers), |old(log)|, launchers, log)
      decreases Left().flips, Left().surplus, Left().missing, 1
    {
      hide Continues, InOrder, LaunchersRegistered, BaseGap, BaseSet, WantedSet, NonChildren, Ordered,
        LockStartedSince, RaisedSince, Untroubled, Smooth, StartReturns,
        Kept, Registers, StartedSince, Growing, Grown;
      var w := wanted[k];
      ghost var inp, a := In(), Now();
      ghost var b' := Entered(Joining(a, w), w);
      JoinList(k);
      ok := CallStart(w);
      if !env.IsChild(w) {
        ContinuesLess(env, inp, a, b', Now());
      }
      StaysLocked(env, inp, b', Now());
      ContinuesAtMost(env, inp, b', Now());
      SettleStart(ok, w, a, old(launchers));
    }

    /** A module is on the list before its start hook is called. */
    method JoinList(k: nat)
      requires Valid() && Current()
      requires k < |wanted| && wanted[k] !in running
      requires forall j :: 0 <= j < k ==> wanted[j] in running
      modifies `running, `log
      ensures Now() == Joining(old(Now()), wanted[k])
      ensures Current() && !shuttingDown && InOrder(env, running, log)
      ensures LaunchersRegistered(env, WithSelector(env, launchers, wanted[k]), running, log)
      ensures Continues(env, In(), old(Now()), Entered(Now(), wanted[k]))
      ensures AtMost(Left(), old(Left())) && (!env.IsChild(wanted[k]) ==> Less(Left(), old(Left())))
      ensures !env.IsChild(wanted[k]) ==>
        Less(BaseGap(env, In(), running, Entered(Now(), wanted[k]).locked), old(Left()))
      ensures !env.Reenters(wanted[k]) && old(Fresh()) ==> Fresh()
      ensures old(ToGrow() && Fresh()) ==>
        && env.AlwaysStarts(wanted[k]) && (wanted[k] == LOCK ==> locked)
        && Growing(env, In(), WithSelector(env, launchers, wanted[k]), running, locked)
    {
      hide Continues, InOrder, LaunchersRegistered, BaseGap, BaseSet, WantedSet, NonChildren, Ordered, Growing;
      var w := wanted[k];
      ghost var inp, a := In(), Now();
      ghost var b := Joining(a, w);
      PutIn(env, inp, launchers, a, wanted, k);
      EnteredContinues(env, inp, a, w);
      WantedSetByPlain(env, inp, launchers, b.running, running, locked, w);
      GrowingNext(env, inp, launchers, a, wanted, w);
      ContinuesAtMost(env, inp, a, b);
      log := log + [Starting(w, running)];
      running := running + [w];
      assert Now() == b && In() == inp;
      assert Left() == BaseGap(env, inp, b.running, b.locked);
    }

    /** Once start() has returned or raised. */
    method SettleStart(ok: bool, w: Spec, ghost a: View, ghost before: set<Spec>)
      requires Valid() && Current() && !shuttingDown && w !in a.running
      requires Continues(env, In(), a, Entered(Joining(a, w), w)) &&
        Continues(env, In(), Entered(Joining(a, w), w), Now())
      requires env.Reenters(w) || running == a.running + [w]
      requires Kept(env, WithSelector(env, before, w), a.running + [w], launchers, running)
      requires Registers(WithSelector(env, before, w), |a.log| + 1, launchers, log)
      requires Joining(a, w).log <= log && Smooth(env, Joining(a, w).log, log)
      requires ok <==> StartReturns(env, w, |a.log| + 1, log)
      modifies `running, `log
      ensures Valid() && Current() && Continues(env, In(), a, Now())
      ensures Left() == old(Left()) && (ok && old(Fresh()) ==> Fresh())
      ensures running == if ok && w in wanted && w in old(running) then RemoveFirst(old(running), w) + [w]
        else old(running)
      ensures !env.Reenters(w) ==> running == a.running + [w]
      ensures ok ==> Elems(running) == Elems(old(running))
      ensures log == if ok then old(log) else old(log) + [StartFailed(w)]
      ensures !ok ==> RaisedSince(|a.log|, log)
      ensures log[|a.log|] == Starting(w, a.running)
      ensures ok <==> StartReturns(env, w, |a.log| + 1, if ok then log else log[..|log| - 1])
      ensures ok <==> Untroubled(|a.log|, log)
      ensures Smooth(env, a.log, log)
      ensures old(ToGrow()) && Grown(Joining(a, w), old(Now())) && ok ==> ToGrow() && Grown(a, Now())
      ensures Kept(env, before, a.running, launchers, running)
      ensures Registers(before, |a.log|, launchers, log)
    {
      hide Continues, InOrder, LaunchersRegistered, BaseGap, BaseSet, WantedSet, NonChildren, Ordered, RaisedSince,
        Kept, Registers, StartedSince, Untroubled, Smooth, StartReturns, Growing, Grown;
      ghost var b, c := Entered(Joining(a, w), w), Now();
      assert log[|a.log|] == Joining(a, w).log[|a.log|];
      StartedSmoothly(env, a, w, log, ok);
      ContinuesTransitive(env, In(), a, b, c);
      ContinuesAtMost(env, In(), b, c);
      StartKept(env, before, a.running, w, launchers, running);
      RegistersAfterStart(env, before, a, w, launchers, log);
      RemoveAppended(a.running, w);
      if ok && w in wanted && w in running {
        MoveToEnd(w, a);
      } else if !ok {
        NoteFailedStart(w, a);
        TroubleMeans(|a.log|, log, w);
        assert log[..|log| - 1] == c.log;
      }
      if old(ToGrow()) && Grown(Joining(a, w), c) && ok {
        GrowingSettled(env, In(), launchers, c, Now());
        GrownSettled(a, w, c, Now());
      }
    }

    /** A module just started goes to the end of the list, and so is the first to be stopped: what its
        start has brought in stands before it. */
    method MoveToEnd(w: Spec, ghost a: View)
      requires Valid() && Current() && w in running && Continues(env, In(), a, Now())
      requires env.Reenters(w) || RemoveFirst(running, w) + [w] == running
      modifies `running
      ensures Valid() && Current() && Continues(env, In(), a, Now())
      ensures running == RemoveFirst(old(running), w) + [w]
      ensures Elems(running) == Elems(old(running))
      ensures Left() == old(Left()) && (old(Fresh()) ==> Fresh())
    {
      hide Continues, InOrder, LaunchersRegistered, BaseGap, BaseSet, WantedSet, NonChildren, Ordered;
      ghost var c := Now();
      MovedMembers(c, w);
      MovedToEnd(env, In(), launchers, c, w);
      running := RemoveFirst(running, w) + [w];
      assert Now() == Moved(c, w);
      assert forall x :: x in Elems(running) <==> x in Elems(c.running);
      ContinuesTransitive(env, In(), a, c, Now());
    }

    method NoteFailedStart(w: Spec, ghost a: View)
      requires Valid() && Current() && !shuttingDown && Continues(env, In(), a, Now())
      modifies `log
      ensures Valid() && Current() && Continues(env, In(), a, Now())
      ensures RaisedSince(|a.log|, log) && log == old(log) + [StartFailed(w)]
    {
      hide Continues, InOrder, LaunchersRegistered, BaseSet, WantedSet, NonChildren, Ordered, RaisedSince;
      ghost var c := Now();
      Noted(env, In(), launchers, c, StartFailed(w));
      RaiseNoted(env, In(), a, c, StartFailed(w));
      log := log + [StartFailed(w)];
      assert Now() == Note(c, StartFailed(w));
      ContinuesTransitive(env, In(), a, c, Now());
    }
  }

  /** Whenever an update is not under way, the list over-approximates what is in force: a module that
      was started, however that went, and not successfully stopped since, is on it. */
  lemma StartedStaysListed(d: Daemon, s: Spec, k: nat)
    requires d.Valid() && InForceSince(d.log, s, k)
    ensures s in d.running
  {
    InForceCounted(d.log, s, k);
    assert s in multiset(d.running);
  }

  // ---- Entries that only take note ----

  ghost function Note(a: View, e: Event): View {
    a.(log := a.log + [e])
  }

  lemma Noted(env: Setting, inp: Inputs, launchers: set<Spec>, a: View, e: Event)
    requires env.Acyclic() && !inp.shuttingDown && (e.StartFailed? || e.ReconfigureFailed?)
    requires InOrder(env, a.running, a.log) && LaunchersRegistered(env, launchers, a.running, a.log)
    ensures Continues(env, inp, a, Note(a, e))
    ensures InOrder(env, a.running, Note(a, e).log) && LaunchersRegistered(env, launchers, a.running, Note(a, e).log)
  {
    NoteContinues(env, inp, a, e);
    hide Continues;
    assert forall f :: f in a.log ==> f in Note(a, e).log;
    TallyAppend(a.log, e);
    hide Tally, FreshStarts, Ordered, EventSafe;
  }

  lemma NoteContinues(env: Setting, inp: Inputs, a: View, e: Event)
    requires env.Acyclic() && !inp.shuttingDown && (e.StartFailed? || e.ReconfigureFailed?)
    ensures Continues(env, inp, a, Note(a, e))
  {
    hide BaseSet, BaseGap;
    ContinuesReflexive(env, inp, a);
  }

  lemma RaiseNoted(env: Setting, inp: Inputs, a: View, c: View, e: Event)
    requires env.Acyclic() && (e.StartFailed? || e.ReconfigureFailed?) && Continues(env, inp, a, c)
    ensures RaisedSince(|a.log|, Note(c, e).log)
  {
    assert Note(c, e).log[|c.log|] == e;
  }

  // ---- Reconfiguring ----

  ghost function Swap(a: View, i: nat, w: Spec): View
    requires i < |a.running|
  {
    View(a.running[i := w], a.locked, a.log + [Reconfigured(a.running[i], w)])
  }

  /** Only plain and per-session modules are reconfigured, within their class. */
  lemma SameClass(env: Setting, r: Spec, w: Spec)
    requires env.WellFormed() && env.reconfigurable(w.name) && r.name == w.name
    ensures env.IsChild(r) == env.IsChild(w)
    ensures !env.Reenters(r) && !env.Reenters(w)
    ensures !env.IsLauncher(r) && !env.IsLauncher(w) && !env.classes(r.name).Session?
  {
  }

  /** Core modules are wanted until the daemon is shutting down. */
  lemma CoreWanted(env: Setting, inp: Inputs, locked: bool)
    requires env.Acyclic()
    ensures !inp.shuttingDown ==> forall x :: x in env.core && !env.IsChild(x) ==> x in BaseSet(env, inp, locked)
  {
    forall x | x in env.core && !env.IsChild(x) && !inp.shuttingDown ensures x in BaseSet(env, inp, locked) {
      assert x in Expand(env, x);
      ExpandAllMember(env, BaseSelected(env, inp, locked), x);
    }
  }

  lemma SwapContinues(env: Setting, inp: Inputs, a: View, i: nat, w: Spec)
    requires env.Acyclic() && i < |a.running| && a.running[i] !in BaseSet(env, inp, a.locked) && !inp.shuttingDown
    requires env.IsChild(w) == env.IsChild(a.running[i]) && (!env.IsChild(w) ==> w in BaseSet(env, inp, a.locked))
    ensures Continues(env, inp, a, Swap(a, i, w))
    ensures !env.IsChild(w) ==>
      Less(BaseGap(env, inp, Swap(a, i, w).running, a.locked), BaseGap(env, inp, a.running, a.locked))
  {
    CoreWanted(env, inp, a.locked);
    GapReplace(env, inp, a.running, i, w, a.locked);
  }

  lemma SwapInOrder(env: Setting, a: View, i: nat, w: Spec)
    requires InOrder(env, a.running, a.log) && i < |a.running| && w !in a.running
    requires env.reconfigurable(w.name) && a.running[i].name == w.name
    ensures InOrder(env, Swap(a, i, w).running, Swap(a, i, w).log)
  {
    var b := Swap(a, i, w);
    assert forall e :: e in a.log ==> e in b.log;
    TallyAppend(a.log, Reconfigured(a.running[i], w));
    ReplaceCounts(a.running, i, w);
    if NoStopFailed(b.log) {
      ReplaceDistinct(a.running, i, w);
      if env.LeavesReconfigureAndReenter() {
        OrderedReplace(env, a.running, i, w);
      }
    }
  }

  lemma SwapMembers(env: Setting, launchers: set<Spec>, a: View, i: nat, w: Spec)
    requires LaunchersRegistered(env, launchers, a.running, a.log) && i < |a.running|
    requires !env.IsLauncher(w) && !env.IsLauncher(a.running[i])
    requires !env.classes(w.name).Session? && !env.classes(a.running[i].name).Session?
    ensures LaunchersRegistered(env, launchers, Swap(a, i, w).running, Swap(a, i, w).log)
    ensures SameSessions(env, a.running, Swap(a, i, w).running)
  {
    var b := Swap(a, i, w);
    assert forall e :: e in a.log ==> e in b.log;
    ReplaceMembers(a.running, i, w);
  }

  lemma SwapKept(env: Setting, launchers: set<Spec>, running: seq<Spec>, i: nat, w: Spec)
    requires env.WellFormed() && i < |running| && env.reconfigurable(w.name) && running[i].name == w.name
    ensures Kept(env, launchers, running, launchers, running[i := w])
  {
    SameClass(env, running[i], w);
    ReplaceMembers(running, i, w);
  }

  lemma Swapped(env: Setting, inp: Inputs, launchers: set<Spec>, a: View, wanted: seq<Spec>, i: nat, k: nat)
    requires env.WellFormed() && i < |a.running| && k < |wanted|
    requires LaunchersRegistered(env, launchers, a.running, a.log) && InOrder(env, a.running, a.log)
    requires NonChildren(env, wanted) == BaseSet(env, inp, a.locked) && !inp.shuttingDown
    requires Replaceable(a.running, wanted, i, wanted[k]) && env.reconfigurable(wanted[k].name)
    ensures var b := Swap(a, i, wanted[k]);
            && Continues(env, inp, a, b)
            && InOrder(env, b.running, b.log)
            && LaunchersRegistered(env, launchers, b.running, b.log)
            && WantedSet(env, inp, launchers, b.running, b.locked) ==
              WantedSet(env, inp, launchers, a.running, a.locked)
            && (!env.IsChild(wanted[k]) ==>
              Less(BaseGap(env, inp, b.running, b.locked), BaseGap(env, inp, a.running, a.locked)))
  {
    hide BaseGap, InOrder, LaunchersRegistered, Continues, WantedSet, SameSessions;
    var w := wanted[k];
    SameClass(env, a.running[i], w);
    assert a.running[i] !in NonChildren(env, wanted) && (!env.IsChild(w) ==> w in NonChildren(env, wanted));
    SwapContinues(env, inp, a, i, w);
    SwapInOrder(env, a, i, w);
    SwapMembers(env, launchers, a, i, w);
    WantedSetBySessions(env, inp, launchers, a.running, Swap(a, i, w).running, a.locked);
  }

  // ---- Every operation leaves less work ----

  lemma ContinuesAtMost(env: Setting, inp: Inputs, a: View, b: View)
    requires env.Acyclic() && Continues(env, inp, a, b)
    ensures AtMost(BaseGap(env, inp, b.running, b.locked), BaseGap(env, inp, a.running, a.locked))
    ensures a.log <= b.log
  {
  }

  lemma FailuresKept(env: Setting, inp: Inputs, a: View, b: View, n: nat, errors: seq<Spec>)
    requires env.Acyclic() && Continues(env, inp, a, b)
    requires n <= |a.log| && forall x :: x in errors ==> FailedSince(n, a.log, x)
    ensures forall x :: x in errors ==> FailedSince(n, b.log, x)
    ensures forall x :: FailedSince(|a.log|, b.log, x) ==> FailedSince(n, b.log, x)
    ensures RaisedSince(|a.log|, b.log) ==> RaisedSince(n, b.log)
  {
    forall x | x in errors ensures FailedSince(n, b.log, x) {
      var k :| n <= k < |a.log| && a.log[k] == StopFailed(x);
      assert b.log[k] == StopFailed(x);
    }
  }

  lemma ReconfigureLessWork(env: Setting, inp: Inputs, a: View, b: View, wanted: seq<Spec>, errors: seq<Spec>,
      i: nat, w: Spec)
    requires env.WellFormed() && Continues(env, inp, a, b) && i < |a.running| && b.running == a.running[i := w]
    requires b.locked == a.locked
    requires NonChildren(env, wanted) == BaseSet(env, inp, a.locked) && w in wanted
    requires Replaceable(a.running, wanted, i, w) && env.reconfigurable(w.name)
    ensures LessWork(WorkLeft(env, inp, b.running, b.locked, wanted, errors),
      WorkLeft(env, inp, a.running, a.locked, wanted, errors))
  {
    SameClass(env, a.running[i], w);
    ContinuesAtMost(env, inp, a, b);
    if env.IsChild(w) {
      ChildSurplusReplace(env, a.running, i, w, Elems(wanted));
      ChildStepLessWork(env, inp, a.running, b.running, a.locked, wanted, errors);
    } else {
      assert w in NonChildren(env, wanted) && a.running[i] !in NonChildren(env, wanted);
      GapReplace(env, inp, a.running, i, w, a.locked);
    }
  }

  lemma StopLessWork(env: Setting, inp: Inputs, a: View, wanted: seq<Spec>, b: View, wanted': seq<Spec>,
      errors: seq<Spec>, i: nat)
    requires env.Acyclic() && Continues(env, inp, a, b) && i < |a.running| && Stoppable(a.running[i], wanted, errors)
    requires !env.IsChild(a.running[i]) ==>
      Less(BaseGap(env, inp, b.running, b.locked), BaseGap(env, inp, a.running, a.locked))
    requires env.IsChild(a.running[i]) ==>
      wanted' == wanted && b.locked == a.locked && b.running == RemoveAt(a.running, i)
    ensures LessWork(WorkLeft(env, inp, b.running, b.locked, wanted', errors),
      WorkLeft(env, inp, a.running, a.locked, wanted, errors))
  {
    if env.IsChild(a.running[i]) {
      ContinuesAtMost(env, inp, a, b);
      ChildSurplusRemove(env, a.running, i, Elems(wanted));
      ChildStepLessWork(env, inp, a.running, b.running, a.locked, wanted, errors);
    }
  }

  lemma FailedStopLessWork(env: Setting, inp: Inputs, a: View, wanted: seq<Spec>, b: View, wanted': seq<Spec>,
      errors: seq<Spec>, i: nat)
    requires env.Acyclic() && Continues(env, inp, a, b) && i < |a.running| && Stoppable(a.running[i], wanted, errors)
    requires NonChildren(env, wanted) == BaseSet(env, inp, a.locked)
    requires env.IsChild(a.running[i]) ==> wanted' == wanted && b.locked == a.locked && b.running == a.running
    ensures LessWork(WorkLeft(env, inp, b.running, b.locked, wanted', errors + [a.running[i]]),
                     WorkLeft(env, inp, a.running, a.locked, wanted, errors))
  {
    var x := a.running[i];
    ContinuesAtMost(env, inp, a, b);
    if env.IsChild(x) {
      ChildFailureLessWork(env, inp, a.running, a.locked, wanted, errors, x);
    } else {
      assert x !in NonChildren(env, wanted);
      StopFailureLessWork(env, inp, a.running, a.locked, wanted, errors, b.running, b.locked, wanted', x);
    }
  }

  lemma StartLessWork(env: Setting, inp: Inputs, a: View, wanted: seq<Spec>, b: View, wanted': seq<Spec>,
      errors: seq<Spec>, k: nat)
    requires env.Acyclic() && Continues(env, inp, a, b) && k < |wanted| && wanted[k] !in a.running
    requires !env.IsChild(wanted[k]) ==>
      Less(BaseGap(env, inp, b.running, b.locked), BaseGap(env, inp, a.running, a.locked))
    requires env.IsChild(wanted[k]) ==>
      wanted' == wanted && b.locked == a.locked && b.running == a.running + [wanted[k]]
    ensures LessWork(WorkLeft(env, inp, b.running, b.locked, wanted', errors),
      WorkLeft(env, inp, a.running, a.locked, wanted, errors))
  {
    if env.IsChild(wanted[k]) {
      ContinuesAtMost(env, inp, a, b);
      ChildSurplusAppend(env, a.running, wanted[k], Elems(wanted));
      ChildMissingAppend(env, a.running, wanted[k], wanted);
      ChildStepLessWork(env, inp, a.running, b.running, a.locked, wanted, errors);
    }
  }

  // ---- Starting ----

  /** The registered launchers, once w has registered its selector if it has one. */
  function WithSelector(env: Setting, launchers: set<Spec>, w: Spec): set<Spec> {
    if env.IsLauncher(w) then launchers + {w} else launchers
  }

  /** The view in which a module has joined the list and its start hook is about to be called. */
  ghost function Joining(a: View, w: Spec): View {
    View(a.running + [w], a.locked, a.log + [Starting(w, a.running)])
  }

  lemma JoiningContinues(env: Setting, inp: Inputs, a: View, w: Spec)
    requires env.Acyclic() && w !in a.running && !inp.shuttingDown
    requires !env.IsChild(w) ==> w in BaseSet(env, inp, a.locked)
    ensures var b := Joining(a, w);
            && Continues(env, inp, a, b)
            && (!env.IsChild(w) ==> Less(BaseGap(env, inp, b.running, b.locked),
              BaseGap(env, inp, a.running, a.locked)))
  {
    GapAppend(env, inp, a.running, w, a.locked);
    StartLogged(env, inp, a, w);
    hide BaseGap, BaseSet, StartsWanted;
  }

  lemma StartLogged(env: Setting, inp: Inputs, a: View, w: Spec)
    requires env.Acyclic() && (!env.IsChild(w) ==> w in BaseSet(env, inp, a.locked))
    ensures StartsWanted(env, inp, |a.log|, Joining(a, w).log)
  {
    hide BaseSet;
  }

  /** Starting works without trouble exactly if start() returns. */
  lemma StartedSmoothly(env: Setting, a: View, w: Spec, log: seq<Event>, ok: bool)
    requires Joining(a, w).log <= log && Smooth(env, Joining(a, w).log, log)
    requires ok <==> StartReturns(env, w, |a.log| + 1, log)
    ensures ok ==> Untroubled(|a.log|, log)
    ensures Smooth(env, a.log, if ok then log else log + [StartFailed(w)])
  {
    var b := Joining(a, w).log;
    NothingLogged(|a.log|, a.log);
    UntroubledAppend(|a.log|, a.log, Starting(w, a.running));
    UntroubledOn(|a.log|, b, log);
    if env.AllWorks() && NoStopFailed(a.log) {
      StaysClean(a.log, b);
    }
    hide Untroubled;
  }

  /** Stopping works without trouble exactly if stop() returns. */
  lemma StoppedSmoothly(env: Setting, launchers: set<Spec>, a: View, i: nat, log: seq<Event>, ok: bool)
    requires i < |a.running| && LaunchersRegistered(env, launchers, a.running, a.log)
    requires Leaving(a, i).log <= log && Smooth(env, Leaving(a, i).log, log)
    requires ok <==> StopReturns(env, launchers, a.running[i], |a.log| + 1, log)
    ensures ok ==> Untroubled(|a.log|, log)
    ensures Smooth(env, a.log, if ok then log else log + [StopFailed(a.running[i])])
  {
    var b := Leaving(a, i).log;
    NothingLogged(|a.log|, a.log);
    UntroubledAppend(|a.log|, a.log, Stopping(a.running[i], RemoveAt(a.running, i)));
    UntroubledOn(|a.log|, b, log);
    if env.AllWorks() && NoStopFailed(a.log) {
      StaysClean(a.log, b);
    }
    hide Untroubled;
  }

  lemma StopKeepsFixed(env: Setting, launchers: set<Spec>, x: Spec, n: nat, log: seq<Event>, ok: bool,
      launchers': set<Spec>)
    requires ok ==> StopReturns(env, launchers, x, n, log)
    requires env.IsLauncher(x) && x !in launchers ==> launchers' == launchers
    ensures Fixed(env, launchers, x) ==> !ok && Fixed(env, launchers', x)
  {
  }

  /** What a daemon that has only to grow starts next does start, and leaves the rest to grow. */
  lemma GrowingNext(env: Setting, inp: Inputs, launchers: set<Spec>, a: View, wanted: seq<Spec>, w: Spec)
    requires env.WellFormed() && w in wanted && w !in a.running
    ensures Growing(env, inp, launchers, a.running, a.locked) ==>
      Elems(wanted) == WantedSet(env, inp, launchers, a.running, a.locked) ==>
        && env.AlwaysStarts(w) && (w == LOCK ==> a.locked)
        && Growing(env, inp, WithSelector(env, launchers, w), a.running + [w], a.locked)
  {
    hide Growing, WantedSet, BaseSet;
    if Growing(env, inp, launchers, a.running, a.locked)
      && Elems(wanted) == WantedSet(env, inp, launchers, a.running, a.locked) {
      GrowingMeans(env, inp, launchers, a.running, a.locked, wanted);
      assert w in Elems(wanted);
      GrowingJoined(env, inp, launchers, a.running, a.locked, w);
    }
  }

  lemma GrowingSettled(env: Setting, inp: Inputs, launchers: set<Spec>, c: View, d: View)
    requires env.WellFormed() && Growing(env, inp, launchers, c.running, c.locked)
    requires d.locked == c.locked && Elems(d.running) == Elems(c.running)
    ensures Growing(env, inp, launchers, d.running, d.locked)
  {
    SameMembers(d.running, c.running);
    WantedSetBySessions(env, inp, launchers, c.running, d.running, c.locked);
    hide BaseSet, WantedSet, Setting.AlwaysStarts;
  }

  lemma GrownSettled(a: View, w: Spec, c: View, d: View)
    requires Grown(Joining(a, w), c)
    requires d.log == c.log && d.locked == c.locked && Elems(d.running) == Elems(c.running)
    ensures Grown(a, d)
  {
    assert d.log[|a.log|] == Joining(a, w).log[|a.log|];
    assert Elems(a.running + [w]) == Elems(a.running) + {w};
  }

  lemma StartKept(env: Setting, l: set<Spec>, r: seq<Spec>, w: Spec, l': set<Spec>, r': seq<Spec>)
    requires w !in r && Kept(env, WithSelector(env, l, w), r + [w], l', r')
    ensures Kept(env, l, r, l', r')
    ensures w in r' ==> Kept(env, l, r, l', RemoveFirst(r', w) + [w])
  {
    if w in r' {
      MovedCounts(r', w);
      assert forall y :: y in r' <==> y in multiset(r');
      assert forall y :: y in RemoveFirst(r', w) + [w] <==> y in multiset(RemoveFirst(r', w) + [w]);
    }
  }

  lemma RegistersAfterStart(env: Setting, l: set<Spec>, a: View, w: Spec, l': set<Spec>, log': seq<Event>)
    requires Joining(a, w).log <= log' && Registers(WithSelector(env, l, w), |a.log| + 1, l', log')
    ensures Registers(l, |a.log|, l', log') && Registers(l, |a.log|, l', log' + [StartFailed(w)])
  {
    assert log'[|a.log|] == Joining(a, w).log[|a.log|] == Starting(w, a.running);
    assert StartedSince(|a.log|, log', w);
    forall y | y in l' && y !in l
      ensures StartedSince(|a.log|, log', y) && StartedSince(|a.log|, log' + [StartFailed(w)], y)
    {
      if y != w {
        StartedKept(|a.log|, |a.log| + 1, log', log', y);
      }
      StartedKept(|a.log|, |a.log|, log', log' + [StartFailed(w)], y);
    }
  }

  lemma EnteredContinues(env: Setting, inp: Inputs, a: View, w: Spec)
    requires env.Acyclic() && !inp.shuttingDown && Continues(env, inp, a, Joining(a, w))
    requires !env.IsChild(w) ==>
      Less(BaseGap(env, inp, Joining(a, w).running, a.locked), BaseGap(env, inp, a.running, a.locked))
    ensures var b := Entered(Joining(a, w), w);
            && Continues(env, inp, a, b)
            && (!env.IsChild(w) ==> Less(BaseGap(env, inp, b.running, b.locked),
              BaseGap(env, inp, a.running, a.locked)))
  {
    hide CoreSpared, StartsWanted, OnlyStopsSince, BaseSet;
    var b := Joining(a, w);
    assert b.log[|a.log|] == Starting(w, a.running);
    LockingAtMost(env, inp, b, w);
  }

  lemma JoiningInOrder(env: Setting, a: View, wanted: seq<Spec>, k: nat)
    requires env.Acyclic() && InOrder(env, a.running, a.log) && Ordered(env, wanted)
    requires k < |wanted| && wanted[k] !in a.running
    requires forall j :: 0 <= j < k ==> wanted[j] in a.running
    ensures InOrder(env, Joining(a, wanted[k]).running, Joining(a, wanted[k]).log)
  {
    var b := Joining(a, wanted[k]);
    assert forall e :: e in a.log ==> e in b.log;
    assert wanted[k] !in multiset(a.running);
    TallyAppend(a.log, Starting(wanted[k], a.running));
    if NoStopFailed(b.log) {
      AppendDistinct(a.running, wanted[k]);
      if env.LeavesReconfigureAndReenter() {
        FirstMissingReady(env, a.running, wanted, k);
        StartingSafe(env, a.running, wanted[k]);
      }
    }
  }

  lemma JoiningLaunchers(env: Setting, launchers: set<Spec>, a: View, w: Spec)
    requires LaunchersRegistered(env, launchers, a.running, a.log)
    ensures LaunchersRegistered(env, WithSelector(env, launchers, w), Joining(a, w).running, Joining(a, w).log)
  {
    assert forall e :: e in a.log ==> e in Joining(a, w).log;
  }

  /** A module about to be started joins the list of running modules before its hook is called. */
  lemma PutIn(env: Setting, inp: Inputs, launchers: set<Spec>, a: View, wanted: seq<Spec>, k: nat)
    requires env.WellFormed() && !inp.shuttingDown
    requires LaunchersRegistered(env, launchers, a.running, a.log) && InOrder(env, a.running, a.log)
    requires NonChildren(env, wanted) == BaseSet(env, inp, a.locked) && Ordered(env, wanted)
    requires k < |wanted| && wanted[k] !in a.running
    requires forall j :: 0 <= j < k ==> wanted[j] in a.running
    ensures var w, b := wanted[k], Joining(a, wanted[k]);
            && Continues(env, inp, a, b)
            && InOrder(env, b.running, b.log)
            && LaunchersRegistered(env, WithSelector(env, launchers, w), b.running, b.log)
            && (!env.IsChild(w) ==> Less(BaseGap(env, inp, b.running, b.locked),
              BaseGap(env, inp, a.running, a.locked)))
    ensures forall y :: y != wanted[k] ==> (y in Joining(a, wanted[k]).running <==> y in a.running)
  {
    assert !env.IsChild(wanted[k]) ==> wanted[k] in NonChildren(env, wanted);
    JoiningContinues(env, inp, a, wanted[k]);
    JoiningInOrder(env, a, wanted, k);
    JoiningLaunchers(env, launchers, a, wanted[k]);
  }

  lemma MovedInOrder(env: Setting, running: seq<Spec>, log: seq<Event>, w: Spec)
    requires env.Acyclic() && InOrder(env, running, log) && w in running
    requires env.Reenters(w)
    ensures InOrder(env, RemoveFirst(running, w) + [w], log)
  {
    MovedCounts(running, w);
    if NoStopFailed(log) {
      DistinctMoveToEnd(running, w);
      if env.LeavesReconfigureAndReenter() {
        OrderedMoveToEnd(env, running, w);
      }
    }
  }

  lemma MovedCounts(running: seq<Spec>, w: Spec)
    requires w in running
    ensures multiset(RemoveFirst(running, w) + [w]) == multiset(running)
  {
    RemoveFirstCounts(running, w);
    assert w in multiset(running);
  }

  ghost function Moved(c: View, w: Spec): View
    requires w in c.running
  {
    c.(running := RemoveFirst(c.running, w) + [w])
  }

  lemma MovedContinues(env: Setting, inp: Inputs, c: View, w: Spec)
    requires env.Acyclic() && w in c.running
    ensures Continues(env, inp, c, Moved(c, w))
    ensures BaseGap(env, inp, Moved(c, w).running, c.locked) == BaseGap(env, inp, c.running, c.locked)
  {
    MovedCounts(c.running, w);
    GapReorder(env, inp, Moved(c, w).running, c.running, c.locked);
  }

  lemma MovedMembers(c: View, w: Spec)
    requires w in c.running
    ensures forall x :: x in Moved(c, w).running <==> x in c.running
  {
    MovedCounts(c.running, w);
    ElemsReorder(Moved(c, w).running, c.running);
    SameMembers(Moved(c, w).running, c.running);
  }

  /** The module just started moves to the end of the list. */
  lemma MovedToEnd(env: Setting, inp: Inputs, launchers: set<Spec>, c: View, w: Spec)
    requires env.WellFormed() && InOrder(env, c.running, c.log) && w in c.running
    requires LaunchersRegistered(env, launchers, c.running, c.log)
    ensures var d := Moved(c, w);
            && Continues(env, inp, c, d)
            && BaseGap(env, inp, d.running, d.locked) == BaseGap(env, inp, c.running, c.locked)
            && (env.Reenters(w) ==> InOrder(env, d.running, d.log))
            && LaunchersRegistered(env, launchers, d.running, d.log)
            && WantedSet(env, inp, launchers, d.running, d.locked) ==
              WantedSet(env, inp, launchers, c.running, c.locked)
  {
    hide BaseGap, WantedSet, InOrder, Continues;
    MovedContinues(env, inp, c, w);
    MovedMembers(c, w);
    WantedSetBySessions(env, inp, launchers, Moved(c, w).running, c.running, c.locked);
    if env.Reenters(w) {
      MovedInOrder(env, c.running, c.log, w);
    }
  }

  lemma SameMembers(a: seq<Spec>, b: seq<Spec>)
    requires Elems(a) == Elems(b)
    ensures forall x :: x in a <==> x in b
  {
    forall x ensures x in a <==> x in b {
      assert x in Elems(a) <==> x in Elems(b);
    }
  }

  /** Only launchers have selectors to lose; and unless the daemon is shutting down, the lock module
      is stopped only when the state is unlocked already. */
  lemma StopsUnlocked(env: Setting, inp: Inputs, launchers: set<Spec>, a: View, wanted: seq<Spec>, x: Spec)
    requires env.WellFormed() && LaunchersRegistered(env, launchers, a.running, a.log)
    requires NonChildren(env, wanted) == BaseSet(env, inp, a.locked) && x !in wanted
    ensures x in launchers ==> env.IsLauncher(x)
    ensures !env.IsLauncher(x) ==> launchers - {x} == launchers
    ensures x == LOCK && !inp.shuttingDown ==> !a.locked
  {
    if a.locked && !inp.shuttingDown {
      LockedWantsLock(env, inp);
    }
  }

  lemma WantedSetByPlain(env: Setting, inp: Inputs, launchers: set<Spec>, a: seq<Spec>, b: seq<Spec>, locked: bool,
      x: Spec)
    requires env.WellFormed()
    requires forall y :: y != x ==> (y in a <==> y in b)
    ensures !env.Reenters(x) ==> WantedSet(env, inp, launchers, a, locked) == WantedSet(env, inp, launchers, b, locked)
  {
    if !env.Reenters(x) {
      WantedSetBySessions(env, inp, launchers, a, b, locked);
    }
  }

  lemma StopsNoCore(env: Setting, inp: Inputs, locked: bool, x: Spec, rest: seq<Spec>)
    requires env.Acyclic() && x !in BaseSet(env, inp, locked) && !inp.shuttingDown
    ensures !TakesCore(env, Stopping(x, rest))
  {
    CoreWanted(env, inp, locked);
    hide BaseSet;
  }

  lemma LeavingLogged(env: Setting, inp: Inputs, a: View, i: nat)
    requires env.Acyclic() && i < |a.running| && a.running[i] !in BaseSet(env, inp, a.locked)
    ensures var log := Leaving(a, i).log;
            && StartsWanted(env, inp, |a.log|, log) && OnlyStopsSince(|a.log|, log)
            && (!inp.shuttingDown ==> CoreSpared(env, |a.log|, log))
  {
    hide BaseSet, TakesCore;
    if !inp.shuttingDown {
      StopsNoCore(env, inp, a.locked, a.running[i], RemoveAt(a.running, i));
    }
  }

  lemma LeavingContinues(env: Setting, inp: Inputs, a: View, i: nat)
    requires env.Acyclic() && i < |a.running| && a.running[i] !in BaseSet(env, inp, a.locked)
    ensures var x, b := a.running[i], Leaving(a, i);
            && Continues(env, inp, a, b)
            && (!env.IsChild(x) ==> Less(BaseGap(env, inp, b.running, b.locked),
              BaseGap(env, inp, a.running, a.locked)))
  {
    GapRemove(env, inp, a.running, i, a.locked);
    RemoveAtCounts(a.running, i);
    LeavingLogged(env, inp, a, i);
    hide BaseSet, BaseGap, StartsWanted, CoreSpared, OnlyStopsSince;
  }

  lemma LeavingCounted(env: Setting, a: View, i: nat)
    requires i < |a.running| && InOrder(env, a.running, a.log)
    ensures multiset(Leaving(a, i).running) == Tally(Leaving(a, i).log) && FreshStarts(Leaving(a, i).log)
  {
    TallyAppend(a.log, Stopping(a.running[i], RemoveAt(a.running, i)));
    RemoveAtCounts(a.running, i);
  }

  lemma LeavingInOrder(env: Setting, a: View, wanted: seq<Spec>, i: nat, errors: seq<Spec>)
    requires env.Acyclic() && i < |a.running| && InOrder(env, a.running, a.log) && Ordered(env, wanted)
    requires Stoppable(a.running[i], wanted, errors)
    requires forall j :: i < j < |a.running| ==> !Stoppable(a.running[j], wanted, errors)
    requires forall e :: e in errors ==> FailedSince(0, a.log, e)
    ensures InOrder(env, Leaving(a, i).running, Leaving(a, i).log)
  {
    var x, b := a.running[i], Leaving(a, i);
    assert forall e :: e in a.log ==> e in b.log;
    LeavingCounted(env, a, i);
    assert |errors| > 0 ==> errors[0] in errors;
    hide Tally, FreshStarts;
    if NoStopFailed(b.log) {
      RemoveAtDistinct(a.running, i);
      assert x !in Elems(b.running);
      if env.LeavesReconfigureAndReenter() {
        LastUnwantedUnneeded(env, a.running, wanted, i);
        OrderedRemove(env, a.running, i);
        StoppingSafe(env, b.running, x);
      }
    }
  }

  lemma LeavingLaunchers(env: Setting, launchers: set<Spec>, a: View, i: nat)
    requires i < |a.running| && InOrder(env, a.running, a.log) && LaunchersRegistered(env, launchers, a.running, a.log)
    ensures LaunchersRegistered(env, launchers - {a.running[i]}, Leaving(a, i).running, Leaving(a, i).log)
  {
    var x, b := a.running[i], Leaving(a, i);
    RemoveAtMembers(a.running, i);
    assert forall e :: e in a.log ==> e in b.log;
    if NoStopFailed(b.log) {
      RemoveAtDistinct(a.running, i);
      assert x !in Elems(b.running);
    }
  }

  /** A module about to be stopped leaves the list of running modules before its hook is called. */
  lemma TakenOut(env: Setting, inp: Inputs, launchers: set<Spec>, a: View, wanted: seq<Spec>, i: nat, errors: seq<Spec>)
    requires env.WellFormed() && i < |a.running|
    requires LaunchersRegistered(env, launchers, a.running, a.log) && InOrder(env, a.running, a.log)
    requires NonChildren(env, wanted) == BaseSet(env, inp, a.locked) && Ordered(env, wanted)
    requires Stoppable(a.running[i], wanted, errors)
    requires forall j :: i < j < |a.running| ==> !Stoppable(a.running[j], wanted, errors)
    requires forall e :: e in errors ==> FailedSince(0, a.log, e)
    ensures var x, b := a.running[i], Leaving(a, i);
            && Continues(env, inp, a, b)
            && InOrder(env, b.running, b.log)
            && LaunchersRegistered(env, launchers - {x}, b.running, b.log)
            && (!env.IsChild(x) ==> Less(BaseGap(env, inp, b.running, b.locked),
              BaseGap(env, inp, a.running, a.locked)))
    ensures forall y :: y != a.running[i] ==> (y in a.running <==> y in Leaving(a, i).running)
  {
    assert a.running[i] !in NonChildren(env, wanted);
    LeavingContinues(env, inp, a, i);
    LeavingInOrder(env, a, wanted, i, errors);
    LeavingLaunchers(env, launchers, a, i);
    RemoveAtMembers(a.running, i);
  }

  /** The view in which a module has left the list and its stop hook is about to be called. */
  ghost function Leaving(a: View, i: nat): View
    requires i < |a.running|
  {
    View(RemoveAt(a.running, i), a.locked, a.log + [Stopping(a.running[i], RemoveAt(a.running, i))])
  }

  /** The view in which it is back because the hook failed. */
  ghost function Returned(c: View, i: nat, x: Spec): View {
    View(InsertAt(c.running, i, x), c.locked, c.log + [StopFailed(x)])
  }

  lemma ReturnedGap(env: Setting, inp: Inputs, a: View, i: nat, c: View)
    requires env.Acyclic() && i < |a.running| && Continues(env, inp, Leaving(a, i), c)
    ensures AtMost(BaseGap(env, inp, Returned(c, i, a.running[i]).running, c.locked),
      BaseGap(env, inp, a.running, a.locked))
  {
    GapPutBack(env, inp, a.running, i, a.locked, c.running, c.locked);
  }

  lemma ReturnedCounts(env: Setting, inp: Inputs, a: View, i: nat, c: View)
    requires env.Acyclic() && i < |a.running| && Continues(env, inp, Leaving(a, i), c)
    ensures inp.shuttingDown ==> multiset(Returned(c, i, a.running[i]).running) <= multiset(a.running)
  {
    RemoveAtCounts(a.running, i);
    InsertAtCounts(c.running, i, a.running[i]);
  }

  lemma ReturnedLog(env: Setting, inp: Inputs, a: View, i: nat, c: View)
    requires env.Acyclic() && i < |a.running| && Continues(env, inp, Leaving(a, i), c)
    ensures var log := Returned(c, i, a.running[i]).log;
            a.log <= log && FailedSince(|a.log|, log, a.running[i]) &&
              (inp.shuttingDown ==> OnlyStopsSince(|a.log|, log))
            && StartsWanted(env, inp, |a.log|, log)
  {
    hide CoreSpared, LockStartedSince, BaseSet, BaseGap, AtMost;
    assert c.log[|a.log|] == Leaving(a, i).log[|a.log|];
    var log := Returned(c, i, a.running[i]).log;
    assert log[|c.log|] == StopFailed(a.running[i]);
  }

  lemma StopKept(env: Setting, l: set<Spec>, r: seq<Spec>, i: nat, l': set<Spec>, r': seq<Spec>)
    requires i < |r| && Kept(env, l, RemoveAt(r, i), l', r')
    ensures !Fixed(env, l, r[i]) ==> Kept(env, l, r, l', r')
    ensures (Fixed(env, l, r[i]) ==> Fixed(env, l', r[i])) ==> Kept(env, l, r, l', InsertAt(r', i, r[i]))
  {
    RemoveAtMembers(r, i);
    InsertAtMembers(r', i, r[i]);
  }

  lemma RegistersAfterStop(l: set<Spec>, log: seq<Event>, stopping: seq<Event>, l': set<Spec>, log': seq<Event>,
      x: Spec)
    requires log <= stopping <= log' && Registers(l, |stopping|, l', log')
    ensures Registers(l, |log|, l', log') && Registers(l, |log|, l', log' + [StopFailed(x)])
    ensures StartedSince(|stopping|, log', x) ==>
      StartedSince(|log|, log', x) && StartedSince(|log|, log' + [StopFailed(x)], x)
    ensures LockStartedSince(|stopping|, log') ==>
      LockStartedSince(|log|, log') && LockStartedSince(|log|, log' + [StopFailed(x)])
  {
    if LockStartedSince(|stopping|, log') {
      LockStartKept(|log|, |stopping|, log', log');
      LockStartKept(|log|, |stopping|, log', log' + [StopFailed(x)]);
    }
    forall y | StartedSince(|stopping|, log', y)
      ensures StartedSince(|log|, log', y) && StartedSince(|log|, log' + [StopFailed(x)], y)
    {
      StartedKept(|log|, |stopping|, log', log', y);
      StartedKept(|log|, |stopping|, log', log' + [StopFailed(x)], y);
    }
  }

  lemma ReturnedCore(env: Setting, inp: Inputs, a: View, i: nat, c: View)
    requires env.Acyclic() && i < |a.running| && !inp.shuttingDown
    requires Continues(env, inp, a, Leaving(a, i)) && Continues(env, inp, Leaving(a, i), c)
    ensures CoreSpared(env, |a.log|, Returned(c, i, a.running[i]).log)
  {
    hide BaseGap, AtMost, StartsWanted, BaseSet, TakesCore, LockStartedSince, OnlyStopsSince;
    var b, log := Leaving(a, i), Returned(c, i, a.running[i]).log;
    assert !TakesCore(env, StopFailed(a.running[i])) by { FailureTakesNothing(env, a.running[i]); }
    forall k | |a.log| <= k < |log| ensures !TakesCore(env, log[k]) {
      assert k < |b.log| ==> log[k] == b.log[k];
      assert k < |c.log| ==> log[k] == c.log[k];
    }
  }

  lemma FailureTakesNothing(env: Setting, x: Spec)
    ensures !TakesCore(env, StopFailed(x))
  {
  }

  /** A module whose stop failed returns to its place, and the failure is on record. */
  lemma PutBack(env: Setting, inp: Inputs, a: View, i: nat, c: View)
    requires env.Acyclic() && i < |a.running|
    requires Continues(env, inp, a, Leaving(a, i)) && Continues(env, inp, Leaving(a, i), c)
    ensures var d := Returned(c, i, a.running[i]);
            Continues(env, inp, a, d) && FailedSince(|a.log|, d.log, a.running[i])
  {
    ReturnedGap(env, inp, a, i, c);
    ReturnedCounts(env, inp, a, i, c);
    ReturnedLog(env, inp, a, i, c);
    ReturnedLocked(env, inp, a, i, c);
    if !inp.shuttingDown {
      ReturnedCore(env, inp, a, i, c);
    }
    hide BaseGap, AtMost, FailedSince, LockStartedSince, OnlyStopsSince, StartsWanted, CoreSpared;
  }

  lemma ReturnedLocked(env: Setting, inp: Inputs, a: View, i: nat, c: View)
    requires env.Acyclic() && i < |a.running| && Continues(env, inp, Leaving(a, i), c)
    ensures var d := Returned(c, i, a.running[i]);
            && (!inp.shuttingDown && a.locked ==> d.locked)
            && (d.locked ==> a.locked || LockStartedSince(|a.log|, d.log))
  {
    var b := Leaving(a, i);
    StaysLocked(env, inp, b, c);
    if !a.locked && c.locked {
      LockStartKept(|a.log|, |b.log|, c.log, Returned(c, i, a.running[i]).log);
    }
  }

  lemma FailureRecorded(env: Setting, launchers: set<Spec>, running: seq<Spec>, i: nat, x: Spec, log: seq<Event>)
    requires InOrder(env, running, log) && LaunchersRegistered(env, launchers, running, log)
    ensures var log' := log + [StopFailed(x)];
            InOrder(env, InsertAt(running, i, x), log') &&
              LaunchersRegistered(env, launchers, InsertAt(running, i, x), log')
  {
    InsertAtMembers(running, i, x);
    InsertAtCounts(running, i, x);
    TallyAppend(log, StopFailed(x));
    assert StopFailed(x) in log + [StopFailed(x)];
  }
}
