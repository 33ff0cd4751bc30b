/** The life of the daemon, from its first update to its last. */
module Lifetime {
  import opened Specs
  import opened Selection
  import opened DependencyOrder
  import opened Daemon
  import opened Events

  /** No two entries of the log start x. */
  ghost predicate StartedAtMostOnce(log: seq<Event>, x: Spec) {
    forall j, k :: 0 <= j < k < |log| && log[j].Starting? && log[k].Starting? && log[j].spec == x ==> log[k].spec != x
  }

  /** Core modules are not stopped before the daemon shuts down, and nothing is started from then on. */
  lemma CoreStartedAtMostOnce(d: Daemon, x: Spec)
    requires d.Valid() && CoreLasts(d.env, d.shuttingDown, d.log) && x in d.env.core && !d.env.IsChild(x)
    ensures StartedAtMostOnce(d.log, x)
  {
    var log := d.log;
    var m: nat :| CoreLastsUntil(d.env, m, log);
    forall j, k | 0 <= j < k < |log| && log[j].Starting? && log[k].Starting? && log[j].spec == x
      ensures log[k].spec != x
    {
      assert k < m;
      assert forall i :: j < i < k ==> !TakesCore(d.env, log[i]);
      StartedOnce(log, x, j, k);
    }
  }

  // ---- A life without trouble ----

  /** The k-th task attached the spec, and none of the first n has detached it since. */
  ghost predicate LastAttached(tasks: seq<Task>, n: nat, k: nat, spec: Spec) {
    && k < n <= |tasks| && tasks[k] == AttachTask(spec)
    && forall j :: k < j < n ==> tasks[j] != DetachTask(spec)
  }

  /** Each task was carried out in its turn, and no hook has raised meanwhile. */
  ghost predicate Smoothly(env: Setting, tasks: seq<Task>, snaps: seq<Snapshot>)
    requires env.Acyclic()
  {
    && |snaps| == |tasks| + 1
    && (forall k :: 0 <= k < |tasks| ==> Did(env, tasks[k], snaps[k], snaps[k + 1]))
    && (forall k :: 0 <= k <= |tasks| ==> Untroubled(0, snaps[k].view.log))
  }

  lemma SessionsAfter(env: Setting, task: Task, s: Snapshot, t: Snapshot, spec: Spec)
    requires env.Acyclic() && Did(env, task, s, t) && Untroubled(0, t.view.log)
    ensures spec in t.inp.sessions <==>
      task == AttachTask(spec) || (spec in s.inp.sessions && task != DetachTask(spec))
  {
    hide Ended, RolledBack, Updated;
  }

  /** Attached are then exactly the sessions of which an attach was the last word. */
  lemma {:induction false} SessionsLastWord(env: Setting, tasks: seq<Task>, snaps: seq<Snapshot>, n: nat, spec: Spec)
    requires env.Acyclic() && Smoothly(env, tasks, snaps) && n <= |tasks| && snaps[0].inp.sessions == {}
    ensures spec in snaps[n].inp.sessions <==> exists k :: LastAttached(tasks, n, k, spec)
    decreases n
  {
    hide Did, Untroubled;
    if n > 0 {
      var m := n - 1;
      SessionsLastWord(env, tasks, snaps, m, spec);
      SessionsAfter(env, tasks[m], snaps[m], snaps[n], spec);
      if tasks[m] == AttachTask(spec) {
        assert LastAttached(tasks, n, m, spec);
      }
      if tasks[m] != DetachTask(spec) {
        if k :| LastAttached(tasks, m, k, spec) {
          assert LastAttached(tasks, n, k, spec);
        }
      }
      if tasks[m] != AttachTask(spec) {
        if k :| LastAttached(tasks, n, k, spec) {
          assert LastAttached(tasks, m, k, spec);
        }
      }
    }
  }

  lemma UntroubledUpdate(env: Setting, n: nat, t: Snapshot)
    requires env.Acyclic() && Ended(env, n, t) && Untroubled(0, t.view.log)
    ensures Settled(env, t)
  {
    var r: Outcome :| Updated(env, n, t, r);
    if r.FailedToStop? {
      TroublesMean(n, t.view.log, r.errors);
    }
    hide Settled, BaseSet, NonChildren;
  }

  lemma NothingSettled(env: Setting, t: Snapshot)
    requires env.Acyclic() && t.inp.shuttingDown && t.wanted == [] && OnlyFailures(0, t.view)
    requires Untroubled(0, t.view.log)
    ensures Settled(env, t)
  {
    NoneLeft(t.view.running);
    forall x ensures !FailedSince(0, t.view.log, x) {
      TroubleMeans(0, t.view.log, x);
    }
    assert Selected(env, t.inp, t.launchers, t.view.running, t.view.locked) == [];
  }

  lemma SettledAfter(env: Setting, task: Task, s: Snapshot, t: Snapshot)
    requires env.Acyclic() && Did(env, task, s, t) && Untroubled(0, t.view.log) && Settled(env, s)
    requires task.UnlockTask? ==> task.notified
    ensures Settled(env, t)
  {
    hide Settled, Updated;
    if Ended(env, |s.view.log|, t) {
      UntroubledUpdate(env, |s.view.log|, t);
    } else if task.StopTask? {
      NothingSettled(env, t);
    }
  }

  /** The daemon is then in step after every task, but for an unlock that could not tell who waits. */
  lemma {:induction false} InStepThroughout(env: Setting, tasks: seq<Task>, snaps: seq<Snapshot>, n: nat)
    requires env.Acyclic() && Smoothly(env, tasks, snaps) && n <= |tasks| && Settled(env, snaps[0])
    requires forall k :: 0 <= k < n && tasks[k].UnlockTask? ==> tasks[k].notified
    ensures Settled(env, snaps[n])
    decreases n
  {
    hide Did, Untroubled, Settled;
    if n > 0 {
      InStepThroughout(env, tasks, snaps, n - 1);
      SettledAfter(env, tasks[n - 1], snaps[n - 1], snaps[n]);
    }
  }

  /** start() of the daemon: a first update, the event loop, and a last stop. tasks: what is called into
      the loop, in this order. snaps: how things were after the first update and after each task. */
  method Start(env: Setting, config: (set<Spec>, bool) -> seq<Spec>, tasks: seq<Task>)
    returns (d: Daemon, ghost snaps: seq<Snapshot>)
    requires env.WellFormed()
    ensures fresh(d) && d.env == env && d.Valid() && d.shuttingDown && d.wanted == []
    ensures |snaps| == |tasks| + 1 && snaps[0].inp == Inputs(config, {}, false) && Ended(env, 0, snaps[0])
    ensures forall k :: 0 <= k < |tasks| ==> Did(env, tasks[k], snaps[k], snaps[k + 1])
    ensures OnlyFailures(|snaps[|tasks|].view.log|, d.Now())
    ensures Quiet(tasks, snaps, d.Now())
    ensures env.AllWorks() ==> Untroubled(0, d.log) && d.running == []
    ensures env.AllWorks() ==> forall n, spec :: 0 <= n <= |tasks| ==>
      (spec in snaps[n].inp.sessions <==> exists k :: LastAttached(tasks, n, k, spec))
    ensures env.AllWorks() && (forall k :: 0 <= k < |tasks| && tasks[k].UnlockTask? ==> tasks[k].notified) ==>
      forall n :: 0 <= n <= |tasks| ==> Settled(env, snaps[n])
    ensures forall x :: x in env.core && !env.IsChild(x) ==> StartedAtMostOnce(d.log, x)
  {
    hide Carries, CoreLasts, StartedAtMostOnce, Kept, Tracked, Quiet, Updated, Did, Daemon.Valid, FailedSince,
      Untroubled, SessionsOnlyAttached;
    var loop := Queued(tasks);
    d := new Daemon(env, config);
    ghost var a := d.Now();
    NothingYet(env);
    var _ := Reconfigure(d, config);
    ghost var b := d.Now();
    LastsAcross(env, a, false, b, false, NOT_ASKED);
    snaps := loop.Run(d);
    ghost var c := d.Now();
    ghost var down := d.shuttingDown;
    LastsAcross(env, b, false, c, down, AskedByAll(tasks));
    EachDone(env, tasks, false, snaps);
    CarriesTransitive(env, a, false, b, false, c, down, NOT_ASKED, AskedByAll(tasks));
    var _ := Shutdown(d);
    CarriesWeaker(env, c, down, true, d.Now(), NOT_ASKED);
    CarriesLog(env, c, true, d.Now(), true, NOT_ASKED);
    LastsAcross(env, c, down, d.Now(), true, NOT_ASKED);
    CarriesTransitive(env, a, false, c, down, d.Now(), true, NOT_ASKED.Or(AskedByAll(tasks)), NOT_ASKED);
    SmoothThroughout(env, a, c, down, d.Now(), NOT_ASKED.Or(AskedByAll(tasks)).Or(NOT_ASKED));
    QuietToTheEnd(env, tasks, snaps, d.Now());
    WithoutTrouble(env, tasks, snaps, d.log);
    forall x | x in env.core && !env.IsChild(x) ensures StartedAtMostOnce(d.log, x) {
      CoreStartedAtMostOnce(d, x);
    }
  }

  lemma WithoutTrouble(env: Setting, tasks: seq<Task>, snaps: seq<Snapshot>, log: seq<Event>)
    requires env.Acyclic() && |snaps| == |tasks| + 1 && snaps[0].inp.sessions == {} && Ended(env, 0, snaps[0])
    requires forall k :: 0 <= k < |tasks| ==> Did(env, tasks[k], snaps[k], snaps[k + 1])
    requires forall k :: 0 <= k <= |tasks| ==> snaps[k].view.log <= log
    ensures Untroubled(0, log) ==> forall n, spec :: 0 <= n <= |tasks| ==>
      (spec in snaps[n].inp.sessions <==> exists k :: LastAttached(tasks, n, k, spec))
    ensures Untroubled(0, log) && (forall k :: 0 <= k < |tasks| && tasks[k].UnlockTask? ==> tasks[k].notified) ==>
      forall n :: 0 <= n <= |tasks| ==> Settled(env, snaps[n])
  {
    if Untroubled(0, log) {
      forall k | 0 <= k <= |tasks| ensures Untroubled(0, snaps[k].view.log) {
        UntroubledOn(0, snaps[k].view.log, log);
      }
      assert Smoothly(env, tasks, snaps);
      hide Smoothly, Untroubled, Did, Settled, LastAttached;
      forall n, spec | 0 <= n <= |tasks|
        ensures spec in snaps[n].inp.sessions <==> exists k :: LastAttached(tasks, n, k, spec)
      {
        SessionsLastWord(env, tasks, snaps, n, spec);
      }
      UntroubledStart(env, tasks, snaps);
      if forall k :: 0 <= k < |tasks| && tasks[k].UnlockTask? ==> tasks[k].notified {
        forall n | 0 <= n <= |tasks| ensures Settled(env, snaps[n]) {
          InStepThroughout(env, tasks, snaps, n);
        }
      }
    }
  }

  lemma UntroubledStart(env: Setting, tasks: seq<Task>, snaps: seq<Snapshot>)
    requires env.Acyclic() && Smoothly(env, tasks, snaps) && Ended(env, 0, snaps[0])
    ensures Settled(env, snaps[0])
  {
    hide Did, Untroubled;
    UntroubledUpdate(env, 0, snaps[0]);
  }

  lemma EachDone(env: Setting, tasks: seq<Task>, down: bool, snaps: seq<Snapshot>)
    requires env.Acyclic() && |snaps| == |tasks| + 1 && Tracked(env, tasks, down, snaps)
    ensures forall k :: 0 <= k < |tasks| ==> Did(env, tasks[k], snaps[k], snaps[k + 1])
  {
    hide Did, Carries;
  }

  /** Where no hook has trouble of its own, there is none in a whole life, and nothing is left running. */
  lemma SmoothThroughout(env: Setting, a: View, c: View, down: bool, d: View, asked: Asked)
    requires a.log == [] && Carries(env, a, false, d, true, asked)
    ensures env.AllWorks() ==> Untroubled(0, d.log)
    ensures env.AllWorks() && |c.log| <= |d.log| ==> Untroubled(|c.log|, d.log)
  {
    hide CoreLasts, CoreSpared;
  }

  lemma QuietToTheEnd(env: Setting, tasks: seq<Task>, snaps: seq<Snapshot>, d: View)
    requires |snaps| == |tasks| + 1 && Quiet(tasks, snaps, snaps[|tasks|].view)
    requires Carries(env, snaps[|tasks|].view, true, d, true, NOT_ASKED)
    requires forall k :: 0 <= k <= |tasks| ==> snaps[k].view.log <= snaps[|tasks|].view.log
    ensures Quiet(tasks, snaps, d)
  {
    hide QuietSince, Carries;
    forall k | 0 <= k < |tasks| && tasks[k].StopTask? ensures QuietSince(snaps[k].view, d) {
      QuietOn(env, snaps[k].view, snaps[|tasks|].view, d, NOT_ASKED);
    }
  }

  method Queued(tasks: seq<Task>) returns (loop: EventLoop)
    ensures fresh(loop) && loop.queue == tasks && !loop.stopping
  {
    loop := new EventLoop();
    for i := 0 to |tasks|
      invariant loop.queue == tasks[..i] && !loop.stopping
    {
      loop.Call(tasks[i]);
    }
  }

  lemma NothingYet(env: Setting)
    ensures CoreLasts(env, false, [])
  {
    assert CoreLastsUntil(env, 0, []);
  }

  lemma LastsAcross(env: Setting, a: View, down: bool, b: View, down': bool, asked: Asked)
    requires Carries(env, a, down, b, down', asked) && CoreLasts(env, down, a.log)
    ensures CoreLasts(env, down', b.log)
  {
  }
}
