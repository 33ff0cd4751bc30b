/** Idle time, the user's configuration as a program that asks about it, and the wake-up points the
    configuration's answers depend on. */
module Idle {
  import opened Options

  // ---- Times as floats: any real, the infinities, or NaN ----

  datatype Time = NegInf | Fin(seconds: real) | PosInf | NaN

  /** a < b on floats */
  predicate Lt(a: Time, b: Time) {
    match (a, b)
    case (NaN, _) => false
    case (_, NaN) => false
    case (NegInf, _) => b != NegInf
    case (_, PosInf) => a != PosInf
    case (Fin(x), Fin(y)) => x < y
    case _ => false
  }

  predicate Le(a: Time, b: Time) {
    Lt(a, b) || (a == b && a != NaN)
  }

  /** now - t */
  function Since(now: real, t: Time): Time {
    match t
    case NegInf => PosInf
    case PosInf => NegInf
    case NaN => NaN
    case Fin(x) => Fin(now - x)
  }

  /** Apart from NaN, which compares with nothing, floats are in one strict order that extends the reals'. */
  lemma TimesOrdered(a: Time, b: Time, c: Time)
    ensures Lt(a, b) ==> a != NaN && b != NaN && a != b && !Lt(b, a)
    ensures a != NaN && b != NaN && a != b ==> Lt(a, b) || Lt(b, a)
    ensures Lt(a, b) && Lt(b, c) ==> Lt(a, c)
    ensures a.Fin? && b.Fin? ==> (Lt(a, b) <==> a.seconds < b.seconds)
    ensures a.Fin? ==> Lt(NegInf, a) && Lt(a, PosInf)
  {
  }

  /** Idle for longer than n seconds: the last activity was before n seconds ago. */
  lemma IdleLonger(now: real, t: Time, n: real)
    ensures Lt(Fin(n), Since(now, t)) <==> Lt(t, Fin(now - n))
  {
  }

  // ---- get_idle_since ----

  function WithoutNaN(ts: seq<Time>): (r: seq<Time>)
    ensures forall t :: t in r <==> t in ts && t != NaN
  {
    if ts == [] then []
    else (if ts[0] == NaN then [] else [ts[0]]) + WithoutNaN(ts[1..])
  }

  /** Python's max over non-NaN floats. */
  function Max(ts: seq<Time>): (m: Time)
    requires ts != [] && NaN !in ts
    ensures m in ts && forall t :: t in ts ==> Le(t, m)
  {
    var rest := ts[..|ts| - 1];
    var last := ts[|ts| - 1];
    assert ts == rest + [last];
    if rest == [] then last
    else
      var m := Max(rest);
      if Lt(m, last) then last else m
  }

  /** The latest activity over all sessions; a session that reports NaN does not count. */
  function GetIdleSince(sleeping: bool, readings: seq<Time>): (r: Time)
    ensures r != NaN
    ensures sleeping ==> r == NegInf
    ensures !sleeping && (forall t :: t in readings ==> t == NaN) ==> r == PosInf
    ensures !sleeping && (exists t :: t in readings && t != NaN) ==>
      r in readings && forall t :: t in readings && t != NaN ==> Le(t, r)
  {
    if sleeping then NegInf
    else
      var times := WithoutNaN(readings);
      if times == [] then
        PosInf
      else
        assert times[0] in times;
        Max(times)
  }

  /** A session that cannot become idle keeps the whole system from being idle. */
  lemma WakeLockKeepsAwake(readings: seq<Time>, now: real, n: int)
    requires PosInf in readings
    ensures GetIdleSince(false, readings) == PosInf
    ensures !Lt(Fin(n as real), Since(now, GetIdleSince(false, readings)))
  {
    assert Le(PosInf, GetIdleSince(false, readings));
  }

  // ---- The user's configuration ----

  datatype Module = Module(name: string, parameters: seq<string>)

  /** What config() does with its configurator: request modules and branch on its questions. */
  datatype Program =
    | Finish
    | RunModule(module_: Module, next: Program)
    | IfLocked(yes: Program, no: Program)
    | IfIdleFor(seconds: int, yes: Program, no: Program)

  /** Modules requested and thresholds recorded, or the UserError of an invalid question. */
  datatype Evaluation = Invalid | Evaluation(modules: seq<Module>, asked: seq<int>)

  function Evaluate(p: Program, idle: Time, locked: bool): Evaluation {
    match p
    case Finish => Evaluation([], [])
    case RunModule(m, next) =>
      (match Evaluate(next, idle, locked)
       case Invalid => Invalid
       case Evaluation(ms, ns) => Evaluation([m] + ms, ns))
    case IfLocked(yes, no) => Evaluate(if locked then yes else no, idle, locked)
    case IfIdleFor(n, yes, no) =>
      if n <= 0 then Invalid
      else if Lt(Fin(n as real), idle) then Evaluate(yes, idle, locked)
      else
        match Evaluate(no, idle, locked)
        case Invalid => Invalid
        case Evaluation(ms, ns) => Evaluation(ms, [n] + ns)
  }

  class Configurator {
    var modules: seq<Module>
    var idleTimers: seq<int>

    constructor ()
      ensures modules == [] && idleTimers == []
    {
      modules, idleTimers := [], [];
    }

    method Reset()
      modifies this
      ensures modules == [] && idleTimers == []
    {
      modules, idleTimers := [], [];
    }

    /** None: the question is invalid. A "no" is recorded, as it will not stay one. */
    method IsIdleFor(seconds: int, idle: Time) returns (valid: bool, answer: bool)
      modifies `idleTimers
      ensures valid == (seconds > 0)
      ensures valid ==> answer == Lt(Fin(seconds as real), idle)
      ensures idleTimers == if valid && !answer then old(idleTimers) + [seconds] else old(idleTimers)
    {
      if seconds <= 0 {
        return false, false;
      }
      if Lt(Fin(seconds as real), idle) {
        return true, true;
      }
      idleTimers := idleTimers + [seconds];
      return true, false;
    }

    /** Runs the user's function against this configurator. */
    method Run(p: Program, idle: Time, locked: bool) returns (valid: bool)
      modifies this
      ensures valid == Evaluate(p, idle, locked).Evaluation?
      ensures valid ==> modules == old(modules) + Evaluate(p, idle, locked).modules
      ensures valid ==> idleTimers == old(idleTimers) + Evaluate(p, idle, locked).asked
      decreases p
    {
      match p
      case Finish => valid := true;
      case RunModule(m, next) =>
        modules := modules + [m];
        valid := Run(next, idle, locked);
      case IfLocked(yes, no) =>
        valid := Run(if locked then yes else no, idle, locked);
      case IfIdleFor(n, yes, no) =>
        var answer;
        valid, answer := IsIdleFor(n, idle);
        if valid {
          valid := Run(if answer then yes else no, idle, locked);
        }
    }

    method Reevaluate(p: Program, idle: Time, locked: bool) returns (valid: bool)
      modifies this
      ensures valid == Evaluate(p, idle, locked).Evaluation?
      ensures valid ==> Evaluation(modules, idleTimers) == Evaluate(p, idle, locked)
    {
      Reset();
      valid := Run(p, idle, locked);
    }

    /** The recorded thresholds, each once, in increasing order. */
    method GetSchedule() returns (schedule: seq<int>)
      ensures Increasing(schedule) && (forall n :: n in schedule <==> n in idleTimers)
    {
      schedule := [];
      for k := 0 to |idleTimers|
        invariant Increasing(schedule) && forall n :: n in schedule <==> n in idleTimers[..k]
      {
        assert idleTimers[..k + 1] == idleTimers[..k] + [idleTimers[k]];
        schedule := InsertSorted(schedule, idleTimers[k]);
      }
      assert idleTimers[..|idleTimers|] == idleTimers;
    }

    /** The selector: what X and the timer module are asked to wait for, then the user's modules. While
        idle time is not negative, the timer is asked whenever evaluating at some later idle time
        would give anything else. */
    method Selector(p: Program, idle: Time, locked: bool) returns (valid: bool, requests: seq<Request>)
      modifies this
      ensures valid == Evaluate(p, idle, locked).Evaluation?
      ensures valid ==> Evaluation(modules, idleTimers) == Evaluate(p, idle, locked)
      ensures valid ==> requests != [] && requests[|requests| - 1] == User(modules)
      ensures valid ==> forall k :: 0 <= k < |requests| - 1 ==> !requests[k].User?
      ensures valid ==> forall n :: XSet(n) in requests <==> n in idleTimers && forall m :: m in idleTimers ==> n <= m
      ensures valid ==> forall s :: Timer(s) in requests <==>
        idleTimers != [] && Le(Fin(0.0), idle) && s == ToSet(idleTimers)
      ensures valid && Le(Fin(0.0), idle) ==>
        forall j :: Le(idle, j) && Evaluate(p, j, locked) != Evaluate(p, idle, locked) ==>
          Timer(ToSet(idleTimers)) in requests
    {
      valid := Reevaluate(p, idle, locked);
      requests := [];
      LaterDiffers(p, idle, locked);
      if valid {
        var schedule := GetSchedule();
        ScheduleHead(schedule, idleTimers);
        if |schedule| > 0 {
          requests := requests + [XSet(schedule[0])];
        }
        if Le(Fin(0.0), idle) && |schedule| > 0 {
          requests := requests + [Timer(ToSet(schedule))];
        }
        requests := requests + [User(modules)];
      }
    }
  }

  datatype Request = XSet(seconds: int) | Timer(schedule: set<int>) | User(modules: seq<Module>)

  predicate Increasing(s: seq<int>) {
    forall i, j :: 0 <= i < j < |s| ==> s[i] < s[j]
  }

  function InsertSorted(s: seq<int>, x: int): (r: seq<int>)
    requires Increasing(s)
    ensures Increasing(r) && forall n :: n in r <==> n in s || n == x
  {
    if s == [] then [x]
    else if x < s[0] then [x] + s
    else if x == s[0] then s
    else
      var rest := InsertSorted(s[1..], x);
      assert forall n :: n in rest ==> s[0] < n by {
        forall n | n in rest ensures s[0] < n {
          if n != x {
            var j :| 0 <= j < |s[1..]| && s[1..][j] == n;
            assert s[0] < s[j + 1];
          }
        }
      }
      assert forall k :: 0 <= k < |rest| ==> rest[k] in rest;
      [s[0]] + rest
  }

  /** The least of the recorded thresholds. */
  function Least(ns: seq<int>): (m: int)
    requires ns != []
    ensures m in ns && forall n :: n in ns ==> m <= n
  {
    var m := ns[0];
    if |ns| == 1 then m
    else
      var l := Least(ns[1..]);
      assert ns == [ns[0]] + ns[1..];
      if m <= l then m else l
  }

  function ToSet(ns: seq<int>): set<int> {
    set n | n in ns
  }

  lemma ScheduleHead(schedule: seq<int>, ns: seq<int>)
    requires Increasing(schedule) && forall n :: n in schedule <==> n in ns
    ensures schedule == [] <==> ns == []
    ensures ns != [] ==> schedule[0] == Least(ns)
    ensures ToSet(schedule) == ToSet(ns)
  {
    assert |schedule| > 0 ==> schedule[0] in schedule;
    if ns != [] {
      var n := Least(ns);
      assert n in ns && n in schedule;
    }
  }

  // ---- No transition is missed ----

  /** Every recorded threshold has not been passed yet. */
  lemma {:induction false} AskedNotPassed(p: Program, idle: Time, locked: bool, n: int)
    requires Evaluate(p, idle, locked).Evaluation? && n in Evaluate(p, idle, locked).asked
    ensures n > 0 && !Lt(Fin(n as real), idle)
  {
    match p
    case Finish =>
    case RunModule(_, next) => AskedNotPassed(next, idle, locked, n);
    case IfLocked(yes, no) => AskedNotPassed(if locked then yes else no, idle, locked, n);
    case IfIdleFor(m, yes, no) =>
      if Lt(Fin(m as real), idle) {
        AskedNotPassed(yes, idle, locked, n);
      } else if n != m {
        AskedNotPassed(no, idle, locked, n);
      }
  }

  /** Until a recorded threshold is passed, the same questions get the same answers. */
  lemma {:induction false} SameUntilPassed(p: Program, locked: bool, i: Time, j: Time)
    requires Evaluate(p, i, locked).Evaluation? && Le(i, j)
    requires forall n :: n in Evaluate(p, i, locked).asked ==> !Lt(Fin(n as real), j)
    ensures Evaluate(p, j, locked) == Evaluate(p, i, locked)
  {
    match p
    case Finish =>
    case RunModule(_, next) => SameUntilPassed(next, locked, i, j);
    case IfLocked(yes, no) => SameUntilPassed(if locked then yes else no, locked, i, j);
    case IfIdleFor(m, yes, no) =>
      if Lt(Fin(m as real), i) {
        SameUntilPassed(yes, locked, i, j);
      } else {
        assert m in Evaluate(p, i, locked).asked;
        assert forall n :: n in Evaluate(no, i, locked).asked ==> n in Evaluate(p, i, locked).asked;
        SameUntilPassed(no, locked, i, j);
      }
  }

  /** While idle time only grows, the configuration's modules and schedule stay what they are exactly
      as long as the first recorded threshold is not passed; with none recorded they stay forever. */
  lemma NoMissedTransition(p: Program, locked: bool, i: Time, j: Time)
    requires Evaluate(p, i, locked).Evaluation? && Le(i, j)
    ensures Evaluate(p, j, locked) == Evaluate(p, i, locked) <==>
      Evaluate(p, i, locked).asked == [] || !Lt(Fin(Least(Evaluate(p, i, locked).asked) as real), j)
  {
    var asked := Evaluate(p, i, locked).asked;
    if asked == [] || !Lt(Fin(Least(asked) as real), j) {
      SameUntilPassed(p, locked, i, j);
    } else if Evaluate(p, j, locked) == Evaluate(p, i, locked) {
      AskedNotPassed(p, j, locked, Least(asked));
    }
  }

  lemma LaterDiffers(p: Program, i: Time, locked: bool)
    ensures Evaluate(p, i, locked).Evaluation? && Evaluate(p, i, locked).asked == [] ==>
      forall j :: Le(i, j) ==> Evaluate(p, j, locked) == Evaluate(p, i, locked)
  {
    if Evaluate(p, i, locked).Evaluation? && Evaluate(p, i, locked).asked == [] {
      forall j | Le(i, j) ensures Evaluate(p, j, locked) == Evaluate(p, i, locked) {
        NoMissedTransition(p, locked, i, j);
      }
    }
  }

  // ---- What one run of the configuration does ----

  datatype Action = Adds(module_: Module) | AsksLocked(answer: bool) | AsksIdle(seconds: int, answer: bool)

  /** The first action of p, after which next remains. */
  predicate Leads(p: Program, action: Action, next: Program) {
    match p
    case Finish => false
    case RunModule(m, rest) => action == Adds(m) && next == rest
    case IfLocked(yes, no) => action.AsksLocked? && next == if action.answer then yes else no
    case IfIdleFor(n, yes, no) =>
      action.AsksIdle? && action.seconds == n && next == if action.answer then yes else no
  }

  /** The program may take these actions, one after the other, and then finish. */
  ghost predicate Takes(p: Program, run: seq<Action>) {
    if run == [] then p == Finish
    else exists next :: Leads(p, run[0], next) && Takes(next, run[1..])
  }

  /** Its questions were valid and were answered by the facts. */
  predicate Answered(run: seq<Action>, idle: Time, locked: bool) {
    forall k :: 0 <= k < |run| ==>
      match run[k] {
        case Adds(_) => true
        case AsksLocked(answer) => answer == locked
        case AsksIdle(n, answer) => n > 0 && (answer <==> idle == PosInf || (idle.Fin? && n as real < idle.seconds))
      }
  }

  function Requested(run: seq<Action>): seq<Module> {
    if run == [] then []
    else (if run[0].Adds? then [run[0].module_] else []) + Requested(run[1..])
  }

  function Denied(run: seq<Action>): seq<int> {
    if run == [] then []
    else (if run[0].AsksIdle? && !run[0].answer then [run[0].seconds] else []) + Denied(run[1..])
  }

  /** Evaluating yields, in order, what was requested and which thresholds were answered no. */
  lemma {:induction false} EvaluationOfRun(p: Program, idle: Time, locked: bool, run: seq<Action>)
    requires Takes(p, run) && Answered(run, idle, locked)
    ensures Evaluate(p, idle, locked) == Evaluation(Requested(run), Denied(run))
    decreases |run|
  {
    if run != [] {
      var next :| Leads(p, run[0], next) && Takes(next, run[1..]);
      AnsweredRest(run, idle, locked);
      EvaluationOfRun(next, idle, locked, run[1..]);
      FirstAction(p, run[0], next, idle, locked);
      hide Takes, Leads, Answered, Evaluate;
    }
  }

  lemma AnsweredRest(run: seq<Action>, idle: Time, locked: bool)
    requires run != []
    ensures Answered(run, idle, locked) <==> Answered([run[0]], idle, locked) && Answered(run[1..], idle, locked)
  {
    var first, rest := [run[0]], run[1..];
    assert forall k :: 0 <= k < |rest| ==> rest[k] == run[k + 1];
    assert first[0] == run[0];
    if Answered(first, idle, locked) && Answered(rest, idle, locked) {
      forall k | 0 < k < |run| ensures run[k] == rest[k - 1] {
      }
    }
  }

  lemma FirstAction(p: Program, action: Action, next: Program, idle: Time, locked: bool)
    requires Leads(p, action, next) && Answered([action], idle, locked) && Evaluate(next, idle, locked).Evaluation?
    ensures var e := Evaluate(next, idle, locked);
            Evaluate(p, idle, locked) ==
              Evaluation(Requested([action]) + e.modules, Denied([action]) + e.asked)
  {
    assert [action][0] == action;
    assert Requested([action]) == if action.Adds? then [action.module_] else [];
  }

  /** The configuration is valid exactly if there is such a run. */
  lemma ValidIfRuns(p: Program, idle: Time, locked: bool)
    ensures Evaluate(p, idle, locked).Evaluation? <==> exists run :: Takes(p, run) && Answered(run, idle, locked)
  {
    if run :| Takes(p, run) && Answered(run, idle, locked) {
      EvaluationOfRun(p, idle, locked, run);
    }
    if Evaluate(p, idle, locked).Evaluation? {
      var run := ValidRun(p, idle, locked);
    }
  }

  lemma {:induction false} ValidRun(p: Program, idle: Time, locked: bool) returns (run: seq<Action>)
    requires Evaluate(p, idle, locked).Evaluation?
    ensures Takes(p, run) && Answered(run, idle, locked)
    decreases p
  {
    if p == Finish {
      return [];
    }
    var (action, next) := match p {
      case RunModule(m, rest) => (Adds(m), rest)
      case IfLocked(yes, no) => (AsksLocked(locked), if locked then yes else no)
      case IfIdleFor(n, yes, no) =>
        (AsksIdle(n, Lt(Fin(n as real), idle)), if Lt(Fin(n as real), idle) then yes else no)
    };
    var rest := ValidRun(next, idle, locked);
    run := [action] + rest;
    assert run[1..] == rest && Leads(p, run[0], next);
    AnsweredRest(run, idle, locked);
  }

  // ---- The timer module ----

  /** The threshold timer_start_next waits for: the least one above the idle time. */
  ghost predicate IsNext(schedule: set<int>, idle: Time, n: int) {
    && n in schedule && Lt(idle, Fin(n as real))
    && forall m :: m in schedule && Lt(idle, Fin(m as real)) ==> n <= m
  }

  ghost predicate NothingAhead(schedule: set<int>, idle: Time) {
    forall n :: n in schedule ==> !Lt(idle, Fin(n as real))
  }

  class TimerModule {
    const schedule: set<int>
    var timer: Option<real>     // the interval of the pending timer, if any
    ghost var awaited: int      // the threshold it was set for

    constructor (schedule: set<int>)
      ensures this.schedule == schedule && timer.None?
    {
      this.schedule, timer, awaited := schedule, None, 0;
    }

    method TimerCancel()
      modifies `timer
      ensures timer.None?
    {
      timer := None;
    }

    /** order: the iteration order of the frozenset. */
    method TimerStartNext(idle: Time, order: seq<int>)
      requires idle != NaN && (set n | n in order) == schedule
      modifies this
      ensures timer.None? <==> Lt(idle, Fin(0.0)) || NothingAhead(schedule, idle)
      ensures timer.Some? ==> IsNext(schedule, idle, awaited) && idle.Fin?
      ensures timer.Some? ==> timer.value == awaited as real - idle.seconds + 1.0 > 1.0
    {
      TimerCancel();
      if Lt(idle, Fin(0.0)) {
        return;
      }
      var next: Option<int> := None;
      for k := 0 to |order|
        invariant next.None? ==> forall j :: 0 <= j < k ==> !Lt(idle, Fin(order[j] as real))
        invariant next.Some? ==> next.value in order[..k] && Lt(idle, Fin(next.value as real))
        invariant next.Some? ==>
          forall j :: 0 <= j < k && Lt(idle, Fin(order[j] as real)) ==> next.value <= order[j]
      {
        if Lt(idle, Fin(order[k] as real)) && (next.None? || order[k] < next.value) {
          next := Some(order[k]);
        }
        assert order[k] in order[..k + 1];
      }
      if next.Some? {
        awaited := next.value;
        timer := Some(next.value as real - idle.seconds + 1.0);
        assert next.value in order;
      }
      forall n | n in schedule && Lt(idle, Fin(n as real)) ensures next.Some? && next.value <= n {
        assert n in order;
        var j :| 0 <= j < |order| && order[j] == n;
      }
      assert next.None? ==> NothingAhead(schedule, idle);
      assert next.Some? ==> next.value in schedule && !NothingAhead(schedule, idle);
    }

    /** Fires: the timer is spent; sessions are read afresh and the modules updated in between. */
    method TimerHandleDone(idleAfterUpdate: Time, order: seq<int>)
      requires idleAfterUpdate != NaN && (set n | n in order) == schedule
      modifies this
      ensures timer.None? <==> Lt(idleAfterUpdate, Fin(0.0)) || NothingAhead(schedule, idleAfterUpdate)
      ensures timer.Some? ==> IsNext(schedule, idleAfterUpdate, awaited) && idleAfterUpdate.Fin?
      ensures timer.Some? ==> timer.value == awaited as real - idleAfterUpdate.seconds + 1.0 > 1.0
    {
      timer := None;
      TimerStartNext(idleAfterUpdate, order);
    }
  }

  /** With one reading for both, the single bad case is a threshold met exactly: is_idle_for still says
      no, and the timer no longer waits for it. */
  lemma ExactThresholdSkipped(p: Program, locked: bool, i: Time)
    requires Evaluate(p, i, locked).Evaluation? && Evaluate(p, i, locked).asked != [] && i != NaN
    ensures var least := Least(Evaluate(p, i, locked).asked);
            !IsNext(ToSet(Evaluate(p, i, locked).asked), i, least) <==> i == Fin(least as real)
  {
    AskedNotPassed(p, i, locked, Least(Evaluate(p, i, locked).asked));
  }

  /** Such a case: lock after ten minutes, evaluated at ten minutes sharp. No wake-up is set, though
      a moment later the answer is another. */
  lemma ExactThresholdWitness()
    ensures var p := IfIdleFor(600, RunModule(Module("lock", []), Finish), Finish);
            && NothingAhead(ToSet(Evaluate(p, Fin(600.0), false).asked), Fin(600.0))
            && Evaluate(p, Fin(600.0), false).modules == []
            && Evaluate(p, Fin(601.0), false).modules == [Module("lock", [])]
  {
    var p := IfIdleFor(600, RunModule(Module("lock", []), Finish), Finish);
    assert Evaluate(p, Fin(600.0), false) == Evaluation([], [600]);
  }

  // ---- Wake-ups over a stretch without activity ----

  function Thresholds(p: Program): set<int> {
    match p
    case Finish => {}
    case RunModule(_, next) => Thresholds(next)
    case IfLocked(yes, no) => Thresholds(yes) + Thresholds(no)
    case IfIdleFor(n, yes, no) => {n} + Thresholds(yes) + Thresholds(no)
  }

  lemma {:induction false} AskedFromProgram(p: Program, idle: Time, locked: bool, n: int)
    requires Evaluate(p, idle, locked).Evaluation? && n in Evaluate(p, idle, locked).asked
    ensures n in Thresholds(p)
  {
    match p
    case Finish =>
    case RunModule(_, next) => AskedFromProgram(next, idle, locked, n);
    case IfLocked(yes, no) => AskedFromProgram(if locked then yes else no, idle, locked, n);
    case IfIdleFor(m, yes, no) =>
      if Lt(Fin(m as real), idle) {
        AskedFromProgram(yes, idle, locked, n);
      } else if n != m {
        AskedFromProgram(no, idle, locked, n);
      }
  }

  /** One wake-up: the timer set at idle time i, for threshold n, fires at idle time j. */
  ghost predicate WakesUp(p: Program, locked: bool, i: real, n: int, j: real) {
    && Evaluate(p, Fin(i), locked).Evaluation?
    && IsNext(ToSet(Evaluate(p, Fin(i), locked).asked), Fin(i), n)
    && j >= i + (n as real - i + 1.0)
  }

  /** One wake-up from idle time i to idle time j, in whatever lock state the configuration was evaluated. */
  ghost predicate SomeWakeUp(p: Program, i: real, j: real) {
    exists n, locked :: WakesUp(p, locked, i, n, j)
  }

  /** The idle times at which the configuration is evaluated while the timer alone drives it. Each
      evaluation sees the lock state of its moment: what a wake-up starts may lock. */
  ghost predicate WakeUps(p: Program, at: seq<real>) {
    forall k :: 0 < k < |at| ==> SomeWakeUp(p, at[k - 1], at[k])
  }

  /** A wake-up comes more than a second later, turns its threshold's answer to yes for good, and up
      to that threshold nothing would have changed. */
  lemma WakeUpProgress(p: Program, locked: bool, i: real, n: int, j: real, later: Time)
    requires WakesUp(p, locked, i, n, j) && Le(Fin(j), later)
    ensures j > i + 1.0 && Lt(Fin(n as real), later)
    ensures i != Least(Evaluate(p, Fin(i), locked).asked) as real ==>
      forall t :: Le(Fin(i), t) && Le(t, Fin(n as real)) ==> Evaluate(p, t, locked) == Evaluate(p, Fin(i), locked)
  {
    var asked := Evaluate(p, Fin(i), locked).asked;
    assert n in asked;
    if i != Least(asked) as real {
      ExactThresholdSkipped(p, locked, Fin(i));
      assert n == Least(asked);
      forall t | Le(Fin(i), t) && Le(t, Fin(n as real)) ensures Evaluate(p, t, locked) == Evaluate(p, Fin(i), locked) {
        NoMissedTransition(p, locked, Fin(i), t);
      }
    }
  }

  function Ahead(ns: set<int>, i: real): set<int> {
    set n | n in ns && i < n as real
  }

  /** Each wake-up leaves fewer thresholds ahead. */
  lemma WakeUpUsesThreshold(p: Program, i: real, j: real)
    requires SomeWakeUp(p, i, j)
    ensures |Ahead(Thresholds(p), j)| < |Ahead(Thresholds(p), i)|
  {
    var n, locked :| WakesUp(p, locked, i, n, j);
    AskedFromProgram(p, Fin(i), locked, n);
    SubsetSize(Ahead(Thresholds(p), j), Ahead(Thresholds(p), i) - {n});
  }

  /** There are at most as many timer wake-ups as thresholds in the configuration, however the lock
      state changes meanwhile. */
  lemma {:induction false} FewWakeUps(p: Program, at: seq<real>)
    requires at != [] && WakeUps(p, at)
    ensures |at| - 1 <= |Ahead(Thresholds(p), at[0])| <= |Thresholds(p)|
    decreases |at|
  {
    SubsetSize(Ahead(Thresholds(p), at[0]), Thresholds(p));
    if |at| > 1 {
      WakeUpUsesThreshold(p, at[1 - 1], at[1]);
      var rest := at[1..];
      forall k | 0 < k < |rest| ensures SomeWakeUp(p, rest[k - 1], rest[k]) {
        assert SomeWakeUp(p, at[k + 1 - 1], at[k + 1]);
      }
      FewWakeUps(p, rest);
    }
  }

  /** Such a stretch: the first wake-up locks, and the second is for a threshold of the locked state. */
  lemma LockingStretch()
    ensures var p := IfLocked(IfIdleFor(700, Finish, Finish),
      IfIdleFor(600, RunModule(Module("lock", []), Finish), Finish));
            && WakeUps(p, [0.0, 601.0, 701.0])
            && Evaluate(p, Fin(601.0), false).modules == [Module("lock", [])]
            && Evaluate(p, Fin(601.0), true).asked == [700]
  {
    var p := IfLocked(IfIdleFor(700, Finish, Finish), IfIdleFor(600, RunModule(Module("lock", []), Finish), Finish));
    assert Evaluate(p, Fin(0.0), false) == Evaluation([], [600]);
    assert WakesUp(p, false, 0.0, 600, 601.0);
    assert Evaluate(p, Fin(601.0), true) == Evaluation([], [700]);
    assert WakesUp(p, true, 601.0, 700, 701.0);
  }

  lemma SubsetSize(a: set<int>, b: set<int>)
    requires a <= b
    ensures |a| <= |b|
  {
    assert b == a + (b - a);
  }
}
