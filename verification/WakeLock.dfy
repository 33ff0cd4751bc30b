/** Wake locks: any number of reader threads, each serving one "wake-lock" connection, hand closures to
    the main loop's queue, while servers start and stop. One label is one atomic step of some thread;
    a run is any sequence of labels that are enabled in turn. */
module WakeLock {
  import opened Options
  import Idle

  /** Where the reader thread of a connection is. */
  datatype Pc =
    | Connected        // in the server's request set, command read
    | Admitted         // found the server not stopping
    | Named            // has drawn the number of its wake lock
    | AwaitingAttach
    | Acknowledging
    | Holding          // blocked in the read that lasts as long as the lock
    | Releasing        // in the finally block
    | AwaitingDetach
    | Done

  /** A connection. accepted is the SocketServer whose request set it is in, server the one the reader
      thread found in its module. The rest are the locals its closures share. */
  datatype Client = Client(
    accepted: nat, server: nat, pc: Pc, id: Option<nat>,
    attachDone: bool, attached: bool, attachFailed: bool,
    detachDone: bool, detachFailed: bool)

  datatype Task = Attach(c: nat) | Detach(c: nat) | Other

  /** What the main thread is doing. Attaching, RollingBack and Detaching are inside module.update(). */
  datatype Main = Waiting | Attaching(c: nat) | RollingBack(c: nat) | Detaching(c: nat) | RunningOther | Exited

  datatype State = State(
    clients: map<nat, Client>,
    specs: set<nat>,      // the numbers of the wake locks in session_specs
    nextId: nat,
    queue: seq<Task>,
    main: Main,
    current: Option<nat>, // the server module's SocketServer
    started: nat,         // SocketServers made so far, numbered in order
    stopping: set<nat>,   // SocketServers with the stopping flag set
    pending: set<nat>,    // requests the main thread has yet to shut down in interrupt_requests
    caught: set<nat>,     // history: connections a stop of their accepting server has found in its requests
    eof: set<nat>,        // connections whose read ends: shut down, or the peer has left
    loopStopping: bool)

  datatype Label =
    // reader threads and their peers
    | Connect(c: nat) | Admit(c: nat) | TurnAway(c: nat) | Draw(c: nat) | QueueAttach(c: nat)
    | Proceed(c: nat) | Acknowledge(c: nat) | AckFails(c: nat) | PeerLeaves(c: nat) | HoldEnds(c: nat)
    | QueueDetach(c: nat) | Finish(c: nat) | QueueOther
    // the main thread
    | Take | UpdateReturns(ok: bool) | StartServer | StopServer | Interrupt(c: nat) | ServerGone | StopLoop | LoopExits

  const INITIAL := State(map[], {}, 1, [], Waiting, Some(0), 1, {}, {}, {}, {}, false)

  predicate At(s: State, c: nat, pc: Pc) {
    c in s.clients && s.clients[c].pc == pc
  }

  /** The request set of a server. */
  function Requests(s: State, server: nat): set<nat> {
    set c | c in s.clients && s.clients[c].accepted == server && s.clients[c].pc != Done
  }

  predicate ServerAlive(s: State) {
    s.current.Some? && s.current.value !in s.stopping
  }

  predicate Busy(s: State) {
    s.main != Waiting && s.main != Exited
  }

  predicate Enabled(s: State, l: Label) {
    match l
    case Connect(c) => c !in s.clients && s.current.Some?
    case Admit(c) => At(s, c, Connected) && ServerAlive(s)
    case TurnAway(c) => At(s, c, Connected) && !ServerAlive(s)
    case Draw(c) => At(s, c, Admitted)
    case QueueAttach(c) => At(s, c, Named)
    case Proceed(c) => At(s, c, AwaitingAttach) && s.clients[c].attachDone
    case Acknowledge(c) => At(s, c, Acknowledging)
    case AckFails(c) => At(s, c, Acknowledging)
    case PeerLeaves(c) => c in s.clients
    case HoldEnds(c) => At(s, c, Holding) && c in s.eof
    case QueueDetach(c) => At(s, c, Releasing)
    case Finish(c) => At(s, c, AwaitingDetach) && s.clients[c].detachDone
    case QueueOther => true
    case Take => s.main == Waiting && s.queue != []
    case UpdateReturns(_) => Busy(s) && s.pending == {}
    case StartServer => Busy(s) && s.pending == {} && s.current.None?
    case StopServer => Busy(s) && s.pending == {} && s.current.Some?
    case ServerGone => Busy(s) && s.pending == {} && s.current.Some? && s.current.value in s.stopping
    case Interrupt(c) => Busy(s) && c in s.pending
    case StopLoop => s.main == RunningOther
    case LoopExits => s.main == Waiting && s.loopStopping && s.queue == []
  }

  function Put(s: State, c: nat, client: Client): State {
    s.(clients := s.clients[c := client])
  }

  /** A step of the reader thread of connection l.c. */
  predicate OfThread(l: Label) {
    match l
    case Connect(_) => true
    case Admit(_) => true
    case TurnAway(_) => true
    case Draw(_) => true
    case QueueAttach(_) => true
    case Proceed(_) => true
    case Acknowledge(_) => true
    case AckFails(_) => true
    case HoldEnds(_) => true
    case QueueDetach(_) => true
    case Finish(_) => true
    case _ => false
  }

  /** What the thread's step makes of its connection. */
  function Moved(s: State, l: Label): Client
    requires OfThread(l) && Enabled(s, l)
  {
    match l
    case Connect(_) =>
      var server := s.current.value;
      Client(server, server, Connected, None, false, false, false, false, false)
    case Admit(c) => s.clients[c].(pc := Admitted, server := s.current.value)
    case TurnAway(c) => s.clients[c].(pc := Done)
    case Draw(c) => s.clients[c].(pc := Named, id := Some(s.nextId))
    case QueueAttach(c) => s.clients[c].(pc := AwaitingAttach)
    case Proceed(c) =>
      s.clients[c].(pc := if s.clients[c].attachFailed || !s.clients[c].attached then Done else Acknowledging)
    case Acknowledge(c) => s.clients[c].(pc := Holding)
    case AckFails(c) => s.clients[c].(pc := Releasing)
    case HoldEnds(c) => s.clients[c].(pc := Releasing)
    case QueueDetach(c) => s.clients[c].(pc := AwaitingDetach)
    case Finish(c) => s.clients[c].(pc := Done)
  }

  /** What a step puts into the queue. */
  function Added(l: Label): seq<Task> {
    match l
    case QueueAttach(c) => [Attach(c)]
    case QueueDetach(c) => [Detach(c)]
    case QueueOther => [Other]
    case _ => []
  }

  /** The closures attach and detach, up to their module.update(). */
  function TakeTask(s: State, task: Task): State {
    match task
    case Other => s.(main := RunningOther)
    case Attach(c) =>
      if c !in s.clients || s.clients[c].id.None? then s
      else if s.clients[c].server in s.stopping then
        Put(s, c, s.clients[c].(attachDone := true))
      else if s.clients[c].id.value in s.specs then
        Put(s, c, s.clients[c].(attachDone := true, attachFailed := true))
      else
        s.(main := Attaching(c), specs := s.specs + {s.clients[c].id.value})
    case Detach(c) =>
      if c !in s.clients || s.clients[c].id.None? then s
      else if s.clients[c].id.value !in s.specs then
        Put(s, c, s.clients[c].(detachDone := true, detachFailed := true))
      else
        s.(main := Detaching(c), specs := s.specs - {s.clients[c].id.value})
  }

  /** module.update() has returned, or raised, and the rest of the task is done. */
  function AfterUpdate(s: State, ok: bool): State {
    match s.main
    case Attaching(c) =>
      if c !in s.clients || s.clients[c].id.None? then s
      else if ok then
        Put(s, c, s.clients[c].(attachDone := true, attached := true)).(main := Waiting)
      else
        s.(main := RollingBack(c), specs := s.specs - {s.clients[c].id.value})
    case RollingBack(c) =>
      if c !in s.clients then s
      else Put(s, c, s.clients[c].(attachDone := true, attachFailed := true)).(main := Waiting)
    case Detaching(c) =>
      if c !in s.clients then s
      else Put(s, c, s.clients[c].(detachDone := true, detachFailed := !ok)).(main := Waiting)
    case _ => s.(main := Waiting)
  }

  function Apply(s: State, l: Label): State
    requires Enabled(s, l)
  {
    if OfThread(l) then
      Put(s, l.c, Moved(s, l)).(queue := s.queue + Added(l), nextId := s.nextId + if l.Draw? then 1 else 0)
    else
      match l
      case PeerLeaves(c) => s.(eof := s.eof + {c})
      case QueueOther => s.(queue := s.queue + Added(l))
      case Take => TakeTask(s.(queue := s.queue[1..]), s.queue[0])
      case UpdateReturns(ok) => AfterUpdate(s, ok)
      case StartServer => s.(current := Some(s.started), started := s.started + 1)
      case StopServer =>
        var requests := Requests(s, s.current.value);
        s.(stopping := s.stopping + {s.current.value}, pending := requests, caught := s.caught + requests)
      case Interrupt(c) => s.(pending := s.pending - {c}, eof := s.eof + {c})
      case ServerGone => s.(current := None)
      case StopLoop => s.(loopStopping := true)
      case LoopExits => s.(main := Exited)
  }

  /** The state after a run; None if some label was not enabled. */
  function Run(s: State, run: seq<Label>): Option<State> {
    if run == [] then Some(s)
    else
      var last := |run| - 1;
      match Run(s, run[..last])
      case None => None
      case Some(t) => if Enabled(t, run[last]) then Some(Apply(t, run[last])) else None
  }

  // ---- The inductive invariant ----

  /** What the position of a reader thread says about its locals. */
  ghost predicate LocalsFit(k: Client) {
    match k.pc
    case Connected => k.id.None? && !k.attachDone && !k.attached && !k.attachFailed && !k.detachDone && !k.detachFailed
    case Admitted => k.id.None? && !k.attachDone && !k.attached && !k.attachFailed && !k.detachDone && !k.detachFailed
    case Named => k.id.Some? && !k.attachDone && !k.attached && !k.attachFailed && !k.detachDone && !k.detachFailed
    case AwaitingAttach =>
      && k.id.Some? && !k.detachDone && !k.detachFailed
      && (k.attached || k.attachFailed ==> k.attachDone) && !(k.attached && k.attachFailed)
    case Done =>
      && (k.attached ==> k.id.Some? && k.attachDone && !k.attachFailed)
      && (k.detachDone <==> k.attached) && (k.detachFailed ==> k.detachDone)
    case _ =>
      && k.id.Some? && k.attachDone && k.attached && !k.attachFailed
      && (k.detachDone ==> k.pc == AwaitingDetach) && (k.detachFailed ==> k.detachDone)
  }

  ghost predicate AttachPending(s: State, c: nat) {
    At(s, c, AwaitingAttach) && !s.clients[c].attachDone
  }

  ghost predicate DetachPending(s: State, c: nat) {
    At(s, c, AwaitingDetach) && !s.clients[c].detachDone
  }

  function One(b: bool): nat {
    if b then 1 else 0
  }

  /** A thread waits for exactly one task: still queued, or being carried out. */
  ghost predicate TasksFit(s: State, c: nat) {
    && multiset(s.queue)[Attach(c)] + One(s.main == Attaching(c) || s.main == RollingBack(c)) ==
      One(AttachPending(s, c))
    && multiset(s.queue)[Detach(c)] + One(s.main == Detaching(c)) == One(DetachPending(s, c))
  }

  /** c's wake lock is in force: attached, or while the attach is being carried out, until its detach
      task has run. */
  ghost predicate InForce(s: State, c: nat) {
    && c in s.clients && s.clients[c].id.Some?
    && ((s.clients[c].attached && !s.clients[c].detachDone && s.main != Detaching(c)) || s.main == Attaching(c))
  }

  ghost predicate HasId(s: State, c: nat, i: nat) {
    c in s.clients && s.clients[c].id == Some(i)
  }

  ghost predicate OwnsSpec(s: State, c: nat, i: nat) {
    InForce(s, c) && HasId(s, c, i)
  }

  ghost predicate IdsDistinct(s: State) {
    && 0 < s.nextId
    && (forall c, i: nat :: HasId(s, c, i) ==> 0 < i < s.nextId)
    && (forall c, d, i :: HasId(s, c, i) && HasId(s, d, i) ==> c == d)
  }

  ghost predicate SpecsExact(s: State) {
    && (forall c, i :: OwnsSpec(s, c, i) ==> i in s.specs)
    && (forall i :: i in s.specs ==> exists c :: OwnsSpec(s, c, i))
  }

  /** A stop interrupts every connection it has found. */
  ghost predicate Interrupted(s: State) {
    && s.caught <= s.eof + s.pending
    && s.pending <= s.caught
    && (!Busy(s) ==> s.pending == {})
  }

  /** The server a thread found is the one that accepted it or a later one. */
  ghost predicate ServersFit(s: State, k: Client) {
    k.accepted <= k.server < s.started
  }

  /** A thread that found its own server in service is found by that server's stop. */
  ghost predicate OwnStopCatches(s: State, c: nat) {
    c in s.clients && s.clients[c].pc != Connected && s.clients[c].pc != Done
    && s.clients[c].server == s.clients[c].accepted && s.clients[c].server in s.stopping ==>
      c in s.caught
  }

  /** One server at a time, the latest; all earlier ones have been stopped. */
  ghost predicate Generations(s: State) {
    && (s.current.Some? ==> s.current.value == s.started - 1)
    && (forall g :: 0 <= g < s.started ==> g in s.stopping || s.current == Some(g))
    && (forall c :: c in s.clients ==> ServersFit(s, s.clients[c]))
    && (forall c :: OwnStopCatches(s, c))
  }

  ghost predicate AllLocalsFit(s: State) {
    forall c :: c in s.clients ==> LocalsFit(s.clients[c])
  }

  ghost predicate AllTasksFit(s: State) {
    forall c: nat :: TasksFit(s, c)
  }

  ghost predicate Inv(s: State) {
    AllLocalsFit(s) && AllTasksFit(s) && IdsDistinct(s) && SpecsExact(s) && Interrupted(s) && Generations(s)
  }

  // ---- Which client a step is about; the others keep what they have ----

  /** The client a step changes, if it changes any. */
  function Subject(s: State, l: Label): Option<nat>
    requires Enabled(s, l)
  {
    if OfThread(l) then Some(l.c)
    else if l.Take? then (if s.queue[0].Other? then None else Some(s.queue[0].c))
    else if l.UpdateReturns? then (if s.main.RunningOther? then None else Some(s.main.c))
    else None
  }

  /** The step leaves c, and the main thread's dealings with c, alone. */
  ghost predicate Same(s: State, t: State, c: nat) {
    && (c in t.clients <==> c in s.clients) && (c in s.clients ==> t.clients[c] == s.clients[c])
    && (t.main == Attaching(c) <==> s.main == Attaching(c))
    && (t.main == RollingBack(c) <==> s.main == RollingBack(c))
    && (t.main == Detaching(c) <==> s.main == Detaching(c))
  }

  lemma OthersSame(s: State, l: Label, c: nat)
    requires Enabled(s, l) && Subject(s, l) != Some(c)
    ensures Same(s, Apply(s, l), c)
  {
    if OfThread(l) {
      ThreadLeaves(s, l, c);
    } else if l.Take? {
      TakeLeaves(s.(queue := s.queue[1..]), s.queue[0], c);
      hide TakeTask;
    } else if l.UpdateReturns? {
      ReturnLeaves(s, l.ok, c);
      hide AfterUpdate;
    }
  }

  lemma ThreadLeaves(s: State, l: Label, c: nat)
    requires Enabled(s, l) && OfThread(l) && l.c != c
    ensures Same(s, Apply(s, l), c)
  {
    hide Moved, Enabled;
  }

  lemma TakeLeaves(s: State, task: Task, c: nat)
    requires s.main == Waiting && (task.Other? || task.c != c)
    ensures Same(s, TakeTask(s, task), c)
  {
  }

  lemma ReturnLeaves(s: State, ok: bool, c: nat)
    requires Busy(s) && (s.main.RunningOther? || s.main.c != c)
    ensures Same(s, AfterUpdate(s, ok), c)
  {
  }

  lemma ThreadStep(s: State, l: Label)
    requires Enabled(s, l) && OfThread(l)
    ensures var t := Apply(s, l); l.c in t.clients && t.clients[l.c] == Moved(s, l) && t.main == s.main
  {
  }

  /** A thread's step touches the position, but for the id drawn and the server found. */
  lemma MovedOnly(s: State, l: Label)
    requires OfThread(l) && Enabled(s, l)
    ensures l.Connect? <==> l.c !in s.clients
    ensures l.Connect? ==>
      Moved(s, l) == Client(Moved(s, l).server, Moved(s, l).server, Connected, None, false, false, false, false, false)
    ensures !l.Connect? ==>
      Moved(s, l) == s.clients[l.c].(pc := Moved(s, l).pc,
                                     id := if l.Draw? then Some(s.nextId) else s.clients[l.c].id,
                                     server := if l.Admit? then Moved(s, l).server else s.clients[l.c].server)
  {
  }

  /** A task touches the flags that its closure sets for the thread. */
  ghost predicate OnlyFlags(s: State, t: State, c: nat) {
    && (c in t.clients <==> c in s.clients)
    && (c in s.clients ==>
          && t.clients[c].accepted == s.clients[c].accepted && t.clients[c].server ==
            s.clients[c].server && t.clients[c].pc == s.clients[c].pc
          && t.clients[c].id == s.clients[c].id)
  }

  lemma TakeTouchesFlags(s: State, task: Task, c: nat)
    ensures OnlyFlags(s, TakeTask(s, task), c)
  {
  }

  lemma ReturnTouchesFlags(s: State, ok: bool, c: nat)
    ensures OnlyFlags(s, AfterUpdate(s, ok), c)
  {
  }

  lemma TaskTouchesFlags(s: State, l: Label, c: nat)
    requires Enabled(s, l) && (l.Take? || l.UpdateReturns?)
    ensures OnlyFlags(s, Apply(s, l), c)
  {
    hide TakeTask, AfterUpdate;
    if l.Take? {
      TakeTouchesFlags(s.(queue := s.queue[1..]), s.queue[0], c);
    } else {
      ReturnTouchesFlags(s, l.ok, c);
    }
  }

  // ---- The locals ----

  lemma SubjectAwaits(s: State, l: Label, c: nat)
    requires AllLocalsFit(s) && AllTasksFit(s)
    requires Enabled(s, l) && (l.Take? || l.UpdateReturns?) && Subject(s, l) == Some(c)
    ensures c in s.clients && s.clients[c].id.Some?
    ensures l.Take? && s.queue[0].Attach? ==> AttachPending(s, c)
    ensures l.Take? && s.queue[0].Detach? ==> DetachPending(s, c)
    ensures l.UpdateReturns? && !s.main.Detaching? ==> AttachPending(s, c)
    ensures l.UpdateReturns? && s.main.Detaching? ==> DetachPending(s, c)
  {
    assert TasksFit(s, c);
    assert l.Take? ==> s.queue[0] in s.queue;
  }

  lemma MovedFits(s: State, l: Label)
    requires OfThread(l) && Enabled(s, l) && (l.c in s.clients ==> LocalsFit(s.clients[l.c]))
    ensures LocalsFit(Moved(s, l))
  {
  }

  lemma SubjectFits(s: State, l: Label, c: nat)
    requires AllLocalsFit(s) && AllTasksFit(s) && Enabled(s, l) && Subject(s, l) == Some(c)
    ensures c in Apply(s, l).clients ==> LocalsFit(Apply(s, l).clients[c])
  {
    if OfThread(l) {
      assert c in s.clients ==> LocalsFit(s.clients[c]);
      hide *;
      hide Subject;
      ThreadStep(s, l);
      MovedFits(s, l);
    } else {
      TaskFits(s, l, c);
    }
  }

  lemma TaskFits(s: State, l: Label, c: nat)
    requires AllLocalsFit(s) && AllTasksFit(s) && Enabled(s, l) && Subject(s, l) == Some(c) && !OfThread(l)
    ensures c in Apply(s, l).clients ==> LocalsFit(Apply(s, l).clients[c])
  {
    SubjectAwaits(s, l, c);
    hide AllTasksFit, AllLocalsFit;
  }

  lemma KeepsLocals(s: State, l: Label)
    requires AllLocalsFit(s) && AllTasksFit(s) && Enabled(s, l)
    ensures AllLocalsFit(Apply(s, l))
  {
    forall c: nat | c in Apply(s, l).clients ensures LocalsFit(Apply(s, l).clients[c]) {
      hide Enabled, Apply, Subject, AllTasksFit, LocalsFit;
      if Subject(s, l) == Some(c) {
        SubjectFits(s, l, c);
      } else {
        OthersSame(s, l, c);
      }
    }
  }

  // ---- The tasks ----

  lemma QueueAfter(s: State, l: Label)
    requires Enabled(s, l)
    ensures Apply(s, l).queue == if l.Take? then s.queue[1..] else s.queue + Added(l)
  {
  }

  lemma HeadCounts(queue: seq<Task>, t: Task)
    requires queue != []
    ensures multiset(queue[1..])[t] == multiset(queue)[t] - One(queue[0] == t)
  {
    assert queue == [queue[0]] + queue[1..];
  }

  lemma CountsAfter(s: State, l: Label, x: Task)
    requires Enabled(s, l)
    ensures multiset(Apply(s, l).queue)[x] ==
      if l.Take? then multiset(s.queue)[x] - One(s.queue[0] == x) else multiset(s.queue)[x] + multiset(Added(l))[x]
  {
    QueueAfter(s, l);
    hide Apply;
    if l.Take? {
      HeadCounts(s.queue, x);
    }
  }

  lemma KeepsTasks(s: State, l: Label)
    requires AllLocalsFit(s) && AllTasksFit(s) && Enabled(s, l)
    ensures AllTasksFit(Apply(s, l))
  {
    forall c: nat ensures TasksFit(Apply(s, l), c) {
      hide *;
      TaskKept(s, l, c);
    }
  }

  lemma TaskKept(s: State, l: Label, c: nat)
    requires AllLocalsFit(s) && AllTasksFit(s) && Enabled(s, l)
    ensures TasksFit(Apply(s, l), c)
  {
    hide *;
    if l.Take? {
      TaskKeptByTake(s, l, c);
    } else if l.UpdateReturns? {
      TaskKeptByReturn(s, l, c);
    } else {
      TaskKeptByThread(s, l, c);
    }
  }

  lemma TaskKeptByTake(s: State, l: Label, c: nat)
    requires AllLocalsFit(s) && AllTasksFit(s) && Enabled(s, l) && l.Take?
    ensures TasksFit(Apply(s, l), c)
  {
    hide *;
    if Subject(s, l) == Some(c) {
      TaskTaken(s, l, c);
    } else {
      OtherTaskTaken(s, l, c);
    }
  }

  lemma OtherTaskTaken(s: State, l: Label, c: nat)
    requires AllTasksFit(s) && Enabled(s, l) && l.Take? && Subject(s, l) != Some(c)
    ensures TasksFit(Apply(s, l), c)
  {
    CountsAfter(s, l, Attach(c));
    CountsAfter(s, l, Detach(c));
    OthersSame(s, l, c);
    assert TasksFit(s, c);
    hide AllTasksFit, Apply;
  }

  lemma TaskTaken(s: State, l: Label, c: nat)
    requires AllLocalsFit(s) && AllTasksFit(s) && Enabled(s, l) && l.Take? && Subject(s, l) == Some(c)
    ensures TasksFit(Apply(s, l), c)
  {
    CountsAfter(s, l, Attach(c));
    CountsAfter(s, l, Detach(c));
    SubjectAwaits(s, l, c);
    assert TasksFit(s, c);
    hide AllTasksFit, AllLocalsFit;
  }

  lemma TaskKeptByReturn(s: State, l: Label, c: nat)
    requires AllLocalsFit(s) && AllTasksFit(s) && Enabled(s, l) && l.UpdateReturns?
    ensures TasksFit(Apply(s, l), c)
  {
    hide *;
    if Subject(s, l) == Some(c) {
      TaskReturned(s, l, c);
    } else {
      OtherTaskReturned(s, l, c);
    }
  }

  lemma OtherTaskReturned(s: State, l: Label, c: nat)
    requires AllTasksFit(s) && Enabled(s, l) && l.UpdateReturns? && Subject(s, l) != Some(c)
    ensures TasksFit(Apply(s, l), c)
  {
    CountsAfter(s, l, Attach(c));
    CountsAfter(s, l, Detach(c));
    OthersSame(s, l, c);
    assert TasksFit(s, c);
    hide AllTasksFit, Apply;
  }

  lemma TaskReturned(s: State, l: Label, c: nat)
    requires AllLocalsFit(s) && AllTasksFit(s) && Enabled(s, l) && l.UpdateReturns? && Subject(s, l) == Some(c)
    ensures TasksFit(Apply(s, l), c)
  {
    CountsAfter(s, l, Attach(c));
    CountsAfter(s, l, Detach(c));
    SubjectAwaits(s, l, c);
    assert TasksFit(s, c);
    hide AllTasksFit, AllLocalsFit;
  }

  lemma MainAfter(s: State, l: Label)
    requires Enabled(s, l) && !l.Take? && !l.UpdateReturns?
    ensures Apply(s, l).main == if l.LoopExits? then Exited else s.main
    ensures l.LoopExits? ==> s.main == Waiting
  {
  }

  lemma PendingAfter(s: State, l: Label, c: nat)
    requires Enabled(s, l) && !l.Take? && !l.UpdateReturns? && (c in s.clients ==> LocalsFit(s.clients[c]))
    ensures AttachPending(Apply(s, l), c) <==> AttachPending(s, c) || l == QueueAttach(c)
    ensures DetachPending(Apply(s, l), c) <==> DetachPending(s, c) || l == QueueDetach(c)
    ensures l == QueueAttach(c) ==> !AttachPending(s, c)
    ensures l == QueueDetach(c) ==> !DetachPending(s, c)
  {
    if Subject(s, l) == Some(c) {
      ThreadStep(s, l);
      hide Apply;
    } else {
      OthersSame(s, l, c);
      hide Apply, Enabled, LocalsFit;
    }
  }

  lemma TaskKeptByThread(s: State, l: Label, c: nat)
    requires AllLocalsFit(s) && AllTasksFit(s) && Enabled(s, l) && !l.Take? && !l.UpdateReturns?
    ensures TasksFit(Apply(s, l), c)
  {
    CountsAfter(s, l, Attach(c));
    CountsAfter(s, l, Detach(c));
    MainAfter(s, l);
    PendingAfter(s, l, c);
    assert TasksFit(s, c);
    hide AllTasksFit, Apply, Enabled, LocalsFit, AttachPending, DetachPending;
  }

  // ---- The ids and the specs ----

  lemma IdsAfter(s: State, l: Label, c: nat, i: nat)
    requires AllLocalsFit(s) && Enabled(s, l)
    ensures HasId(Apply(s, l), c, i) <==> HasId(s, c, i) || (l == Draw(c) && i == s.nextId)
    ensures HasId(s, c, i) ==> l != Draw(c)
  {
    hide LocalsFit, AllLocalsFit;
    if Subject(s, l) != Some(c) {
      OthersSame(s, l, c);
      hide Apply, Enabled;
    } else if OfThread(l) {
      IdMoved(s, l);
      ThreadStep(s, l);
      hide Apply, Enabled;
    } else {
      TaskTouchesFlags(s, l, c);
      hide Apply, Enabled;
    }
  }

  lemma IdMoved(s: State, l: Label)
    requires AllLocalsFit(s) && Enabled(s, l) && OfThread(l)
    ensures l.c in s.clients && s.clients[l.c].id.Some? ==> !l.Draw? && Moved(s, l).id == s.clients[l.c].id
    ensures l.c !in s.clients || s.clients[l.c].id.None? ==> Moved(s, l).id == if l.Draw? then Some(s.nextId) else None
  {
    MovedOnly(s, l);
    hide Moved;
  }

  lemma NextIdAfter(s: State, l: Label)
    requires Enabled(s, l)
    ensures Apply(s, l).nextId == s.nextId + One(l.Draw?)
  {
  }

  lemma KeepsIds(s: State, l: Label)
    requires AllLocalsFit(s) && IdsDistinct(s) && Enabled(s, l)
    ensures IdsDistinct(Apply(s, l))
  {
    forall c, i: nat ensures HasId(Apply(s, l), c, i) <==> HasId(s, c, i) || (l == Draw(c) && i == s.nextId) {
      IdsAfter(s, l, c, i);
    }
    NextIdAfter(s, l);
    hide Enabled, Apply, HasId, AllLocalsFit;
  }

  /** The attach of c's lock is taken up. */
  ghost predicate Enters(s: State, l: Label, c: nat)
    requires Enabled(s, l)
  {
    && l.Take? && s.queue[0] == Attach(c) && c in s.clients && s.clients[c].id.Some?
    && s.clients[c].server !in s.stopping && s.clients[c].id.value !in s.specs
  }

  /** Its detach is taken up, or its attach fails. */
  ghost predicate Leaves(s: State, l: Label, c: nat)
    requires Enabled(s, l)
  {
    (l.Take? && s.queue[0] == Detach(c)) || (l == UpdateReturns(false) && s.main == Attaching(c))
  }

  /** Which locks a step puts in force or out of force. */
  lemma ForceAfter(s: State, l: Label, c: nat)
    requires AllLocalsFit(s) && AllTasksFit(s) && Enabled(s, l)
    ensures InForce(Apply(s, l), c) <==> (InForce(s, c) && !Leaves(s, l, c)) || Enters(s, l, c)
  {
    if Subject(s, l) != Some(c) {
      ForceAfterOther(s, l, c);
    } else if OfThread(l) {
      ForceAfterThread(s, l, c);
    } else if l.Take? {
      ForceAfterTake(s, l, c);
    } else {
      ForceAfterReturn(s, l, c);
    }
    hide *;
  }

  lemma ForceAfterThread(s: State, l: Label, c: nat)
    requires AllLocalsFit(s) && AllTasksFit(s) && Enabled(s, l) && OfThread(l) && l.c == c
    ensures InForce(Apply(s, l), c) <==> InForce(s, c)
    ensures !Enters(s, l, c) && !Leaves(s, l, c)
  {
    ThreadStep(s, l);
    MovedOnly(s, l);
    IdMoved(s, l);
    assert TasksFit(s, c);
    assert c in s.clients ==> LocalsFit(s.clients[c]);
    hide AllTasksFit, AllLocalsFit, Apply, Moved, Enabled;
  }

  lemma ForceAfterOther(s: State, l: Label, c: nat)
    requires Enabled(s, l) && Subject(s, l) != Some(c)
    ensures InForce(Apply(s, l), c) <==> InForce(s, c)
    ensures !Enters(s, l, c) && !Leaves(s, l, c)
  {
    OthersSame(s, l, c);
    hide Apply;
  }

  lemma ForceAfterTake(s: State, l: Label, c: nat)
    requires AllLocalsFit(s) && AllTasksFit(s) && Enabled(s, l) && l.Take? && Subject(s, l) == Some(c)
    ensures InForce(Apply(s, l), c) <==> (InForce(s, c) && !Leaves(s, l, c)) || Enters(s, l, c)
  {
    SubjectAwaits(s, l, c);
    hide AllTasksFit;
  }

  lemma ForceAfterReturn(s: State, l: Label, c: nat)
    requires AllLocalsFit(s) && AllTasksFit(s) && Enabled(s, l) && l.UpdateReturns? && Subject(s, l) == Some(c)
    ensures InForce(Apply(s, l), c) <==> (InForce(s, c) && !Leaves(s, l, c)) || Enters(s, l, c)
  {
    SubjectAwaits(s, l, c);
    hide AllTasksFit;
  }

  /** The specs gain what enters and lose what leaves. */
  lemma SpecsAfter(s: State, l: Label, i: nat)
    requires AllLocalsFit(s) && AllTasksFit(s) && Enabled(s, l)
    ensures i in Apply(s, l).specs <==>
      (i in s.specs && !(exists c :: Leaves(s, l, c) && HasId(s, c, i))) ||
        (exists c :: Enters(s, l, c) && HasId(s, c, i))
  {
    if (l.Take? || l.UpdateReturns?) && Subject(s, l).Some? {
      var c := Subject(s, l).value;
      SubjectAwaits(s, l, c);
      assert HasId(s, c, s.clients[c].id.value);
    }
    hide AllTasksFit, AllLocalsFit;
  }

  lemma OwnedPresent(s: State, l: Label, c: nat, i: nat)
    requires AllLocalsFit(s) && AllTasksFit(s) && IdsDistinct(s) && SpecsExact(s) && Enabled(s, l)
    requires OwnsSpec(Apply(s, l), c, i)
    ensures i in Apply(s, l).specs
  {
    ForceAfter(s, l, c);
    IdsAfter(s, l, c, i);
    SpecsAfter(s, l, i);
    assert InForce(s, c) ==> HasId(s, c, s.clients[c].id.value);
    assert Enters(s, l, c) ==> HasId(s, c, s.clients[c].id.value);
    if InForce(s, c) {
      IdsAfter(s, l, c, s.clients[c].id.value);
    }
    assert InForce(s, c) && HasId(s, c, i) ==> OwnsSpec(s, c, i);
    hide Apply, Enters, Leaves, AllLocalsFit, AllTasksFit, InForce;
  }

  lemma PresentOwned(s: State, l: Label, i: nat)
    requires AllLocalsFit(s) && AllTasksFit(s) && SpecsExact(s) && Enabled(s, l)
    requires i in Apply(s, l).specs
    ensures exists c :: OwnsSpec(Apply(s, l), c, i)
  {
    SpecsAfter(s, l, i);
    var c :| if exists c :: Enters(s, l, c) && HasId(s, c, i) then Enters(s, l, c) && HasId(s, c, i)
      else OwnsSpec(s, c, i);
    ForceAfter(s, l, c);
    IdsAfter(s, l, c, i);
    hide Apply, Enters, Leaves, AllLocalsFit, AllTasksFit, InForce;
    assert OwnsSpec(Apply(s, l), c, i);
  }

  lemma KeepsSpecs(s: State, l: Label)
    requires AllLocalsFit(s) && AllTasksFit(s) && IdsDistinct(s) && SpecsExact(s) && Enabled(s, l)
    ensures SpecsExact(Apply(s, l))
  {
    forall c, i: nat | OwnsSpec(Apply(s, l), c, i) ensures i in Apply(s, l).specs {
      hide *;
      OwnedPresent(s, l, c, i);
    }
    forall i | i in Apply(s, l).specs ensures exists c :: OwnsSpec(Apply(s, l), c, i) {
      hide *;
      PresentOwned(s, l, i);
    }
  }

  // ---- Interruption ----

  lemma KeepsInterrupted(s: State, l: Label)
    requires Interrupted(s) && Enabled(s, l)
    ensures Interrupted(Apply(s, l))
  {
  }

  lemma ServersKept(s: State, l: Label, c: nat)
    requires Generations(s) && Enabled(s, l) && c in Apply(s, l).clients
    ensures ServersFit(Apply(s, l), Apply(s, l).clients[c])
  {
    assert c in s.clients ==> ServersFit(s, s.clients[c]);
    ServersOnlyGrow(s, l);
    if Subject(s, l) != Some(c) {
      OthersSame(s, l, c);
      hide Apply, Enabled, Generations;
    } else if OfThread(l) {
      ThreadStep(s, l);
      hide Apply;
    } else {
      TaskTouchesFlags(s, l, c);
      hide Apply, Enabled, Generations;
    }
  }

  lemma OwnStopStillCatches(s: State, l: Label, c: nat)
    requires Generations(s) && Enabled(s, l)
    ensures OwnStopCatches(Apply(s, l), c)
  {
    assert OwnStopCatches(s, c);
    if Subject(s, l) != Some(c) {
      OthersSame(s, l, c);
      StoppingAfter(s, l, c);
      hide Apply, Enabled, Generations;
    } else if OfThread(l) {
      ThreadStep(s, l);
      hide Generations;
    } else {
      TaskTouchesFlags(s, l, c);
      StoppingAfter(s, l, c);
      hide Apply, Enabled, Generations;
    }
  }

  /** Servers come to be stopping by StopServer only, which catches what is in their requests. */
  lemma StoppingAfter(s: State, l: Label, c: nat)
    requires Enabled(s, l)
    ensures s.caught <= Apply(s, l).caught
    ensures c in s.clients && s.clients[c].pc != Done ==>
      s.clients[c].accepted in s.stopping || s.clients[c].accepted !in Apply(s, l).stopping || c in Apply(s, l).caught
  {
  }

  lemma ServersOnlyGrow(s: State, l: Label)
    requires Enabled(s, l)
    ensures s.stopping <= Apply(s, l).stopping && s.started <= Apply(s, l).started
  {
  }

  lemma KeepsGenerations(s: State, l: Label)
    requires Generations(s) && Enabled(s, l)
    ensures Generations(Apply(s, l))
  {
    forall c | c in Apply(s, l).clients ensures ServersFit(Apply(s, l), Apply(s, l).clients[c]) {
      hide *;
      ServersKept(s, l, c);
    }
    forall c ensures OwnStopCatches(Apply(s, l), c) {
      hide *;
      OwnStopStillCatches(s, l, c);
    }
    CurrentKept(s, l);
    hide Enabled, Apply, ServersFit, OwnStopCatches;
  }

  lemma CurrentKept(s: State, l: Label)
    requires Generations(s) && Enabled(s, l)
    ensures Apply(s, l).current.Some? ==> Apply(s, l).current.value == Apply(s, l).started - 1
    ensures forall g :: 0 <= g < Apply(s, l).started ==> g in Apply(s, l).stopping || Apply(s, l).current == Some(g)
  {
  }

  /** Every step of every thread keeps the invariant. */
  lemma KeepsInv(s: State, l: Label)
    requires Inv(s) && Enabled(s, l)
    ensures Inv(Apply(s, l))
  {
    hide AllLocalsFit, AllTasksFit, IdsDistinct, SpecsExact, Interrupted, Generations, Enabled, Apply;
    KeepsLocals(s, l);
    KeepsTasks(s, l);
    KeepsIds(s, l);
    KeepsSpecs(s, l);
    KeepsInterrupted(s, l);
    KeepsGenerations(s, l);
  }

  lemma InitiallyInv()
    ensures Inv(INITIAL)
  {
  }

  function Reached(run: seq<Label>): Option<State> {
    Run(INITIAL, run)
  }

  lemma {:induction false} InvKept(s: State, run: seq<Label>)
    requires Inv(s) && Run(s, run).Some?
    ensures Inv(Run(s, run).value)
  {
    hide Inv, Enabled, Apply;
    if run != [] {
      var before := run[..|run| - 1];
      InvKept(s, before);
      KeepsInv(Run(s, before).value, run[|run| - 1]);
    }
  }

  /** Any number of clients, any interleaving. */
  lemma InvAlways(run: seq<Label>)
    requires Reached(run).Some?
    ensures Inv(Reached(run).value)
  {
    InitiallyInv();
    InvKept(INITIAL, run);
  }

  // ---- What the protocol promises ----

  /** Between tasks, the wake locks among the sessions are exactly the attached ones whose detach has
      not run, and no two clients share one. */
  lemma WakeLocksExact(run: seq<Label>, i: nat)
    requires Reached(run).Some? && !Busy(Reached(run).value)
    ensures var s := Reached(run).value;
            i in s.specs <==> exists c :: HasId(s, c, i) && s.clients[c].attached && !s.clients[c].detachDone
    ensures var s := Reached(run).value; forall c, d :: HasId(s, c, i) && HasId(s, d, i) ==> c == d
  {
    InvAlways(run);
    var s := Reached(run).value;
    if i in s.specs {
      var c :| OwnsSpec(s, c, i);
    }
    if c :| HasId(s, c, i) && s.clients[c].attached && !s.clients[c].detachDone {
      assert OwnsSpec(s, c, i);
    }
  }

  /** The wake lock of a client that has been told so, until its detach task is taken up. */
  ghost predicate Promised(s: State, c: nat) {
    At(s, c, Acknowledging) || At(s, c, Holding) || At(s, c, Releasing)
    || (At(s, c, AwaitingDetach) && Detach(c) in s.queue)
  }

  /** The acknowledgement is written, and the lock held and released, only while its session is there. */
  lemma AcknowledgedWhilePresent(run: seq<Label>, c: nat)
    requires Reached(run).Some? && Promised(Reached(run).value, c)
    ensures var s := Reached(run).value;
            c in s.clients && s.clients[c].id.Some? && s.clients[c].id.value in s.specs
  {
    InvAlways(run);
    var s := Reached(run).value;
    assert TasksFit(s, c);
    assert LocalsFit(s.clients[c]);
    hide Inv;
    hide AllTasksFit;
    assert OwnsSpec(s, c, s.clients[c].id.value);
  }

  /** A session in session_specs: a wake lock, or any other. */
  datatype Session = WakeLockSession(id: nat) | OtherSession(name: string)

  /** What get_idle_since collects; a wake-lock session reports +inf. */
  function Readings(sessions: seq<Session>, other: string -> Idle.Time): (r: seq<Idle.Time>)
    ensures |r| == |sessions|
    ensures forall k :: 0 <= k < |r| ==> sessions[k].WakeLockSession? ==> r[k] == Idle.PosInf
  {
    seq(|sessions|, k requires 0 <= k < |sessions| =>
      match sessions[k] case WakeLockSession(_) => Idle.PosInf case OtherSession(name) => other(name))
  }

  /** Until the lock is released and unless the system is going to sleep, no other mix of sessions makes
      the system idle: every is_idle_for is answered no. */
  lemma HeldKeepsAwake(run: seq<Label>, c: nat, sessions: seq<Session>, other: string -> Idle.Time, now: real, n: int)
    requires Reached(run).Some? && Promised(Reached(run).value, c)
    requires forall i :: WakeLockSession(i) in sessions <==> i in Reached(run).value.specs
    ensures Idle.GetIdleSince(false, Readings(sessions, other)) == Idle.PosInf
    ensures !Idle.Lt(Idle.Fin(n as real), Idle.Since(now, Idle.GetIdleSince(false, Readings(sessions, other))))
  {
    AcknowledgedWhilePresent(run, c);
    var lock := WakeLockSession(Reached(run).value.clients[c].id.value);
    var k :| 0 <= k < |sessions| && sessions[k] == lock;
    assert Readings(sessions, other)[k] == Idle.PosInf;
    Idle.WakeLockKeepsAwake(Readings(sessions, other), now, n);
  }

  ghost predicate DetachQueued(s: State, c: nat) {
    c in s.clients && (s.clients[c].pc.AwaitingDetach? || (s.clients[c].pc.Done? && s.clients[c].attached))
  }

  lemma DetachQueuedAfter(s: State, l: Label, c: nat)
    requires AllLocalsFit(s) && AllTasksFit(s) && Enabled(s, l)
    ensures One(DetachQueued(Apply(s, l), c)) == One(DetachQueued(s, c)) + One(l == QueueDetach(c))
  {
    hide Enabled, Apply, AllLocalsFit, AllTasksFit;
    if Subject(s, l) != Some(c) {
      OthersSame(s, l, c);
    } else if OfThread(l) {
      hide DetachQueued, Subject;
      DetachQueuedByThread(s, l);
    } else {
      hide DetachQueued, Subject;
      DetachQueuedByTask(s, l, c);
    }
  }

  lemma DetachQueuedByThread(s: State, l: Label)
    requires AllLocalsFit(s) && Enabled(s, l) && OfThread(l)
    ensures One(DetachQueued(Apply(s, l), l.c)) == One(DetachQueued(s, l.c)) + One(l.QueueDetach?)
  {
    ThreadStep(s, l);
    assert l.c in s.clients ==> LocalsFit(s.clients[l.c]);
    hide Apply, AllLocalsFit;
  }

  lemma DetachQueuedByTask(s: State, l: Label, c: nat)
    requires AllLocalsFit(s) && AllTasksFit(s)
    requires Enabled(s, l) && (l.Take? || l.UpdateReturns?) && Subject(s, l) == Some(c)
    ensures DetachQueued(Apply(s, l), c) <==> DetachQueued(s, c)
  {
    SubjectAwaits(s, l, c);
    hide AllTasksFit;
  }

  lemma LastLabel(run: seq<Label>, l: Label)
    requires run != []
    ensures multiset(run)[l] == multiset(run[..|run| - 1])[l] + One(run[|run| - 1] == l)
  {
    assert run == run[..|run| - 1] + [run[|run| - 1]];
  }

  /** However its hold ends, an attached lock gets exactly one detach task; one never attached gets none. */
  lemma {:induction false} OneDetachTask(run: seq<Label>, c: nat)
    requires Reached(run).Some?
    ensures multiset(run)[QueueDetach(c)] == One(DetachQueued(Reached(run).value, c))
  {
    hide Enabled, Apply, DetachQueued;
    if run == [] {
      assert !DetachQueued(INITIAL, c) by { NothingQueued(c); }
    } else {
      var before := run[..|run| - 1];
      var s := Run(INITIAL, before).value;
      LastLabel(run, QueueDetach(c));
      OneDetachTask(before, c);
      InvAlways(before);
      DetachQueuedAfter(s, run[|run| - 1], c);
    }
  }

  lemma NothingQueued(c: nat)
    ensures !DetachQueued(INITIAL, c)
  {
  }

  lemma NothingInForce(s: State, d: nat)
    requires Inv(s) && (d in s.clients ==> s.clients[d].pc == Done)
    ensures !InForce(s, d)
  {
    assert TasksFit(s, d);
  }

  /** Once every thread is done, each lock that was attached has been detached and none is left. */
  lemma AllReleased(run: seq<Label>, c: nat)
    requires Reached(run).Some? && forall d :: d in Reached(run).value.clients ==>
      Reached(run).value.clients[d].pc == Done
    ensures var s := Reached(run).value;
            s.specs == {} && (c in s.clients ==> s.clients[c].detachDone == s.clients[c].attached)
  {
    InvAlways(run);
    var s := Reached(run).value;
    forall i | i in s.specs ensures false {
      var d :| OwnsSpec(s, d, i);
      assert false by { NothingInForce(s, d); }
    }
    assert c in s.clients ==> LocalsFit(s.clients[c]);
  }

  // ---- Every thread can finish ----

  /** A step of c's own thread, or of the main thread on its way through the queue. */
  predicate Onward(l: Label, c: nat) {
    || (OfThread(l) && !l.Connect? && l.c == c)
    || l.Take? || l == UpdateReturns(true) || l.Interrupt?
  }

  ghost predicate AllOnward(more: seq<Label>, c: nat) {
    forall k :: 0 <= k < |more| ==> Onward(more[k], c)
  }

  lemma {:induction false} RunCons(s: State, l: Label, rest: seq<Label>)
    requires Enabled(s, l)
    ensures Run(s, [l] + rest) == Run(Apply(s, l), rest)
  {
    hide Enabled, Apply;
    if rest == [] {
      assert ([l] + rest)[..0] == [];
    } else {
      var n := |rest| - 1;
      assert ([l] + rest)[..n + 1] == [l] + rest[..n];
      RunCons(s, l, rest[..n]);
    }
  }

  lemma {:induction false} RunConcat(s: State, a: seq<Label>, b: seq<Label>)
    requires Run(s, a).Some?
    ensures Run(s, a + b) == Run(Run(s, a).value, b)
  {
    hide Enabled, Apply;
    if b == [] {
      assert a + b == a;
    } else {
      var n := |b| - 1;
      assert (a + b)[..|a + b| - 1] == a + b[..n];
      RunConcat(s, a, b[..n]);
    }
  }

  /** How far c's thread has got, while it does not have to wait for its peer. */
  function StepsLeft(pc: Pc): nat {
    match pc
    case Connected => 8
    case Admitted => 7
    case Named => 6
    case AwaitingAttach => 5
    case Acknowledging => 4
    case Holding => 3
    case Releasing => 2
    case AwaitingDetach => 1
    case Done => 0
  }

  ghost predicate Unblocked(s: State, c: nat) {
    c in s.clients && s.main != Exited && (s.clients[c].pc == Holding ==> c in s.eof)
  }

  ghost predicate AwaitsTask(s: State, c: nat) {
    AttachPending(s, c) || DetachPending(s, c)
  }

  ghost predicate SameServers(s: State, t: State) {
    t.current == s.current && t.stopping == s.stopping && t.loopStopping == s.loopStopping
  }

  /** The main thread's next step through its queue. */
  lemma NextTask(s: State, c: nat) returns (l: Label)
    requires Inv(s) && s.main != Exited && (Busy(s) || s.queue != [])
    ensures Enabled(s, l) && Onward(l, c) && !OfThread(l)
    ensures l.Take? || l.UpdateReturns? || l.Interrupt?
  {
    if s.main == Waiting {
      l := Take;
    } else if p :| p in s.pending {
      l := Interrupt(p);
    } else {
      assert s.pending == {};
      l := UpdateReturns(true);
    }
  }

  /** Such a step comes closer to the end of the queue, and leaves the threads where they are. */
  lemma TaskProgress(s: State, l: Label, c: nat)
    requires Inv(s) && Enabled(s, l) && (l.Take? || l == UpdateReturns(true) || l.Interrupt?)
    ensures var t := Apply(s, l);
            && t.main != Exited && SameServers(s, t)
            && (c in t.clients <==> c in s.clients) && (c in s.clients ==> t.clients[c].pc == s.clients[c].pc)
            && (|| |t.queue| < |s.queue|
                || (|t.queue| == |s.queue| && Busy(s) && !Busy(t))
                || (|t.queue| == |s.queue| && Busy(s) == Busy(t) && |t.pending| < |s.pending|))
  {
    if !l.Interrupt? {
      TaskTouchesFlags(s, l, c);
    }
    MainProgress(s, l);
    hide Inv, Apply;
  }

  lemma MainProgress(s: State, l: Label)
    requires Inv(s) && Enabled(s, l) && (l.Take? || l == UpdateReturns(true) || l.Interrupt?)
    ensures var t := Apply(s, l);
            && t.main != Exited && SameServers(s, t) && (l.Interrupt? ==> t.clients == s.clients)
            && (|| |t.queue| < |s.queue|
                || (|t.queue| == |s.queue| && Busy(s) && !Busy(t))
                || (|t.queue| == |s.queue| && Busy(s) == Busy(t) && |t.pending| < |s.pending|))
  {
    hide AllLocalsFit, AllTasksFit, IdsDistinct, SpecsExact, Generations, Interrupted;
    if l.Take? {
      TakeShortens(s.(queue := s.queue[1..]), s.queue[0]);
      hide TakeTask;
    } else if l.UpdateReturns? {
      if !s.main.RunningOther? {
        SubjectAwaits(s, l, s.main.c);
      }
      hide Apply;
      ReturnEnds(s);
    }
  }

  lemma TakeShortens(s: State, task: Task)
    requires s.main == Waiting
    ensures TakeTask(s, task).queue == s.queue && TakeTask(s, task).main != Exited
    ensures SameServers(s, TakeTask(s, task))
  {
  }

  lemma ReturnEnds(s: State)
    requires Busy(s) && s.pending == {} && (!s.main.RunningOther? ==> s.main.c in s.clients)
    requires s.main.Attaching? ==> s.clients[s.main.c].id.Some?
    ensures var t := Apply(s, UpdateReturns(true));
            t.queue == s.queue && t.main == Waiting && SameServers(s, t)
  {
  }

  /** The main thread gets to the end of its queue, and the threads stay where they are. */
  lemma {:induction false} Drain(s: State, c: nat) returns (more: seq<Label>, t: State)
    requires Inv(s) && s.main != Exited
    ensures Run(s, more) == Some(t) && AllOnward(more, c) && Inv(t)
    ensures t.main == Waiting && t.queue == [] && t.pending == {} && SameServers(s, t)
    ensures c in t.clients <==> c in s.clients
    ensures c in s.clients ==> t.clients[c].pc == s.clients[c].pc && !AwaitsTask(t, c)
    decreases |s.queue|, Busy(s), |s.pending|
  {
    hide Inv, Enabled, Apply, AwaitsTask;
    if !Busy(s) && s.queue == [] {
      NoTaskLeft(s, c);
      return [], s;
    }
    var l := NextTask(s, c);
    KeepsInv(s, l);
    TaskProgress(s, l, c);
    var rest;
    rest, t := Drain(Apply(s, l), c);
    RunCons(s, l, rest);
    more := [l] + rest;
  }

  lemma TaskLeft(s: State, c: nat)
    requires Inv(s) && AwaitsTask(s, c)
    ensures Busy(s) || s.queue != []
  {
    assert TasksFit(s, c);
  }

  lemma NoTaskLeft(s: State, c: nat)
    requires Inv(s) && !Busy(s) && s.queue == []
    ensures !AwaitsTask(s, c) && s.pending == {}
  {
    assert TasksFit(s, c);
  }

  /** The next step of c's thread, once no task of its is outstanding: acknowledging an attached lock
      is taken to fail, as it does when the peer has gone. */
  lemma NextOfThread(s: State, c: nat) returns (l: Label)
    requires Inv(s) && Unblocked(s, c) && s.clients[c].pc != Done && !AwaitsTask(s, c)
    ensures Enabled(s, l) && Onward(l, c) && OfThread(l)
    ensures Moved(s, l).pc != Holding && StepsLeft(Moved(s, l).pc) < StepsLeft(s.clients[c].pc)
  {
    match s.clients[c].pc
    case Connected => l := if ServerAlive(s) then Admit(c) else TurnAway(c);
    case Admitted => l := Draw(c);
    case Named => l := QueueAttach(c);
    case AwaitingAttach => l := Proceed(c);
    case Acknowledging => l := AckFails(c);
    case Holding => l := HoldEnds(c);
    case Releasing => l := QueueDetach(c);
    case AwaitingDetach => l := Finish(c);
  }

  lemma {:induction false} CanFinish(s: State, c: nat) returns (more: seq<Label>, t: State)
    requires Inv(s) && Unblocked(s, c)
    ensures Run(s, more) == Some(t) && AllOnward(more, c) && Inv(t) && At(t, c, Done)
    decreases StepsLeft(s.clients[c].pc)
  {
    hide Inv, Enabled, AwaitsTask, Moved, Added;
    if s.clients[c].pc == Done {
      return [], s;
    }
    if AwaitsTask(s, c) {
      var drained, u := Drain(s, c);
      assert Unblocked(u, c) by { AwaitingUnblocked(s, c); }
      var l := NextOfThread(u, c);
      more, t := FinishAfter(u, c, l);
      RunConcat(s, drained, more);
      more := drained + more;
    } else {
      var l := NextOfThread(s, c);
      more, t := FinishAfter(s, c, l);
    }
  }

  lemma AwaitingUnblocked(s: State, c: nat)
    requires AwaitsTask(s, c)
    ensures s.clients[c].pc != Holding
  {
  }

  lemma {:induction false} FinishAfter(s: State, c: nat, l: Label) returns (more: seq<Label>, t: State)
    requires Inv(s) && Unblocked(s, c) && Enabled(s, l) && Onward(l, c) && OfThread(l)
    requires Moved(s, l).pc != Holding && StepsLeft(Moved(s, l).pc) < StepsLeft(s.clients[c].pc)
    ensures Run(s, more) == Some(t) && AllOnward(more, c) && Inv(t) && At(t, c, Done)
    decreases StepsLeft(s.clients[c].pc), 0
  {
    hide Inv, Enabled, Apply, Moved;
    ThreadStep(s, l);
    KeepsInv(s, l);
    var rest;
    rest, t := CanFinish(Apply(s, l), c);
    RunCons(s, l, rest);
    more := [l] + rest;
  }

  lemma AttachedStays(s: State, l: Label, c: nat)
    requires Enabled(s, l) && c in s.clients && s.clients[c].attached
    ensures c in Apply(s, l).clients && Apply(s, l).clients[c].attached
  {
    if Subject(s, l) != Some(c) {
      OthersSame(s, l, c);
      hide Apply, Enabled;
    } else if OfThread(l) {
      ThreadStep(s, l);
      MovedOnly(s, l);
      hide Apply, Moved;
    }
  }

  lemma {:induction false} StaysAttached(s: State, more: seq<Label>, c: nat)
    requires Run(s, more).Some? && c in s.clients && s.clients[c].attached
    ensures c in Run(s, more).value.clients && Run(s, more).value.clients[c].attached
  {
    hide Enabled, Apply;
    if more != [] {
      var before := more[..|more| - 1];
      StaysAttached(s, before, c);
      AttachedStays(Run(s, before).value, more[|more| - 1], c);
    }
  }

  /** As long as the loop has not exited, a lock is never held for good against its peer's or the
      server's will: steps of the thread and of the main thread alone can bring it to its end, and by
      then its detach task has been queued exactly once and its number is gone. */
  lemma Released(run: seq<Label>, c: nat) returns (more: seq<Label>)
    requires Reached(run).Some? && Unblocked(Reached(run).value, c)
    ensures Reached(run + more).Some? && AllOnward(more, c) && At(Reached(run + more).value, c, Done)
    ensures forall i :: HasId(Reached(run + more).value, c, i) ==> i !in Reached(run + more).value.specs
    ensures Reached(run).value.clients[c].attached ==> multiset(run + more)[QueueDetach(c)] == 1
  {
    InvAlways(run);
    var s, t := Reached(run).value, Reached(run).value;
    more, t := CanFinish(s, c);
    RunConcat(INITIAL, run, more);
    OneDetachTask(run + more, c);
    if s.clients[c].attached {
      StaysAttached(s, more, c);
    }
    DoneIsGone(t, c);
    hide Inv, Run, Enabled, Apply;
  }

  lemma PresentInForce(t: State, c: nat, i: nat)
    requires IdsDistinct(t) && SpecsExact(t)
    ensures HasId(t, c, i) && i in t.specs ==> InForce(t, c)
  {
    if HasId(t, c, i) && i in t.specs {
      var d :| OwnsSpec(t, d, i);
    }
  }

  /** A peer may leave at any time, and that is enough for the end of its hold. */
  lemma PeerEndsHold(run: seq<Label>, c: nat) returns (more: seq<Label>)
    requires Reached(run).Some? && Reached(run).value.main != Exited && c in Reached(run).value.clients
    ensures AllOnward(more, c) && Reached(run + [PeerLeaves(c)] + more).Some?
    ensures At(Reached(run + [PeerLeaves(c)] + more).value, c, Done)
    ensures forall i :: HasId(Reached(run + [PeerLeaves(c)] + more).value, c, i) ==>
      i !in Reached(run + [PeerLeaves(c)] + more).value.specs
  {
    var left := run + [PeerLeaves(c)];
    assert left[..|run|] == run;
    assert Unblocked(Reached(left).value, c);
    more := Released(left, c);
  }

  /** Once it has been told to stop, the event loop can come to its end: what is queued is done first. */
  lemma LoopEnds(run: seq<Label>) returns (run': seq<Label>)
    requires Reached(run).Some? && Reached(run).value.main != Exited && Reached(run).value.loopStopping
    ensures run <= run' && Reached(run').Some? && Reached(run').value.main == Exited
    ensures SameServers(Reached(run).value, Reached(run').value)
  {
    InvAlways(run);
    var more, t := Drain(Reached(run).value, 0);
    RunConcat(INITIAL, run, more);
    hide Inv, Run;
    run' := Extend(run + more, t, LoopExits);
  }

  lemma DoneIsGone(t: State, c: nat)
    requires Inv(t) && At(t, c, Done)
    ensures forall i :: HasId(t, c, i) ==> i !in t.specs
  {
    forall i ensures HasId(t, c, i) && i in t.specs ==> InForce(t, c) {
      PresentInForce(t, c, i);
    }
    NothingInForce(t, c);
    hide Inv;
  }

  /** Before the loop exits, nothing is stuck but for holders whose peer stays and whom no stop has caught:
      the thread itself or the main thread can go on. */
  lemma NotStuck(run: seq<Label>, c: nat)
    requires Reached(run).Some? && Reached(run).value.main != Exited
    requires c in Reached(run).value.clients && Reached(run).value.clients[c].pc != Done
    ensures (exists l :: Onward(l, c) && Enabled(Reached(run).value, l)) || At(Reached(run).value, c, Holding)
    ensures At(Reached(run).value, c, Holding) ==>
      (Enabled(Reached(run).value, HoldEnds(c)) <==> c in Reached(run).value.eof)
  {
    InvAlways(run);
    var s := Reached(run).value;
    hide Inv, Run;
    if Unblocked(s, c) {
      if AwaitsTask(s, c) {
        TaskLeft(s, c);
        var l := NextTask(s, c);
      } else {
        var l := NextOfThread(s, c);
      }
    }
  }

  /** Nothing comes into session_specs but the lock of a client that found a server not being stopped. */
  lemma AttachNeedsLiveServer(run: seq<Label>, l: Label, i: nat)
    requires Reached(run).Some? && Enabled(Reached(run).value, l)
    requires i in Apply(Reached(run).value, l).specs && i !in Reached(run).value.specs
    ensures var s := Reached(run).value;
            exists c :: HasId(s, c, i) && s.clients[c].server !in s.stopping &&
              s.clients[c].server !in Apply(s, l).stopping
  {
    InvAlways(run);
    SpecsAfter(Reached(run).value, l, i);
  }

  /** If c's attach has been taken up, then c had found a server outside stopped. */
  ghost predicate AttachedElsewhere(s: State, c: nat, stopped: set<nat>) {
    && stopped <= s.stopping
    && (c in s.clients && (s.clients[c].attached || s.main == Attaching(c)) ==> s.clients[c].server !in stopped)
  }

  lemma StaysElsewhere(s: State, l: Label, c: nat, stopped: set<nat>)
    requires AttachedElsewhere(s, c, stopped) && Inv(s) && Enabled(s, l)
    ensures AttachedElsewhere(Apply(s, l), c, stopped)
  {
    ServersOnlyGrow(s, l);
    if Subject(s, l) != Some(c) {
      OthersSame(s, l, c);
      hide Apply, Enabled, Inv;
    } else if OfThread(l) {
      ThreadStep(s, l);
      assert c in s.clients ==> LocalsFit(s.clients[c]);
      assert TasksFit(s, c);
      hide Apply, Inv;
    } else {
      TaskStaysElsewhere(s, l, c, stopped);
    }
  }

  lemma TaskStaysElsewhere(s: State, l: Label, c: nat, stopped: set<nat>)
    requires AttachedElsewhere(s, c, stopped) && Inv(s) && Enabled(s, l)
    requires (l.Take? || l.UpdateReturns?) && Subject(s, l) == Some(c)
    ensures AttachedElsewhere(Apply(s, l), c, stopped)
  {
    SubjectAwaits(s, l, c);
    hide Inv;
  }

  /** Once the stops of some servers have set their flags, whatever connection attaches afterwards,
      accepted by then or not, has found another server. */
  lemma {:induction false} NoAttachAfterStop(s: State, more: seq<Label>, c: nat, stopped: set<nat>)
    requires Inv(s) && AttachedElsewhere(s, c, stopped) && Run(s, more).Some?
    ensures AttachedElsewhere(Run(s, more).value, c, stopped)
  {
    hide Inv, Enabled, Apply, AttachedElsewhere;
    if more != [] {
      var before := more[..|more| - 1];
      NoAttachAfterStop(s, before, c, stopped);
      InvKept(s, before);
      StaysElsewhere(Run(s, before).value, more[|more| - 1], c, stopped);
    }
  }

  /** Whoever waits for the main thread has its task queued or being carried out; in particular the
      loop never exits on a waiting thread. */
  lemma WaitersServed(run: seq<Label>, c: nat)
    requires Reached(run).Some?
    ensures var s := Reached(run).value;
            && (AttachPending(s, c) <==> Attach(c) in s.queue || s.main == Attaching(c) || s.main == RollingBack(c))
            && (DetachPending(s, c) <==> Detach(c) in s.queue || s.main == Detaching(c))
            && (Enabled(s, LoopExits) ==> !AttachPending(s, c) && !DetachPending(s, c))
  {
    InvAlways(run);
    var s := Reached(run).value;
    assert TasksFit(s, c);
    hide Inv, Run;
    WaiterServed(s, c);
    hide AttachPending, DetachPending;
  }

  lemma WaiterServed(s: State, c: nat)
    requires TasksFit(s, c)
    ensures AttachPending(s, c) <==> Attach(c) in s.queue || s.main == Attaching(c) || s.main == RollingBack(c)
    ensures DetachPending(s, c) <==> Detach(c) in s.queue || s.main == Detaching(c)
  {
    assert Attach(c) in s.queue <==> Attach(c) in multiset(s.queue);
    assert Detach(c) in s.queue <==> Detach(c) in multiset(s.queue);
    hide AttachPending, DetachPending;
  }

  lemma EofAfter(s: State, l: Label, c: nat)
    requires Interrupted(s) && Enabled(s, l) && l != PeerLeaves(c) && (c in s.eof ==> c in s.caught)
    ensures c in Apply(s, l).eof ==> c in Apply(s, l).caught
  {
  }

  /** A read that ends without the peer's doing ends because a stop has caught the connection. */
  lemma {:induction false} EofCaught(run: seq<Label>, c: nat)
    requires Reached(run).Some? && PeerLeaves(c) !in run
    ensures c in Reached(run).value.eof ==> c in Reached(run).value.caught
  {
    if run != [] {
      var before := run[..|run| - 1];
      EofCaught(before, c);
      InvAlways(before);
      EofAfter(Reached(before).value, run[|run| - 1], c);
      hide Inv, Enabled, Apply;
    }
  }

  /** While its peer stays, and stops have interrupted what they found, a holder's read ends exactly if
      some stop of the server that accepted it came after it was accepted. */
  lemma StopEndsHolds(run: seq<Label>, c: nat)
    requires Reached(run).Some? && At(Reached(run).value, c, Holding) && Reached(run).value.pending == {}
    requires PeerLeaves(c) !in run
    ensures Enabled(Reached(run).value, HoldEnds(c)) <==> c in Reached(run).value.caught
  {
    InvAlways(run);
    EofCaught(run, c);
    hide Run;
  }

  /** A holder that has not been caught, although the server it found is being stopped, found a later
      server than the one that accepted it. */
  lemma UncaughtNeedsRestart(run: seq<Label>, c: nat)
    requires Reached(run).Some? && At(Reached(run).value, c, Holding) && c !in Reached(run).value.caught
    requires Reached(run).value.clients[c].server in Reached(run).value.stopping
    ensures Reached(run).value.clients[c].accepted < Reached(run).value.clients[c].server
  {
    InvAlways(run);
    var s := Reached(run).value;
    assert OwnStopCatches(s, c) && ServersFit(s, s.clients[c]);
    hide Run, Interrupted;
  }

  lemma {:induction false} OneServer(run: seq<Label>)
    requires Reached(run).Some? && StartServer !in run
    ensures Reached(run).value.started == 1
  {
    if run != [] {
      var before := run[..|run| - 1];
      OneServer(before);
      StartedAfter(Reached(before).value, run[|run| - 1]);
      hide Enabled, Apply;
    }
  }

  lemma StartedAfter(s: State, l: Label)
    requires Enabled(s, l) && !l.StartServer?
    ensures Apply(s, l).started == s.started
  {
  }

  /** Where the server module is never started anew, its stop ends every hold. */
  lemma OnlyStopEndsHolds(run: seq<Label>, c: nat)
    requires Reached(run).Some? && StartServer !in run
    requires At(Reached(run).value, c, Holding) && Reached(run).value.pending == {} && 0 in Reached(run).value.stopping
    ensures Enabled(Reached(run).value, HoldEnds(c))
  {
    InvAlways(run);
    OneServer(run);
    var s := Reached(run).value;
    assert OwnStopCatches(s, c) && ServersFit(s, s.clients[c]);
    hide Run;
  }

  lemma Extend(run: seq<Label>, s: State, l: Label) returns (run': seq<Label>)
    requires Reached(run) == Some(s) && Enabled(s, l)
    ensures Reached(run') == Some(Apply(s, l)) && run' == run + [l]
  {
    run' := run + [l];
    assert run'[..|run|] == run;
  }

  /** A step of c's own thread. */
  lemma ExtendThread(run: seq<Label>, s: State, l: Label, clients: map<nat, Client>, c: nat, k: Client)
      returns (run': seq<Label>)
    requires Reached(run) == Some(s) && OfThread(l) && l.c == c && Enabled(s, l)
    requires c in s.clients && s.clients == clients[c := s.clients[c]] && Moved(s, l) == k
    ensures run <= run' && Reached(run') ==
      Some(s.(clients := clients[c := k], queue := s.queue + Added(l), nextId := s.nextId + if l.Draw? then 1 else 0))
  {
    run' := Extend(run, s, l);
    assert s.clients[c := k] == clients[c := k];
    hide Moved, Enabled;
  }

  lemma TakeOther(run: seq<Label>, s: State) returns (run': seq<Label>)
    requires Reached(run) == Some(s) && s.main == Waiting && s.queue == []
    ensures run <= run' && Reached(run') == Some(s.(main := RunningOther))
  {
    run' := Extend(run, s, QueueOther);
    var t := s.(queue := [Other]);
    assert Apply(s, QueueOther) == t;
    run' := Extend(run', t, Take);
    assert t.queue[1..] == [];
  }

  /** A stop that finds no connection to interrupt. */
  lemma StopEmptyServer(run: seq<Label>, s: State) returns (run': seq<Label>)
    requires Reached(run) == Some(s) && s.main == RunningOther && s.pending == {} && s.current.Some?
    requires Requests(s, s.current.value) == {}
    ensures Reached(run') == Some(s.(stopping := s.stopping + {s.current.value}))
  {
    run' := Extend(run, s, StopServer);
    assert Apply(s, StopServer) == s.(stopping := s.stopping + {s.current.value});
  }

  /** The life of a wake lock up to its acknowledgement, undisturbed. */
  lemma Acquire(run: seq<Label>, s: State, c: nat) returns (run': seq<Label>)
    requires Reached(run) == Some(s) && s.main == Waiting && s.queue == [] && s.pending == {}
    requires At(s, c, Admitted) && s.clients[c].server !in s.stopping && s.nextId !in s.specs
    requires !s.clients[c].attachFailed
    ensures run <= run' && Reached(run') ==
      Some(s.(clients := s.clients[c := s.clients[c].(pc := Holding, id := Some(s.nextId), attachDone := true,
        attached := true)],
              specs := s.specs + {s.nextId}, nextId := s.nextId + 1))
  {
    hide Apply, Moved;
    run' := QueueAttachRun(run, s, c);
    var k := s.clients[c].(pc := AwaitingAttach, id := Some(s.nextId));
    var t := Put(s, c, k).(queue := [Attach(c)], nextId := s.nextId + 1);
    run' := AttachRun(run', t, s.clients, c);
    var u := t.(clients := s.clients[c := k.(attachDone := true, attached := true)], queue := [],
      specs := s.specs + {s.nextId});
    run' := AcknowledgeRun(run', u, s.clients, c);
  }

  lemma QueueAttachRun(run: seq<Label>, s: State, c: nat) returns (run': seq<Label>)
    requires Reached(run) == Some(s) && s.queue == [] && At(s, c, Admitted)
    ensures run <= run' && Reached(run') ==
      Some(Put(s, c, s.clients[c].(pc := AwaitingAttach, id := Some(s.nextId))).(queue := [Attach(c)],
        nextId := s.nextId + 1))
  {
    hide Run;
    var k := s.clients[c].(pc := Named, id := Some(s.nextId));
    run' := DrawRun(run, s, c);
    var t := Put(s, c, k).(nextId := s.nextId + 1);
    assert t.queue + Added(QueueAttach(c)) == [Attach(c)];
    run' := ExtendThread(run', t, QueueAttach(c), s.clients, c, k.(pc := AwaitingAttach));
    hide Apply, Moved, Enabled;
  }

  lemma DrawRun(run: seq<Label>, s: State, c: nat) returns (run': seq<Label>)
    requires Reached(run) == Some(s) && s.queue == [] && At(s, c, Admitted)
    ensures run <= run'
    ensures Reached(run') == Some(Put(s, c, s.clients[c].(pc := Named, id := Some(s.nextId))).(nextId := s.nextId + 1))
  {
    hide Run;
    assert s.clients == s.clients[c := s.clients[c]];
    run' := ExtendThread(run, s, Draw(c), s.clients, c, s.clients[c].(pc := Named, id := Some(s.nextId)));
    assert s.queue + Added(Draw(c)) == [];
    hide Apply, Moved, Enabled;
  }

  lemma AttachRun(run: seq<Label>, s: State, clients: map<nat, Client>, c: nat) returns (run': seq<Label>)
    requires Reached(run) == Some(s) && s.main == Waiting && s.queue == [Attach(c)] && s.pending == {}
    requires At(s, c, AwaitingAttach) && s.clients == clients[c := s.clients[c]]
    requires s.clients[c].id.Some? && s.clients[c].server !in s.stopping && s.clients[c].id.value !in s.specs
    ensures run <= run' && Reached(run') == Some(s.(
                                clients := clients[c := s.clients[c].(attachDone := true, attached := true)],
                                queue := [], specs := s.specs + {s.clients[c].id.value}))
  {
    run' := Extend(run, s, Take);
    var t := s.(queue := [], specs := s.specs + {s.clients[c].id.value}, main := Attaching(c));
    assert s.queue[1..] == [];
    assert Apply(s, Take) == t;
    run' := Extend(run', t, UpdateReturns(true));
    var k := s.clients[c].(attachDone := true, attached := true);
    assert t.clients[c := k] == clients[c := k];
    assert Apply(t, UpdateReturns(true)) == s.(clients := clients[c := k], queue := [], specs := t.specs);
  }

  lemma AcknowledgeRun(run: seq<Label>, s: State, clients: map<nat, Client>, c: nat) returns (run': seq<Label>)
    requires Reached(run) == Some(s) && At(s, c, AwaitingAttach) && s.clients == clients[c := s.clients[c]]
    requires s.clients[c].attachDone && s.clients[c].attached && !s.clients[c].attachFailed
    ensures run <= run' && Reached(run') == Some(s.(clients := clients[c := s.clients[c].(pc := Holding)]))
  {
    var k := s.clients[c];
    assert forall l :: Added(l) == [] ==> s.queue + Added(l) == s.queue;
    run' := ExtendThread(run, s, Proceed(c), clients, c, k.(pc := Acknowledging));
    var t := s.(clients := clients[c := k.(pc := Acknowledging)]);
    run' := ExtendThread(run', t, Acknowledge(c), clients, c, k.(pc := Holding));
    hide Apply;
  }

  lemma Restart(run: seq<Label>, s: State) returns (run': seq<Label>)
    requires Reached(run) == Some(s) && s.main == RunningOther && s.pending == {}
    requires s.current.Some? && s.current.value in s.stopping
    ensures Reached(run') == Some(s.(current := Some(s.started), started := s.started + 1, main := Waiting))
  {
    run' := Extend(run, s, ServerGone);
    run' := StartAnew(run', s.(current := None));
  }

  lemma StartAnew(run: seq<Label>, s: State) returns (run': seq<Label>)
    requires Reached(run) == Some(s) && s.main == RunningOther && s.pending == {} && s.current.None?
    ensures Reached(run') == Some(s.(current := Some(s.started), started := s.started + 1, main := Waiting))
  {
    run' := Extend(run, s, StartServer);
    run' := OtherReturns(run', s.(current := Some(s.started), started := s.started + 1));
  }

  lemma OtherReturns(run: seq<Label>, s: State) returns (run': seq<Label>)
    requires Reached(run) == Some(s) && s.main == RunningOther && s.pending == {}
    ensures Reached(run') == Some(s.(main := Waiting))
  {
    run' := Extend(run, s, UpdateReturns(true));
  }

  /** The server stops, accepts connection 7 all the same, and the module is started anew before the
      reader thread looks. */
  lemma LateAdmission() returns (run: seq<Label>)
    ensures Reached(run) ==
      Some(State(map[7 := Client(0, 1, Admitted, None, false, false, false, false, false)],
                 {}, 1, [], Waiting, Some(1), 2, {0}, {}, {}, {}, false))
  {
    var s := INITIAL;
    run := TakeOther([], s);
    s := s.(main := RunningOther);
    run := StopEmptyServer(run, s);
    assert s.stopping + {0} == {0};
    s := s.(stopping := {0});
    run := Extend(run, s, Connect(7));
    var k := Client(0, 0, Connected, None, false, false, false, false, false);
    assert Apply(s, Connect(7)) == s.(clients := map[7 := k]);
    s := s.(clients := map[7 := k]);
    run := Restart(run, s);
    s := s.(current := Some(1), started := 2, main := Waiting);
    run := ExtendThread(run, s, Admit(7), map[], 7, k.(pc := Admitted, server := 1));
    hide Apply;
  }

  lemma StopAgain(run: seq<Label>, s: State) returns (run': seq<Label>)
    requires Reached(run) == Some(s) && s.main == Waiting && s.queue == [] && s.pending == {}
    requires s.current.Some? && Requests(s, s.current.value) == {}
    ensures Reached(run') == Some(s.(main := RunningOther, stopping := s.stopping + {s.current.value}, current := None))
  {
    run' := TakeOther(run, s);
    var t := s.(main := RunningOther);
    run' := StopEmptyServer(run', t);
    var u := t.(stopping := s.stopping + {s.current.value});
    run' := Extend(run', u, ServerGone);
  }

  /** Such a connection's hold survives the next stop. */
  lemma LateHolderSurvives() returns (run: seq<Label>)
    ensures Reached(run).Some?
    ensures var s := Reached(run).value;
            && At(s, 7, Holding) && s.clients[7].server in s.stopping && s.pending == {} && s.current.None?
            && 7 !in s.caught && !Enabled(s, HoldEnds(7))
  {
    hide Run, Apply;
    run := LateAdmission();
    run := Acquire(run, Reached(run).value, 7);
    var s := Reached(run).value;
    assert Requests(s, 1) == {};
    run := StopAgain(run, s);
  }

  /** The closures never find session_specs other than they expect: an attach is never refused as
      already attached, a detach never as not attached. */
  lemma NeverRefused(run: seq<Label>, c: nat)
    requires Reached(run).Some?
    ensures var s := Reached(run).value;
            && (Attach(c) in s.queue ==> c in s.clients && s.clients[c].id.Some? && s.clients[c].id.value !in s.specs)
            && (Detach(c) in s.queue ==> c in s.clients && s.clients[c].id.Some? && s.clients[c].id.value in s.specs)
  {
    InvAlways(run);
    var s := Reached(run).value;
    hide Inv, Run;
    if Detach(c) in s.queue {
      TaskFound(s, Detach(c));
    }
    if Attach(c) in s.queue {
      TaskFound(s, Attach(c));
    }
  }

  // ---- What can always be had ----

  /** While a server is in service, a new client can get its lock: it need only connect. */
  lemma CanAcquire(run: seq<Label>, c: nat) returns (run': seq<Label>)
    requires Reached(run).Some? && ServerAlive(Reached(run).value) && Reached(run).value.main != Exited
    requires c !in Reached(run).value.clients
    ensures run <= run' && Reached(run').Some? && At(Reached(run').value, c, Holding)
    ensures exists i :: HasId(Reached(run').value, c, i) && i in Reached(run').value.specs
  {
    hide Run, Inv, Enabled, Apply;
    InvAlways(run);
    var more, s := Drain(Reached(run).value, c);
    RunConcat(INITIAL, run, more);
    run' := Enter(run + more, s, c);
    InvAlways(run');
    AcknowledgedWhilePresent(run', c);
    var t := Reached(run').value;
    assert HasId(t, c, t.clients[c].id.value);
  }

  lemma Enter(run: seq<Label>, s: State, c: nat) returns (run': seq<Label>)
    requires Reached(run) == Some(s) && Inv(s) && ServerAlive(s) && c !in s.clients
    requires s.main == Waiting && s.queue == [] && s.pending == {}
    ensures run <= run' && Reached(run').Some? && At(Reached(run').value, c, Holding)
  {
    var server := s.current.value;
    var k := Client(server, server, Connected, None, false, false, false, false, false);
    var t, u := s.(clients := s.clients[c := k]), s.(clients := s.clients[c := k.(pc := Admitted)]);
    run' := Extend(run, s, Connect(c));
    assert s.queue + Added(Connect(c)) == [] && Apply(s, Connect(c)) == t;
    run' := Extend(run', t, Admit(c));
    assert t.queue + Added(Admit(c)) == [] && t.clients[c := k.(pc := Admitted)] == u.clients;
    assert Apply(t, Admit(c)) == u;
    NextIdFree(s);
    hide Run, Apply, Enabled, Inv;
    run' := Acquire(run', u, c);
  }

  lemma NextIdFree(s: State)
    requires Inv(s)
    ensures s.nextId !in s.specs
  {
    forall i | i in s.specs ensures i < s.nextId {
      var c :| OwnsSpec(s, c, i);
      assert HasId(s, c, i);
    }
  }

  /** The daemon can always be stopped: the server goes out of service and the event loop comes to its end. */
  lemma CanStop(run: seq<Label>) returns (run': seq<Label>)
    requires Reached(run).Some? && Reached(run).value.main != Exited
    ensures run <= run' && Reached(run').Some? && Reached(run').value.main == Exited
    ensures !ServerAlive(Reached(run').value)
  {
    hide Run, Inv;
    InvAlways(run);
    var more, s := Drain(Reached(run).value, 0);
    RunConcat(INITIAL, run, more);
    run' := TakeOther(run + more, s);
    var t := s.(main := RunningOther);
    if s.current.Some? {
      run' := Extend(run', t, StopServer);
      t := Apply(t, StopServer);
    }
    run' := Extend(run', t, StopLoop);
    assert !ServerAlive(Apply(t, StopLoop));
    hide Apply, Enabled;
    run' := LoopEnds(run');
  }

  // ---- What the thread is told of failures ----

  /** c's attach or its roll-back has met the k-th step, an update that failed. */
  ghost predicate AttachUpdateFails(run: seq<Label>, k: nat, c: nat) {
    k < |run| && run[k] == UpdateReturns(false) && Reached(run[..k]).Some? && Reached(run[..k]).value.main ==
      Attaching(c)
  }

  ghost predicate DetachUpdateFails(run: seq<Label>, k: nat, c: nat) {
    k < |run| && run[k] == UpdateReturns(false) && Reached(run[..k]).Some? && Reached(run[..k]).value.main ==
      Detaching(c)
  }

  ghost predicate RollBackReturns(run: seq<Label>, k: nat, c: nat) {
    k < |run| && run[k].UpdateReturns? && Reached(run[..k]).Some? && Reached(run[..k]).value.main == RollingBack(c)
  }

  ghost predicate ToldOfAttach(s: State, c: nat) {
    c in s.clients && s.clients[c].attachFailed
  }

  /** The attach of c has failed, and its thread knows or is about to. */
  ghost predicate AttachFails(s: State, c: nat) {
    c in s.clients && (s.clients[c].attachFailed || s.main == RollingBack(c))
  }

  ghost predicate DetachFails(s: State, c: nat) {
    c in s.clients && s.clients[c].detachFailed
  }

  lemma FailuresAfter(s: State, l: Label, c: nat)
    requires Inv(s) && Enabled(s, l)
    ensures AttachFails(Apply(s, l), c) <==>
      AttachFails(s, c) || (l == UpdateReturns(false) && s.main == Attaching(c))
    ensures DetachFails(Apply(s, l), c) <==>
      DetachFails(s, c) || (l == UpdateReturns(false) && s.main == Detaching(c))
    ensures ToldOfAttach(Apply(s, l), c) <==>
      ToldOfAttach(s, c) || (l.UpdateReturns? && s.main == RollingBack(c))
  {
    hide Inv, Enabled, Apply;
    if Subject(s, l) != Some(c) {
      OthersSame(s, l, c);
      MainOfSubject(s, l, c);
    } else if OfThread(l) {
      hide Subject;
      FailuresAfterThread(s, l);
    } else if l.Take? {
      FailuresAfterTake(s, c);
    } else {
      FailuresAfterReturn(s, l, c);
    }
  }

  lemma MainOfSubject(s: State, l: Label, c: nat)
    requires Inv(s) && Enabled(s, l) && Subject(s, l) != Some(c)
    ensures l.UpdateReturns? ==> s.main != Attaching(c) && s.main != Detaching(c) && s.main != RollingBack(c)
  {
    hide Inv;
  }

  lemma FailuresAfterThread(s: State, l: Label)
    requires Inv(s) && Enabled(s, l) && OfThread(l)
    ensures AttachFails(Apply(s, l), l.c) == AttachFails(s, l.c) && DetachFails(Apply(s, l), l.c) == DetachFails(s, l.c)
    ensures ToldOfAttach(Apply(s, l), l.c) == ToldOfAttach(s, l.c)
  {
    ThreadStep(s, l);
    MovedOnly(s, l);
    assert TasksFit(s, l.c);
    hide Inv, Apply, Moved;
  }

  lemma FailuresAfterTake(s: State, c: nat)
    requires Inv(s) && Enabled(s, Take) && Subject(s, Take) == Some(c)
    ensures AttachFails(Apply(s, Take), c) == AttachFails(s, c) && DetachFails(Apply(s, Take), c) == DetachFails(s, c)
    ensures ToldOfAttach(Apply(s, Take), c) == ToldOfAttach(s, c)
  {
    SubjectAwaits(s, Take, c);
    var task := s.queue[0];
    assert task in s.queue;
    TaskFound(s, task);
    hide Inv;
  }

  /** What the closures find. */
  lemma TaskFound(s: State, task: Task)
    requires Inv(s) && task in s.queue && !task.Other?
    ensures task.c in s.clients && s.clients[task.c].id.Some?
    ensures task.Attach? <==> s.clients[task.c].id.value !in s.specs
  {
    var c := task.c;
    assert TasksFit(s, c) && (c in s.clients ==> LocalsFit(s.clients[c]));
    assert task in multiset(s.queue);
    hide AllTasksFit, AllLocalsFit, Generations, Interrupted;
    if task.Detach? {
      assert OwnsSpec(s, c, s.clients[c].id.value);
    } else {
      assert HasId(s, c, s.clients[c].id.value);
      assert forall d :: OwnsSpec(s, d, s.clients[c].id.value) ==> d == c;
    }
  }

  lemma FailuresAfterReturn(s: State, l: Label, c: nat)
    requires Inv(s) && Enabled(s, l) && l.UpdateReturns? && Subject(s, l) == Some(c)
    ensures AttachFails(Apply(s, l), c) <==>
      AttachFails(s, c) || (l == UpdateReturns(false) && s.main == Attaching(c))
    ensures DetachFails(Apply(s, l), c) <==>
      DetachFails(s, c) || (l == UpdateReturns(false) && s.main == Detaching(c))
    ensures ToldOfAttach(Apply(s, l), c) <==>
      ToldOfAttach(s, c) || (l.UpdateReturns? && s.main == RollingBack(c))
  {
    SubjectAwaits(s, l, c);
    assert LocalsFit(s.clients[c]);
    hide Inv;
  }

  lemma FailsEarlier(run: seq<Label>, k: nat, c: nat)
    requires k < |run| - 1
    ensures AttachUpdateFails(run, k, c) <==> AttachUpdateFails(run[..|run| - 1], k, c)
    ensures DetachUpdateFails(run, k, c) <==> DetachUpdateFails(run[..|run| - 1], k, c)
    ensures RollBackReturns(run, k, c) <==> RollBackReturns(run[..|run| - 1], k, c)
  {
    assert run[..|run| - 1][..k] == run[..k];
    hide Run;
  }

  /** A thread learns that its attach failed exactly if the update in it did, once the one that rolls it
      back has returned; and that its detach failed exactly if the update in that did. */
  lemma {:induction false} FailuresReported(run: seq<Label>, c: nat)
    requires Reached(run).Some?
    ensures AttachFails(Reached(run).value, c) <==> exists k: nat :: AttachUpdateFails(run, k, c)
    ensures DetachFails(Reached(run).value, c) <==> exists k: nat :: DetachUpdateFails(run, k, c)
    ensures ToldOfAttach(Reached(run).value, c) <==> exists k: nat :: RollBackReturns(run, k, c)
  {
    hide Inv, Enabled, Apply;
    if run == [] {
    } else {
      var last := |run| - 1;
      var before := run[..last];
      FailuresReported(before, c);
      InvAlways(before);
      FailuresAfter(Reached(before).value, run[last], c);
      forall k: nat | k < last
        ensures AttachUpdateFails(run, k, c) <==> AttachUpdateFails(before, k, c)
        ensures DetachUpdateFails(run, k, c) <==> DetachUpdateFails(before, k, c)
        ensures RollBackReturns(run, k, c) <==> RollBackReturns(before, k, c)
      {
        FailsEarlier(run, k, c);
      }
      assert forall k: nat :: AttachUpdateFails(before, k, c) || DetachUpdateFails(before, k, c) ==> k < last;
      assert forall k: nat :: RollBackReturns(before, k, c) ==> k < last;
      hide AttachFails, DetachFails, ToldOfAttach;
      assert RollBackReturns(run, last, c) <==>
        run[last].UpdateReturns? && Reached(before).value.main == RollingBack(c);
      assert AttachUpdateFails(run, last, c) <==>
        run[last] == UpdateReturns(false) && Reached(before).value.main == Attaching(c);
      assert DetachUpdateFails(run, last, c) <==>
        run[last] == UpdateReturns(false) && Reached(before).value.main == Detaching(c);
    }
  }

  /** Done with its attach, and c has neither a lock nor a failure. */
  ghost predicate Refused(s: State, c: nat) {
    c in s.clients && s.clients[c].attachDone && !s.clients[c].attached && !s.clients[c].attachFailed
  }

  ghost predicate RefusedByStop(s: State, c: nat) {
    Refused(s, c) ==> s.clients[c].server in s.stopping
  }

  lemma KeepsRefusedByStop(s: State, l: Label, c: nat)
    requires Inv(s) && Enabled(s, l) && RefusedByStop(s, c)
    ensures RefusedByStop(Apply(s, l), c)
  {
    ServersOnlyGrow(s, l);
    if Subject(s, l) != Some(c) {
      OthersSame(s, l, c);
      hide Apply, Enabled, Inv;
    } else if OfThread(l) {
      ThreadStep(s, l);
      MovedOnly(s, l);
      assert c in s.clients ==> LocalsFit(s.clients[c]);
      hide Apply, Inv, Moved;
    } else {
      SubjectAwaits(s, l, c);
      if l.Take? {
        assert s.queue[0] in s.queue;
        TaskFound(s, s.queue[0]);
      }
      hide Inv;
    }
  }

  /** Only a thread whose server is being stopped goes away without a lock and without being told of a failure. */
  lemma {:induction false} QuietlyRefused(run: seq<Label>, c: nat)
    requires Reached(run).Some?
    ensures Refused(Reached(run).value, c) ==> Reached(run).value.clients[c].server in Reached(run).value.stopping
  {
    hide Inv, Enabled, Apply;
    if run != [] {
      var before := run[..|run| - 1];
      InvAlways(before);
      QuietlyRefused(before, c);
      KeepsRefusedByStop(Reached(before).value, run[|run| - 1], c);
    }
  }
}
