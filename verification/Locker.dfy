/** The screen locker module: it learns of its process's exit from a notification that carries only
    the pid, and that may arrive long after the process has been replaced. */
module Locker {
  import opened Options

  /** How an attempt to spawn the locker goes: it does not come up, its inner process is gone by the
      time it is looked at, or it runs. */
  datatype Spawn = Fails | InnerGone(pid: int) | Runs(pid: int)

  datatype Outcome = Returned | Raised

  /** The module's own fields. */
  datatype Fields = Fields(innerPid: Option<int>, hasReader: bool)

  function Started(f: Fields, spawn: Spawn): Fields {
    if f.innerPid.Some? then f
    else match spawn
      case Fails => f
      case InnerGone(pid) => f.(innerPid := Some(pid))
      case Runs(pid) => Fields(Some(pid), true)
  }

  function Stopped(f: Fields): Fields {
    if f.innerPid.None? then f else Fields(None, false)
  }

  predicate Accepts(f: Fields, pid: int) {
    f.innerPid == Some(pid)
  }

  predicate StopRaises(f: Fields) {
    f.innerPid.Some? && !f.hasReader
  }

  class I3Lock {
    var innerPid: Option<int>
    var hasReader: bool

    function Value(): Fields
      reads this
    {
      Fields(innerPid, hasReader)
    }

    constructor ()
      ensures Value() == Fields(None, false)
    {
      innerPid, hasReader := None, false;
    }

    method Start(spawn: Spawn) returns (r: Outcome)
      modifies this
      ensures Value() == Started(old(Value()), spawn)
      ensures r == Returned <==> old(innerPid).Some? || spawn.Runs?
    {
      if innerPid.None? {
        match spawn
        case Fails => return Raised;
        case InnerGone(pid) =>
          innerPid := Some(pid);
          return Raised;
        case Runs(pid) =>
          innerPid := Some(pid);
          hasReader := true;
      }
      r := Returned;
    }

    /** Raises exactly if a pid was recorded but its reader thread never started. */
    method Stop() returns (r: Outcome)
      modifies this
      ensures Value() == Stopped(old(Value()))
      ensures r == Raised <==> StopRaises(old(Value()))
    {
      if innerPid.Some? {
        innerPid := None;
        if !hasReader {
          return Raised;
        }
        hasReader := false;
      }
      r := Returned;
    }

    method HandleExit(pid: int) returns (unlocks: bool)
      modifies this`innerPid
      ensures unlocks <==> Accepts(old(Value()), pid)
      ensures Value() == if unlocks then old(Value()).(innerPid := None) else old(Value())
    {
      if innerPid.None? {
        unlocks := false;
      } else if pid != innerPid.value {
        unlocks := false;
      } else {
        innerPid := None;
        unlocks := true;
      }
    }
  }

  // ---- The module among its processes and the event queue ----

  /** A process, or the notification of its exit: its pid, and which start it came from. */
  datatype Notice = Notice(pid: int, start: nat)

  datatype State = State(
    fields: Fields,
    live: set<Notice>,       // processes whose reader thread waits for their end
    queue: seq<Notice>,      // exit notifications the main loop has yet to handle
    starts: nat,             // successful starts so far
    current: Option<nat>,    // the latest start, while neither stopped nor seen to have exited
    stopped: set<nat>,       // starts that have been stopped
    unlocked: seq<nat>)      // starts whose exit has unlocked

  datatype Label = Start(spawn: Spawn) | Stop | Dies(process: Notice) | Deliver

  const INITIAL := State(Fields(None, false), {}, [], 0, None, {}, [])

  ghost predicate Outstanding(s: State, n: Notice) {
    n in s.live || n in s.queue
  }

  /** A new process has a pid that no process or queued notification of the module's has. */
  ghost predicate PidFree(s: State, pid: int) {
    forall n: Notice :: Outstanding(s, n) ==> n.pid != pid
  }

  /** Stop returns when the process it kills has gone and its reader thread has queued the notification. */
  ghost predicate Enabled(s: State, l: Label) {
    match l
    case Start(spawn) => s.fields.innerPid.None? && !spawn.Fails? ==> PidFree(s, spawn.pid)
    case Stop => forall n :: n in s.live ==> !Accepts(s.fields, n.pid)
    case Dies(process) => process in s.live
    case Deliver => s.queue != []
  }

  function Apply(s: State, l: Label): State {
    match l
    case Start(spawn) =>
      var t := s.(fields := Started(s.fields, spawn));
      if s.fields.innerPid.None? && spawn.Runs? then
        t.(live := s.live + {Notice(spawn.pid, s.starts)}, starts := s.starts + 1, current := Some(s.starts))
      else
        t
    case Stop =>
      s.(fields := Stopped(s.fields), current := None,
         stopped := s.stopped + if s.current.Some? then {s.current.value} else {})
    case Dies(process) => s.(live := s.live - {process}, queue := s.queue + [process])
    case Deliver =>
      if s.queue == [] then s
      else
        var n := s.queue[0];
        var t := s.(queue := s.queue[1..]);
        if Accepts(s.fields, n.pid) then
          t.(fields := s.fields.(innerPid := None), current := None, unlocked := s.unlocked + [n.start])
        else
          t
  }

  ghost predicate Legal(run: seq<Label>) {
    run == [] || (Legal(run[..|run| - 1]) && Enabled(Reached(run[..|run| - 1]), run[|run| - 1]))
  }

  function Reached(run: seq<Label>): State {
    if run == [] then INITIAL else Apply(Reached(run[..|run| - 1]), run[|run| - 1])
  }

  /** What HandleExit decides by pid is what it would decide by knowing the start. */
  ghost predicate PidTells(s: State) {
    forall n: Notice :: Outstanding(s, n) ==> (Accepts(s.fields, n.pid) <==> s.current == Some(n.start))
  }

  predicate Distinct(q: seq<nat>) {
    forall i, j :: 0 <= i < j < |q| ==> q[i] != q[j]
  }

  /** Every start not yet reported back is outstanding once, and either current or stopped. */
  ghost predicate StartsFit(s: State) {
    && (forall n: Notice :: Outstanding(s, n) ==> n.start < s.starts && n.start !in s.unlocked)
    && OnceEach(s.live, s.queue)
  }

  ghost predicate OnceEach(live: set<Notice>, queue: seq<Notice>) {
    && (forall i, j :: 0 <= i < j < |queue| ==> queue[i].start != queue[j].start)
    && (forall n, i :: n in live && 0 <= i < |queue| ==> n.start != queue[i].start)
    && (forall m, n :: m in live && n in live && m.start == n.start ==> m == n)
  }

  ghost predicate HistoryFits(s: State) {
    && Distinct(s.unlocked)
    && (forall i :: i in s.unlocked ==> i < s.starts && i !in s.stopped)
    && (forall i :: i in s.stopped ==> i < s.starts)
    && (s.current.Some? ==>
          && s.current.value == s.starts - 1 && s.current.value !in s.unlocked && s.current.value !in s.stopped
          && s.fields.innerPid.Some? && s.fields.hasReader)
  }

  ghost predicate Inv(s: State) {
    PidTells(s) && StartsFit(s) && HistoryFits(s)
  }

  lemma OutstandingAfter(s: State, l: Label, n: Notice)
    requires Enabled(s, l) && Outstanding(Apply(s, l), n)
    ensures Outstanding(s, n) ||
      (l.Start? && l.spawn.Runs? && s.fields.innerPid.None? && n == Notice(l.spawn.pid, s.starts))
  {
  }

  lemma KeepsPidTells(s: State, l: Label)
    requires Inv(s) && Enabled(s, l)
    ensures PidTells(Apply(s, l))
  {
    forall n: Notice | Outstanding(Apply(s, l), n)
      ensures Accepts(Apply(s, l).fields, n.pid) <==> Apply(s, l).current == Some(n.start)
    {
      OutstandingAfter(s, l, n);
      if l.Deliver? {
        assert Outstanding(s, s.queue[0]);
      }
    }
  }

  lemma KeepsStartsFit(s: State, l: Label)
    requires Inv(s) && Enabled(s, l)
    ensures StartsFit(Apply(s, l))
  {
    KeepsOnceEach(s, l);
    forall n: Notice | Outstanding(Apply(s, l), n)
      ensures n.start < Apply(s, l).starts && n.start !in Apply(s, l).unlocked
    {
      hide OnceEach, PidTells;
      OutstandingAfter(s, l, n);
      if l.Deliver? {
        assert Outstanding(s, s.queue[0]);
        HeadGone(s, n);
      }
      hide Outstanding;
    }
  }

  lemma HeadGone(s: State, n: Notice)
    requires s.queue != [] && OnceEach(s.live, s.queue) && Outstanding(Apply(s, Deliver), n)
    ensures n.start != s.queue[0].start
  {
  }

  lemma KeepsOnceEach(s: State, l: Label)
    requires StartsFit(s) && Enabled(s, l)
    ensures OnceEach(Apply(s, l).live, Apply(s, l).queue)
  {
    match l
    case Start(_) =>
      assert forall i :: 0 <= i < |s.queue| ==> Outstanding(s, s.queue[i]);
      hide Enabled;
    case Dies(process) =>
    case _ =>
  }

  lemma KeepsHistory(s: State, l: Label)
    requires Inv(s) && Enabled(s, l)
    ensures HistoryFits(Apply(s, l))
  {
    if l.Deliver? {
      assert Outstanding(s, s.queue[0]);
    }
  }

  lemma {:induction false} InvAlways(run: seq<Label>)
    requires Legal(run)
    ensures Inv(Reached(run))
  {
    hide Inv, Enabled, Apply;
    if run == [] {
      assert Inv(INITIAL) by { InitiallyInv(); }
    } else {
      var before := run[..|run| - 1];
      InvAlways(before);
      KeepsInv(Reached(before), run[|run| - 1]);
    }
  }

  lemma InitiallyInv()
    ensures Inv(INITIAL)
  {
  }

  lemma KeepsInv(s: State, l: Label)
    requires Inv(s) && Enabled(s, l)
    ensures Inv(Apply(s, l))
  {
    KeepsPidTells(s, l);
    KeepsStartsFit(s, l);
    KeepsHistory(s, l);
  }

  /** Over any interleaving of starts, stops, deaths and notifications: the notification handled next
      unlocks if and only if it comes from the latest start and that has not been stopped; no start
      unlocks twice, and none that has been stopped. */
  lemma {:induction false} StaleExitsHarmless(run: seq<Label>)
    requires Legal(run)
    ensures var s := Reached(run);
            s.queue != [] ==>
              Apply(s, Deliver).unlocked == if s.current == Some(s.queue[0].start)
                then s.unlocked + [s.queue[0].start] else s.unlocked
    ensures var s := Reached(run); s.current.Some? ==> s.current.value == s.starts - 1
    ensures Distinct(Reached(run).unlocked) && forall i :: i in Reached(run).unlocked ==> i !in Reached(run).stopped
  {
    InvAlways(run);
    var s := Reached(run);
    assert s.queue != [] ==> Outstanding(s, s.queue[0]);
  }

  /** The pid stays a sufficient test exactly if the new process's pid is free. */
  lemma {:induction false} PidReuseConfuses(run: seq<Label>, pid: int)
    requires Legal(run) && Reached(run).fields.innerPid.None?
    ensures PidTells(Apply(Reached(run), Start(Runs(pid)))) <==> PidFree(Reached(run), pid)
  {
    InvAlways(run);
    var s := Reached(run);
    var t := Apply(s, Start(Runs(pid)));
    if PidFree(s, pid) {
      KeepsPidTells(s, Start(Runs(pid)));
    } else {
      var n: Notice :| Outstanding(s, n) && n.pid == pid;
      assert Outstanding(t, n) && n.start != s.starts;
    }
  }

  // ---- The exit of the locker does unlock ----

  /** The latest start, while neither stopped nor seen to have exited, still has its notification to come. */
  ghost predicate CurrentOutstanding(s: State) {
    s.current.Some? ==> exists n :: Outstanding(s, n) && n.start == s.current.value
  }

  lemma KeepsCurrentOutstanding(s: State, l: Label)
    requires Inv(s) && CurrentOutstanding(s) && Enabled(s, l)
    ensures CurrentOutstanding(Apply(s, l))
  {
    var t := Apply(s, l);
    if t.current.Some? {
      if l.Start? && s.fields.innerPid.None? && l.spawn.Runs? {
        assert Outstanding(t, Notice(l.spawn.pid, s.starts));
      } else {
        assert t.current == s.current;
        var n :| Outstanding(s, n) && n.start == s.current.value;
        if l.Deliver? {
          assert Outstanding(s, s.queue[0]);
          assert s.queue == [s.queue[0]] + s.queue[1..];
        }
        assert Outstanding(t, n);
      }
    }
    hide StartsFit, HistoryFits;
  }

  lemma {:induction false} CurrentAlwaysOutstanding(run: seq<Label>)
    requires Legal(run)
    ensures CurrentOutstanding(Reached(run))
  {
    hide Inv, Enabled, Apply, CurrentOutstanding;
    if run == [] {
      assert CurrentOutstanding(INITIAL) by { NothingCurrent(); }
    } else {
      var before := run[..|run| - 1];
      CurrentAlwaysOutstanding(before);
      InvAlways(before);
      KeepsCurrentOutstanding(Reached(before), run[|run| - 1]);
    }
  }

  lemma NothingCurrent()
    ensures CurrentOutstanding(INITIAL)
  {
  }

  /** Handling what was queued before the k-th notification, which is the latest start's. */
  lemma {:induction false} Delivered(run: seq<Label>, k: nat) returns (run': seq<Label>)
    requires Legal(run) && k < |Reached(run).queue| && Reached(run).current == Some(Reached(run).queue[k].start)
    ensures Legal(run') && run <= run' && forall j :: |run| <= j < |run'| ==> run'[j].Deliver?
    ensures Reached(run').unlocked == Reached(run).unlocked + [Reached(run).queue[k].start]
    ensures Reached(run').fields.innerPid.None?
    decreases k
  {
    var s := Reached(run);
    StaleExitsHarmless(run);
    InvAlways(run);
    assert Outstanding(s, s.queue[0]);
    ReachedStep(run, Deliver, s);
    if k > 0 {
      assert s.queue[0].start != s.queue[k].start;
      hide Inv, Legal, Reached;
      run' := Delivered(run + [Deliver], k - 1);
    } else {
      run' := run + [Deliver];
    }
  }

  /** Once the locker that was started last and not stopped is gone, its exit unlocks: the death and the
      handling of what is queued are all it takes. */
  lemma ExitUnlocks(run: seq<Label>) returns (run': seq<Label>)
    requires Legal(run) && Reached(run).current.Some?
    ensures Legal(run') && run <= run' && forall j :: |run| <= j < |run'| ==> run'[j].Dies? || run'[j].Deliver?
    ensures Reached(run').unlocked == Reached(run).unlocked + [Reached(run).current.value]
    ensures Reached(run').fields.innerPid.None?
  {
    CurrentAlwaysOutstanding(run);
    var s := Reached(run);
    var n :| Outstanding(s, n) && n.start == s.current.value;
    hide Legal, Reached;
    if n in s.live {
      ReachedStep(run, Dies(n), s);
      assert Apply(s, Dies(n)).queue[|s.queue|] == n;
      run' := Delivered(run + [Dies(n)], |s.queue|);
    } else {
      var k :| 0 <= k < |s.queue| && s.queue[k] == n;
      run' := Delivered(run, k);
    }
  }

  // ---- When a stop raises ----

  /** A start that finds no pid recorded. */
  predicate Starts(s: State, l: Label) {
    l.Start? && s.fields.innerPid.None?
  }

  /** A stop of what is recorded as running. */
  predicate Stops(s: State, l: Label) {
    l.Stop? && s.fields.innerPid.Some?
  }

  /** What clears the pid: such a stop, or an exit notification that is accepted. */
  predicate Clears(s: State, l: Label) {
    Stops(s, l) || (l.Deliver? && s.queue != [] && Accepts(s.fields, s.queue[0].pid))
  }

  lemma ReaderAfter(s: State, l: Label)
    ensures Apply(s, l).fields.hasReader <==> (s.fields.hasReader && !Stops(s, l)) || (Starts(s, l) && l.spawn.Runs?)
  {
  }

  lemma PidAfter(s: State, l: Label)
    ensures Apply(s, l).fields.innerPid.Some? <==>
      (s.fields.innerPid.Some? && !Clears(s, l)) || (Starts(s, l) && !l.spawn.Fails?)
  {
  }

  predicate StartsAt(run: seq<Label>, k: nat) {
    k < |run| && Starts(Reached(run[..k]), run[k])
  }

  predicate StopsAt(run: seq<Label>, k: nat) {
    k < |run| && Stops(Reached(run[..k]), run[k])
  }

  predicate ClearsAt(run: seq<Label>, k: nat) {
    k < |run| && Clears(Reached(run[..k]), run[k])
  }

  /** The locker came up at step k, and no stop has taken effect since. */
  ghost predicate CameUpSinceStop(run: seq<Label>, k: nat) {
    StartsAt(run, k) && run[k].spawn.Runs? && forall j :: k < j < |run| ==> !StopsAt(run, j)
  }

  /** The start at step k recorded a pid, and nothing has cleared it since. */
  ghost predicate PidHeld(run: seq<Label>, k: nat) {
    StartsAt(run, k) && !run[k].spawn.Fails? && forall j :: k < j < |run| ==> !ClearsAt(run, j)
  }

  lemma PrefixAgrees(run: seq<Label>, k: nat)
    requires k < |run| - 1
    ensures StartsAt(run, k) <==> StartsAt(run[..|run| - 1], k)
    ensures StopsAt(run, k) <==> StopsAt(run[..|run| - 1], k)
    ensures ClearsAt(run, k) <==> ClearsAt(run[..|run| - 1], k)
  {
    assert run[..|run| - 1][..k] == run[..k];
  }

  lemma CameUpBefore(run: seq<Label>, k: nat)
    requires k < |run| - 1
    ensures CameUpSinceStop(run, k) <==> CameUpSinceStop(run[..|run| - 1], k) && !StopsAt(run, |run| - 1)
  {
    var before := run[..|run| - 1];
    PrefixAgrees(run, k);
    assert run[k] == before[k];
    forall j: nat | k < j < |before| && StopsAt(before, j) ensures StopsAt(run, j) {
      PrefixAgrees(run, j);
    }
    forall j: nat | k < j < |before| && StopsAt(run, j) ensures StopsAt(before, j) {
      PrefixAgrees(run, j);
    }
    hide StartsAt, StopsAt;
  }

  lemma HeldBefore(run: seq<Label>, k: nat)
    requires k < |run| - 1
    ensures PidHeld(run, k) <==> PidHeld(run[..|run| - 1], k) && !ClearsAt(run, |run| - 1)
  {
    var before := run[..|run| - 1];
    PrefixAgrees(run, k);
    assert run[k] == before[k];
    forall j: nat | k < j < |before| && ClearsAt(before, j) ensures ClearsAt(run, j) {
      PrefixAgrees(run, j);
    }
    forall j: nat | k < j < |before| && ClearsAt(run, j) ensures ClearsAt(before, j) {
      PrefixAgrees(run, j);
    }
    hide StartsAt, ClearsAt;
  }

  lemma {:induction false} ReaderOverRuns(run: seq<Label>)
    ensures Reached(run).fields.hasReader <==> exists k: nat :: CameUpSinceStop(run, k)
  {
    if run != [] {
      var last := |run| - 1;
      var before := run[..last];
      ReaderOverRuns(before);
      forall k: nat | k < last ensures CameUpSinceStop(run, k) <==> CameUpSinceStop(before, k) && !StopsAt(run, last) {
        CameUpBefore(run, k);
      }
      assert forall k: nat :: CameUpSinceStop(before, k) ==> k < last;
      ReaderAfter(Reached(before), run[last]);
      hide Apply, Starts, Stops;
      assert CameUpSinceStop(run, last) <==> StartsAt(run, last) && run[last].spawn.Runs?;
    }
  }

  lemma {:induction false} PidOverRuns(run: seq<Label>)
    ensures Reached(run).fields.innerPid.Some? <==> exists k: nat :: PidHeld(run, k)
  {
    if run != [] {
      var last := |run| - 1;
      var before := run[..last];
      PidOverRuns(before);
      forall k: nat | k < last ensures PidHeld(run, k) <==> PidHeld(before, k) && !ClearsAt(run, last) {
        HeldBefore(run, k);
      }
      assert forall k: nat :: PidHeld(before, k) ==> k < last;
      PidAfter(Reached(before), run[last]);
      hide Apply, Starts, Clears;
      assert PidHeld(run, last) <==> StartsAt(run, last) && !run[last].spawn.Fails?;
    }
  }

  /** The start in force lost its inner process. */
  ghost predicate LostHeld(run: seq<Label>, k: nat) {
    PidHeld(run, k) && run[k].spawn.InnerGone?
  }

  /** After any run, a stop raises exactly if the start in force lost its inner process and no locker
      has come up since the last stop that took effect. */
  lemma StopRaisesExactly(run: seq<Label>)
    ensures StopRaises(Reached(run).fields) <==>
      (exists k: nat :: LostHeld(run, k)) && !(exists k: nat :: CameUpSinceStop(run, k))
  {
    ReaderOverRuns(run);
    PidOverRuns(run);
    if k: nat :| PidHeld(run, k) {
      HeldMeans(run, k);
    }
    hide PidHeld, CameUpSinceStop, Reached;
  }

  lemma HeldMeans(run: seq<Label>, k: nat)
    requires PidHeld(run, k)
    ensures LostHeld(run, k) || CameUpSinceStop(run, k)
  {
    assert forall j: nat :: StopsAt(run, j) ==> ClearsAt(run, j);
  }

  /** A lost process alone makes the next stop raise; after a locker that has exited by itself it does not. */
  lemma LostProcessRuns()
    ensures Legal([Start(InnerGone(6))]) && StopRaises(Reached([Start(InnerGone(6))]).fields)
    ensures var run := [Start(Runs(5)), Dies(Notice(5, 0)), Deliver, Start(InnerGone(6))];
            Legal(run) && Reached(run).fields == Fields(Some(6), true)
  {
    var n := Notice(5, 0);
    assert [Start(InnerGone(6))][..0] == [];
    ReachedStep([], Start(Runs(5)), INITIAL);
    var s := State(Fields(Some(5), true), {n}, [], 1, Some(0), {}, []);
    ReachedStep([Start(Runs(5))], Dies(n), s);
    var t := State(Fields(Some(5), true), {}, [n], 1, Some(0), {}, []);
    assert Apply(s, Dies(n)) == t;
    assert [Start(Runs(5))] + [Dies(n)] == [Start(Runs(5)), Dies(n)];
    ReachedStep([Start(Runs(5)), Dies(n)], Deliver, t);
    var u := State(Fields(None, true), {}, [], 1, None, {}, [0]);
    assert Apply(t, Deliver) == u;
    assert [Start(Runs(5)), Dies(n)] + [Deliver] == [Start(Runs(5)), Dies(n), Deliver];
    ReachedStep([Start(Runs(5)), Dies(n), Deliver], Start(InnerGone(6)), u);
    assert [Start(Runs(5)), Dies(n), Deliver] + [Start(InnerGone(6))]
        == [Start(Runs(5)), Dies(n), Deliver, Start(InnerGone(6))];
  }

  lemma ReachedStep(run: seq<Label>, l: Label, s: State)
    requires Legal(run) && Reached(run) == s && Enabled(s, l)
    ensures Legal(run + [l]) && Reached(run + [l]) == Apply(s, l)
  {
    assert (run + [l])[..|run|] == run;
  }

  /** Stopping the latest start never fails: a stop raises only where the inner process was lost. */
  lemma {:induction false} StopOfRunningReturns(run: seq<Label>)
    requires Legal(run)
    ensures Reached(run).current.Some? ==> Reached(run).fields.innerPid.Some? && Reached(run).fields.hasReader
  {
    InvAlways(run);
  }
}
