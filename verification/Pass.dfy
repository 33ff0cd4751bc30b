/** One pass of `start_stop_modules` over modules whose hooks do not call back into the daemon:
    it is the three-phase batch below, and the instance table always names what is in force. */
module Pass {
  import opened Specs
  import opened Steps

  datatype Hooks = Hooks(
    reconfigure: (Spec, Spec) -> Answer,
    stopFails: Spec -> bool,
    startFails: Spec -> bool
  )

  datatype Event =
    | Reconfigured(from: Spec, to: Spec)
    | ReconfigureFailed(from: Spec, to: Spec)
    | Stopped(spec: Spec)
    | StopFailed(spec: Spec)
    | Started(spec: Spec)
    | StartFailed(spec: Spec)

  datatype Progress = KeepGoing | NoMoreWork | HookRaised

  datatype Outcome = Synchronized | FailedToStop | Raised

  // ---- The batch specification ----

  datatype Batch = Batch(running: seq<Spec>, trace: seq<Event>, errors: seq<Spec>, raised: bool)
  {
    function Prepend(e: Event): Batch {
      this.(trace := [e] + trace)
    }

    function Outcome(): Outcome {
      if raised then Raised else if errors != [] then FailedToStop else Synchronized
    }
  }

  function After(done: seq<Event>, b: Batch): Batch {
    b.(trace := done + b.trace)
  }

  /** Offers wanted[k] to the running modules from position i on. */
  function Offer(running: seq<Spec>, wanted: seq<Spec>, k: nat, i: nat, h: Hooks): (r: Attempt)
    requires k < |wanted| && i <= |running|
    ensures !r.NoneAccepts? ==> i <= r.i < |running| && r.k == k && Replaceable(running, wanted, r.i, wanted[k])
    decreases |running| - i
  {
    if i == |running| then NoneAccepts
    else if !Replaceable(running, wanted, i, wanted[k]) then Offer(running, wanted, k, i + 1, h)
    else match h.reconfigure(running[i], wanted[k])
      case Accepts => Accepted(i, k)
      case Raises => AttemptRaised(i, k)
      case Declines => Offer(running, wanted, k, i + 1, h)
  }

  /** Phase 1: one sweep over the wanted list, replacing in place. */
  function ReconfigurePhase(running: seq<Spec>, wanted: seq<Spec>, k: nat, h: Hooks): (r: Batch)
    requires k <= |wanted|
    decreases |wanted| - k
  {
    if k == |wanted| then Batch(running, [], [], false)
    else match Offer(running, wanted, k, 0, h)
      case NoneAccepts => ReconfigurePhase(running, wanted, k + 1, h)
      case AttemptRaised(i, _) => Batch(running, [ReconfigureFailed(running[i], wanted[k])], [], true)
      case Accepted(i, _) =>
        ReconfigurePhase(running[i := wanted[k]], wanted, k + 1, h).Prepend(Reconfigured(running[i], wanted[k]))
  }

  /** Phase 2: stop what is not wanted, last started first; what fails to stop stays in place. */
  function StopPhase(running: seq<Spec>, wanted: seq<Spec>, errors: seq<Spec>, h: Hooks): Batch {
    if running == [] then Batch([], [], errors, false)
    else
      var init, x := running[..|running| - 1], running[|running| - 1];
      if !Stoppable(x, wanted, errors) then
        var b := StopPhase(init, wanted, errors, h);
        b.(running := b.running + [x])
      else if h.stopFails(x) then
        var b := StopPhase(init, wanted, errors + [x], h);
        b.(running := b.running + [x]).Prepend(StopFailed(x))
      else
        StopPhase(init, wanted, errors, h).Prepend(Stopped(x))
  }

  /** Phase 3: start what is missing, in wanted order, until a start fails. */
  function StartPhase(running: seq<Spec>, wanted: seq<Spec>, k: nat, h: Hooks): Batch
    requires k <= |wanted|
    decreases |wanted| - k
  {
    if k == |wanted| then Batch(running, [], [], false)
    else if wanted[k] in running then StartPhase(running, wanted, k + 1, h)
    else if h.startFails(wanted[k]) then Batch(running + [wanted[k]], [StartFailed(wanted[k])], [], true)
    else StartPhase(running + [wanted[k]], wanted, k + 1, h).Prepend(Started(wanted[k]))
  }

  function StopThenStart(running: seq<Spec>, wanted: seq<Spec>, errors: seq<Spec>, h: Hooks): Batch {
    var b := StopPhase(running, wanted, errors, h);
    var c := StartPhase(b.running, wanted, 0, h);
    Batch(c.running, b.trace + c.trace, b.errors, c.raised)
  }

  function WholePass(running: seq<Spec>, wanted: seq<Spec>, errors: seq<Spec>, h: Hooks): Batch {
    var a := ReconfigurePhase(running, wanted, 0, h);
    if a.raised then a.(errors := errors)
    else
      var b := StopThenStart(a.running, wanted, errors, h);
      b.(trace := a.trace + b.trace)
  }

  // ---- One operation of the loop is the head of the batch ----

  lemma {:induction false} OfferDeclined(running: seq<Spec>, wanted: seq<Spec>, k: nat, i: nat, j: nat, h: Hooks)
    requires k < |wanted| && i <= j <= |running|
    requires forall m :: i <= m < j && Replaceable(running, wanted, m, wanted[k]) ==>
      h.reconfigure(running[m], wanted[k]).Declines?
    ensures Offer(running, wanted, k, i, h) == Offer(running, wanted, k, j, h)
    decreases j - i
  {
    if i < j {
      OfferDeclined(running, wanted, k, i + 1, j, h);
    }
  }

  lemma {:induction false} SweepDeclined(running: seq<Spec>, wanted: seq<Spec>, k: nat, l: nat, h: Hooks)
    requires k <= l <= |wanted| && DeclinedBefore(running, wanted, h.reconfigure, l, 0)
    ensures ReconfigurePhase(running, wanted, k, h) == ReconfigurePhase(running, wanted, l, h)
    decreases l - k
  {
    if k < l {
      OfferDeclined(running, wanted, k, 0, |running|, h);
      SweepDeclined(running, wanted, k + 1, l, h);
    }
  }

  lemma DeclinedAfterReplacing(running: seq<Spec>, wanted: seq<Spec>, i: nat, k: nat, h: Hooks)
    requires i < |running| && k < |wanted| && Replaceable(running, wanted, i, wanted[k])
    requires DeclinedBefore(running, wanted, h.reconfigure, k, i)
    ensures DeclinedBefore(running[i := wanted[k]], wanted, h.reconfigure, k, 0)
    ensures wanted[k] in running[i := wanted[k]]
  {
    var after := running[i := wanted[k]];
    assert after[i] == wanted[k];
    forall k', i' | 0 <= k' < k && 0 <= i' < |after| && Replaceable(after, wanted, i', wanted[k'])
      ensures h.reconfigure(after[i'], wanted[k']).Declines?
    {
      assert i' != i && after[i'] == running[i'];
      forall m | 0 <= m < |running| ensures running[m] != wanted[k'] {
        assert m == i || after[m] == running[m];
      }
      assert Replaceable(running, wanted, i', wanted[k']);
    }
  }

  lemma ReconfigurePhaseStep(running: seq<Spec>, wanted: seq<Spec>, i: nat, k: nat, h: Hooks)
    requires i < |running| && k < |wanted| && Replaceable(running, wanted, i, wanted[k])
    requires h.reconfigure(running[i], wanted[k]).Accepts?
    requires DeclinedBefore(running, wanted, h.reconfigure, k, i)
    ensures ReconfigurePhase(running, wanted, 0, h)
         == ReconfigurePhase(running[i := wanted[k]], wanted, 0, h).Prepend(Reconfigured(running[i], wanted[k]))
  {
    var after := running[i := wanted[k]];
    SweepDeclined(running, wanted, 0, k, h);
    OfferDeclined(running, wanted, k, 0, i, h);
    DeclinedAfterReplacing(running, wanted, i, k, h);
    SweepDeclined(after, wanted, 0, k, h);
    OfferDeclined(after, wanted, k, 0, |after|, h);
  }

  lemma ReconfigureStep(running: seq<Spec>, wanted: seq<Spec>, i: nat, k: nat, errors: seq<Spec>, h: Hooks)
    requires i < |running| && k < |wanted| && Replaceable(running, wanted, i, wanted[k])
    requires h.reconfigure(running[i], wanted[k]).Accepts?
    requires DeclinedBefore(running, wanted, h.reconfigure, k, i)
    ensures WholePass(running, wanted, errors, h)
         == WholePass(running[i := wanted[k]], wanted, errors, h).Prepend(Reconfigured(running[i], wanted[k]))
  {
    hide ReconfigurePhase, StopThenStart, DeclinedBefore;
    ReconfigurePhaseStep(running, wanted, i, k, h);
    var e, rest := Reconfigured(running[i], wanted[k]), ReconfigurePhase(running[i := wanted[k]], wanted, 0, h);
    var b := StopThenStart(rest.running, wanted, errors, h);
    assert [e] + rest.trace + b.trace == [e] + (rest.trace + b.trace);
  }

  lemma RaisedStep(running: seq<Spec>, wanted: seq<Spec>, i: nat, k: nat, errors: seq<Spec>, h: Hooks)
    requires i < |running| && k < |wanted| && Replaceable(running, wanted, i, wanted[k])
    requires h.reconfigure(running[i], wanted[k]).Raises?
    requires DeclinedBefore(running, wanted, h.reconfigure, k, i)
    ensures WholePass(running, wanted, errors, h) ==
      Batch(running, [ReconfigureFailed(running[i], wanted[k])], errors, true)
  {
    SweepDeclined(running, wanted, 0, k, h);
    OfferDeclined(running, wanted, k, 0, i, h);
  }

  /** Once nothing accepts a reconfiguration, the rest of the pass is the last two phases. */
  lemma NoneAcceptsStep(running: seq<Spec>, wanted: seq<Spec>, errors: seq<Spec>, h: Hooks)
    requires DeclinedBefore(running, wanted, h.reconfigure, |wanted|, 0)
    ensures WholePass(running, wanted, errors, h) == StopThenStart(running, wanted, errors, h)
  {
    SweepDeclined(running, wanted, 0, |wanted|, h);
    var b := StopThenStart(running, wanted, errors, h);
    assert [] + b.trace == b.trace;
  }

  /** Removing or appending modules does not create new offers. */
  lemma StillDeclined(running: seq<Spec>, after: seq<Spec>, wanted: seq<Spec>, h: Hooks)
    requires DeclinedBefore(running, wanted, h.reconfigure, |wanted|, 0)
    requires forall x :: x in wanted && x in running ==> x in after
    requires forall x :: x in after && x !in wanted ==> x in running
    ensures DeclinedBefore(after, wanted, h.reconfigure, |wanted|, 0)
  {
    forall k, i | 0 <= k < |wanted| && 0 <= i < |after| && Replaceable(after, wanted, i, wanted[k])
      ensures h.reconfigure(after[i], wanted[k]).Declines?
    {
      var j :| 0 <= j < |running| && running[j] == after[i];
      assert Replaceable(running, wanted, j, wanted[k]);
    }
  }

  lemma {:induction false} StopPhaseStep(running: seq<Spec>, wanted: seq<Spec>, errors: seq<Spec>, i: nat, h: Hooks)
    requires i < |running| && Stoppable(running[i], wanted, errors)
    requires forall j :: i < j < |running| ==> !Stoppable(running[j], wanted, errors)
    ensures StopPhase(running, wanted, errors, h) ==
      if h.stopFails(running[i])
      then StopPhase(running, wanted, errors + [running[i]], h).Prepend(StopFailed(running[i]))
      else StopPhase(RemoveAt(running, i), wanted, errors, h).Prepend(Stopped(running[i]))
  {
    var init, x := running[..|running| - 1], running[|running| - 1];
    if i < |running| - 1 {
      assert !Stoppable(x, wanted, errors);
      assert init[i] == running[i];
      StopPhaseStep(init, wanted, errors, i, h);
      if !h.stopFails(running[i]) {
        var after := RemoveAt(running, i);
        assert after[..|after| - 1] == RemoveAt(init, i) && after[|after| - 1] == x;
      }
    } else {
      assert RemoveAt(running, i) == init;
    }
  }

  lemma {:induction false} NothingToStop(running: seq<Spec>, wanted: seq<Spec>, errors: seq<Spec>, h: Hooks)
    requires forall j :: 0 <= j < |running| ==> !Stoppable(running[j], wanted, errors)
    ensures StopPhase(running, wanted, errors, h) == Batch(running, [], errors, false)
  {
    if running != [] {
      var init, x := running[..|running| - 1], running[|running| - 1];
      assert !Stoppable(x, wanted, errors);
      forall j | 0 <= j < |init| ensures !Stoppable(init[j], wanted, errors) {
        assert init[j] == running[j];
      }
      NothingToStop(init, wanted, errors, h);
    }
  }

  lemma {:induction false} StartPhaseSkips(running: seq<Spec>, wanted: seq<Spec>, k: nat, l: nat, h: Hooks)
    requires k <= l <= |wanted|
    requires forall j :: k <= j < l ==> wanted[j] in running
    ensures StartPhase(running, wanted, k, h) == StartPhase(running, wanted, l, h)
    decreases l - k
  {
    if k < l {
      StartPhaseSkips(running, wanted, k + 1, l, h);
    }
  }

  lemma StopThenStartStep(running: seq<Spec>, wanted: seq<Spec>, errors: seq<Spec>, i: nat, h: Hooks)
    requires i < |running| && Stoppable(running[i], wanted, errors)
    requires forall j :: i < j < |running| ==> !Stoppable(running[j], wanted, errors)
    ensures StopThenStart(running, wanted, errors, h) ==
      if h.stopFails(running[i])
      then StopThenStart(running, wanted, errors + [running[i]], h).Prepend(StopFailed(running[i]))
      else StopThenStart(RemoveAt(running, i), wanted, errors, h).Prepend(Stopped(running[i]))
  {
    var x, after := running[i], RemoveAt(running, i);
    StopPhaseStep(running, wanted, errors, i, h);
    var e := if h.stopFails(x) then StopFailed(x) else Stopped(x);
    var b := if h.stopFails(x) then StopPhase(running, wanted, errors + [x], h)
             else StopPhase(after, wanted, errors, h);
    var c := StartPhase(b.running, wanted, 0, h);
    assert [e] + b.trace + c.trace == [e] + (b.trace + c.trace);
  }

  lemma StopStep(running: seq<Spec>, wanted: seq<Spec>, errors: seq<Spec>, i: nat, h: Hooks)
    requires DeclinedBefore(running, wanted, h.reconfigure, |wanted|, 0)
    requires i < |running| && Stoppable(running[i], wanted, errors)
    requires forall j :: i < j < |running| ==> !Stoppable(running[j], wanted, errors)
    ensures WholePass(running, wanted, errors, h) ==
      if h.stopFails(running[i])
      then WholePass(running, wanted, errors + [running[i]], h).Prepend(StopFailed(running[i]))
      else WholePass(RemoveAt(running, i), wanted, errors, h).Prepend(Stopped(running[i]))
  {
    StopThenStartStep(running, wanted, errors, i, h);
    NoneAcceptsStep(running, wanted, errors, h);
    NoneAcceptsStep(running, wanted, errors + [running[i]], h);
    RemoveAtMembers(running, i);
    StillDeclined(running, RemoveAt(running, i), wanted, h);
    NoneAcceptsStep(RemoveAt(running, i), wanted, errors, h);
  }

  lemma NothingToStopStep(running: seq<Spec>, wanted: seq<Spec>, errors: seq<Spec>, k: nat, h: Hooks)
    requires forall j :: 0 <= j < |running| ==> !Stoppable(running[j], wanted, errors)
    requires k <= |wanted| && forall j :: 0 <= j < k ==> wanted[j] in running
    ensures StopThenStart(running, wanted, errors, h) == StartPhase(running, wanted, k, h).(errors := errors)
  {
    NothingToStop(running, wanted, errors, h);
    StartPhaseSkips(running, wanted, 0, k, h);
    var c := StartPhase(running, wanted, 0, h);
    assert [] + c.trace == c.trace;
  }

  lemma StartStep(running: seq<Spec>, wanted: seq<Spec>, errors: seq<Spec>, k: nat, h: Hooks)
    requires DeclinedBefore(running, wanted, h.reconfigure, |wanted|, 0)
    requires forall j :: 0 <= j < |running| ==> !Stoppable(running[j], wanted, errors)
    requires k <= |wanted| && (k < |wanted| ==> wanted[k] !in running)
    requires forall j :: 0 <= j < k ==> wanted[j] in running
    ensures WholePass(running, wanted, errors, h) ==
      if k == |wanted| then Batch(running, [], errors, false)
      else if h.startFails(wanted[k]) then Batch(running + [wanted[k]], [StartFailed(wanted[k])], errors, true)
      else WholePass(running + [wanted[k]], wanted, errors, h).Prepend(Started(wanted[k]))
  {
    NoneAcceptsStep(running, wanted, errors, h);
    NothingToStopStep(running, wanted, errors, k, h);
    if k < |wanted| && !h.startFails(wanted[k]) {
      RestAfterStart(running, wanted, errors, k, h);
    }
  }

  lemma RestAfterStart(running: seq<Spec>, wanted: seq<Spec>, errors: seq<Spec>, k: nat, h: Hooks)
    requires DeclinedBefore(running, wanted, h.reconfigure, |wanted|, 0)
    requires forall j :: 0 <= j < |running| ==> !Stoppable(running[j], wanted, errors)
    requires k < |wanted| && forall j :: 0 <= j < k ==> wanted[j] in running
    ensures var after := running + [wanted[k]];
            WholePass(after, wanted, errors, h) == StartPhase(after, wanted, k + 1, h).(errors := errors)
  {
    var after := running + [wanted[k]];
    assert forall j :: 0 <= j < k + 1 ==> wanted[j] in after;
    StillDeclined(running, after, wanted, h);
    NoneAcceptsStep(after, wanted, errors, h);
    NothingToStopStep(after, wanted, errors, k + 1, h);
  }

  // ---- The instance table ----

  /** The instances in force are exactly those the table holds for the running specs, each in force
      as that very spec, and no instance stands for two specs. */
  ghost predicate TableTracks(running: set<Spec>, instances: map<Spec, nat>, inForce: map<nat, Spec>, created: nat) {
    && (forall s :: s in running ==> s in instances && instances[s] in inForce)
    && (forall id :: id in inForce ==>
      inForce[id] in running && inForce[id] in instances && instances[inForce[id]] == id)
    && (forall s, t :: s in instances && t in instances && instances[s] == instances[t] ==> s == t)
    && (forall s :: s in instances ==> instances[s] < created)
  }

  lemma TableReplace(running: set<Spec>, instances: map<Spec, nat>, inForce: map<nat, Spec>, created: nat, r: Spec,
      w: Spec)
    requires TableTracks(running, instances, inForce, created) && r in running && w !in running
    ensures TableTracks(running - {r} + {w}, (instances - {r})[w := instances[r]], inForce[instances[r] := w], created)
  {
  }

  lemma TableStop(running: set<Spec>, instances: map<Spec, nat>, inForce: map<nat, Spec>, created: nat, x: Spec)
    requires TableTracks(running, instances, inForce, created) && x in running
    ensures TableTracks(running - {x}, instances, inForce - {instances[x]}, created)
  {
  }

  // ---- The daemon's state and the loop ----

  class Modules {
    var running: seq<Spec>
    var instances: map<Spec, nat>   // module_instances; an instance is known by its creation number
    var created: nat
    var inForce: map<nat, Spec>     // instances whose effects may be in force, and as what
    var log: seq<Event>

    constructor ()
      ensures Tracked() && running == [] && log == []
    {
      running, instances, created, inForce, log := [], map[], 0, map[], [];
    }

    ghost predicate Tracked()
      reads this
    {
      NoDuplicates(running) && TableTracks(Elems(running), instances, inForce, created)
    }

    method Get(s: Spec) returns (id: nat)
      requires Tracked()
      modifies `instances, `created
      ensures Tracked()
      ensures s in instances && instances[s] == id
      ensures forall t :: t in old(instances) ==> t in instances && instances[t] == old(instances[t])
      ensures s in running ==> id in inForce && instances == old(instances)
      ensures s !in running ==> id !in inForce
    {
      if s in instances {
        id := instances[s];
      } else {
        id := created;
        created := created + 1;
        instances := instances[s := id];
      }
    }

    method StartStopModules(wanted: seq<Spec>, h: Hooks) returns (outcome: Outcome, errors: seq<Spec>)
      requires Tracked()
      modifies this
      ensures Tracked()
      ensures var b := WholePass(old(running), wanted, [], h);
              running == b.running && log == old(log) + b.trace && errors == b.errors && outcome == b.Outcome()
    {
      hide WholePass, TableTracks, NoDuplicates;
      errors := [];
      ghost var goal := WholePass(running, wanted, [], h);
      ghost var done := [];
      var progress := KeepGoing;
      while progress.KeepGoing?
        invariant Tracked()
        invariant log == old(log) + done
        invariant progress.KeepGoing? ==> goal == After(done, WholePass(running, wanted, errors, h))
        invariant !progress.KeepGoing? ==> goal == Batch(running, done, errors, progress.HookRaised?)
        decreases progress.KeepGoing?, |WholePass(running, wanted, errors, h).trace|
      {
        ghost var before := log;
        progress, errors := DoOneModule(wanted, errors, h);
        ghost var step := log[|before|..];
        assert done + step + WholePass(running, wanted, errors, h).trace
            == done + (step + WholePass(running, wanted, errors, h).trace);
        done := done + step;
        assert done + [] == done;
      }
      if progress.HookRaised? {
        return Raised, errors;
      }
      return if errors != [] then FailedToStop else Synchronized, errors;
    }

    /** One operation, or none if there is no work left: the head of the batch, and the rest remains. */
    method DoOneModule(wanted: seq<Spec>, errors: seq<Spec>, h: Hooks) returns (progress: Progress, errors': seq<Spec>)
      requires Tracked()
      modifies this
      ensures Tracked() && old(log) <= log
      ensures var before := WholePass(old(running), wanted, errors, h);
              var step := log[|old(log)|..];
              if progress.KeepGoing? then
                |step| == 1 && before == After(step, WholePass(running, wanted, errors', h))
              else
                before == Batch(running, step, errors', progress.HookRaised?)
    {
      errors' := errors;
      var attempt := TryReconfigure(running, wanted, h.reconfigure);
      match attempt
      case AttemptRaised(i, k) =>
        RaisedStep(running, wanted, i, k, errors, h);
        log := log + [ReconfigureFailed(running[i], wanted[k])];
        progress := HookRaised;
      case Accepted(i, k) =>
        ReconfigureStep(running, wanted, i, k, errors, h);
        Replace(i, wanted[k]);
        progress := KeepGoing;
      case NoneAccepts =>
        var i := FindStop(running, wanted, errors);
        if i < |running| {
          StopStep(running, wanted, errors, i, h);
          var x := running[i];
          var failed := Stop(i, h);
          if failed {
            errors' := errors + [x];
          }
          progress := KeepGoing;
        } else {
          var k := FindStart(running, wanted);
          StartStep(running, wanted, errors, k, h);
          if k < |wanted| {
            var failed := Start(wanted[k], h);
            progress := if failed then HookRaised else KeepGoing;
          } else {
            progress := NoMoreWork;
          }
        }
    }

    /** A module has accepted w's parameters: its instance now stands for w. */
    method Replace(i: nat, w: Spec)
      requires Tracked() && i < |running| && w !in running
      modifies this
      ensures Tracked() && running == old(running)[i := w] && log == old(log) + [Reconfigured(old(running[i]), w)]
      ensures inForce == old(inForce[instances[running[i]] := w])
    {
      var r := running[i];
      var module_ := Get(r);
      hide TableTracks;
      ReplaceDistinct(running, i, w);
      TableReplace(Elems(running), instances, inForce, created, r, w);
      running := running[i := w];
      instances := instances - {r};
      instances := instances[w := module_];
      inForce := inForce[module_ := w];
      log := log + [Reconfigured(r, w)];
    }

    method Stop(i: nat, h: Hooks) returns (failed: bool)
      requires Tracked() && i < |running|
      modifies this
      ensures Tracked() && failed == h.stopFails(old(running[i]))
      ensures running == if failed then old(running) else RemoveAt(old(running), i)
      ensures log == old(log) + [if failed then StopFailed(old(running[i])) else Stopped(old(running[i]))]
      ensures inForce == if failed then old(inForce) else old(inForce - {instances[running[i]]})
    {
      var x := running[i];
      var module_ := Get(x);
      hide TableTracks;
      RemoveAtDistinct(running, i);
      TableStop(Elems(running), instances, inForce, created, x);
      InsertRemoved(running, i);
      running := RemoveAt(running, i);
      failed := h.stopFails(x);
      if failed {
        running := InsertAt(running, i, x);
        log := log + [StopFailed(x)];
      } else {
        inForce := inForce - {module_};
        log := log + [Stopped(x)];
      }
    }

    method Start(w: Spec, h: Hooks) returns (failed: bool)
      requires Tracked() && w !in running
      modifies this
      ensures Tracked() && failed == h.startFails(w)
      ensures running == old(running) + [w]
      ensures log == old(log) + [if failed then StartFailed(w) else Started(w)]
      ensures w in instances && inForce == old(inForce)[instances[w] := w]
    {
      var module_ := Get(w);
      AppendDistinct(running, w);
      running := running + [w];
      inForce := inForce[module_ := w];
      failed := h.startFails(w);
      if failed {
        log := log + [StartFailed(w)];
      } else {
        RemoveAppended(running[..|running| - 1], w);
        assert running == old(running) + [w];
        running := RemoveFirst(running, w) + [w];
        log := log + [Started(w)];
      }
    }
  }
}
