/** How the operations of a pass keep running modules in dependency order, and what that means for
    the moments at which modules are started and stopped. */
module DependencyOrder {
  import opened Specs
  import opened Expansion

  /** What the daemon's debug log records: the hooks called, and what was running meanwhile. */
  datatype Event =
    | Reconfigured(from: Spec, to: Spec)
    | Starting(spec: Spec, present: seq<Spec>)   // present: running before the module was added
    | StartFailed(spec: Spec)
    | Stopping(spec: Spec, rest: seq<Spec>)      // rest: running once the module was removed
    | StopFailed(spec: Spec)
    | ReconfigureFailed(from: Spec, to: Spec)

  /** A module starts only when all it transitively requires is running, and stops only when nothing
      that transitively requires it is. */
  ghost predicate EventSafe(env: Setting, e: Event) {
    match e
    case Starting(s, present) => forall d :: Requires(env, s, d) ==> d == s || d in present
    case Stopping(s, rest) => s !in rest && forall t :: t in rest ==> !Requires(env, t, s)
    case _ => true
  }

  ghost predicate LogSafe(env: Setting, log: seq<Event>) {
    forall e :: e in log ==> EventSafe(env, e)
  }

  predicate NoStopFailed(log: seq<Event>) {
    forall e :: e in log ==> !e.StopFailed?
  }

  // ---- What the log accounts for ----

  function Counted(t: multiset<Spec>, e: Event): multiset<Spec> {
    match e
    case Reconfigured(from, to) => t - multiset{from} + multiset{to}
    case Starting(s, _) => t + multiset{s}
    case Stopping(s, _) => t - multiset{s}
    case StopFailed(s) => t + multiset{s}
    case _ => t
  }

  /** The modules on the list once all that the log tells has happened. */
  ghost function Tally(log: seq<Event>): multiset<Spec> {
    if log == [] then multiset{} else Counted(Tally(log[..|log| - 1]), log[|log| - 1])
  }

  /** Every start was of a module that was not on the list. */
  ghost predicate FreshStarts(log: seq<Event>) {
    log != [] ==>
      var before, last := log[..|log| - 1], log[|log| - 1];
      FreshStarts(before) && (last.Starting? ==> last.spec !in Tally(before))
  }

  lemma TallyAppend(log: seq<Event>, e: Event)
    ensures Tally(log + [e]) == Counted(Tally(log), e)
    ensures FreshStarts(log + [e]) <==> FreshStarts(log) && (e.Starting? ==> e.spec !in Tally(log))
  {
    assert (log + [e])[..|log|] == log;
  }

  /** The event brings s into force, or finds it still in force. */
  predicate Brings(e: Event, s: Spec) {
    match e
    case Reconfigured(_, to) => to == s
    case Starting(t, _) => t == s
    case StopFailed(t) => t == s
    case _ => false
  }

  predicate Takes(e: Event, s: Spec) {
    match e
    case Reconfigured(from, to) => from == s && to != s
    case Stopping(t, _) => t == s
    case _ => false
  }

  /** s was brought into force by the k-th event, and nothing has taken it out since. A failed stop
      counts as bringing it back; a failed start has brought it all the same. */
  ghost predicate InForceSince(log: seq<Event>, s: Spec, k: nat) {
    k < |log| && Brings(log[k], s) && forall j :: k < j < |log| ==> !Takes(log[j], s)
  }

  lemma CountedStep(t: multiset<Spec>, e: Event, s: Spec)
    ensures Brings(e, s) || (s in t && !Takes(e, s)) ==> s in Counted(t, e)
  {
  }

  /** What the log says has been brought and not taken since is on the list it accounts for. */
  lemma {:induction false} InForceCounted(log: seq<Event>, s: Spec, k: nat)
    requires InForceSince(log, s, k)
    ensures s in Tally(log)
  {
    hide Counted, Brings, Takes;
    var last := |log| - 1;
    CountedStep(Tally(log[..last]), log[last], s);
    if k < last {
      InForceCounted(log[..last], s, k);
    }
  }

  lemma {:induction false} FreshStartAt(log: seq<Event>, k: nat)
    requires FreshStarts(log) && k < |log| && log[k].Starting?
    ensures log[k].spec !in Tally(log[..k])
  {
    var before := log[..|log| - 1];
    if k < |before| {
      FreshStartAt(before, k);
      assert before[..k] == log[..k];
    }
  }

  /** A module that nothing has taken off the list is started once. */
  lemma StartedOnce(log: seq<Event>, s: Spec, j: nat, k: nat)
    requires FreshStarts(log) && j < k < |log| && forall i :: j < i < k ==> !Takes(log[i], s)
    requires log[j].Starting? && log[j].spec == s && log[k].Starting?
    ensures log[k].spec != s
  {
    assert InForceSince(log[..k], s, j);
    InForceCounted(log[..k], s, j);
    FreshStartAt(log, k);
  }

  lemma OrderedRequires(env: Setting, xs: seq<Spec>, t: Spec, u: Spec)
    requires Ordered(env, xs) && t in xs && Requires(env, t, u)
    ensures u in xs
  {
    var p :| IsChain(env, p) && p[0] == t && p[|p| - 1] == u;
    var i :| 0 <= i < |xs| && xs[i] == t;
    if |p| > 1 {
      OrderedClosed(env, xs, i, p);
    }
  }

  lemma StartingSafe(env: Setting, present: seq<Spec>, s: Spec)
    requires env.Acyclic() && Ordered(env, present + [s])
    ensures EventSafe(env, Starting(s, present))
  {
    var xs := present + [s];
    assert xs[|present|] == s && s in xs;
    forall d | Requires(env, s, d) ensures d == s || d in present {
      OrderedRequires(env, xs, s, d);
    }
  }

  lemma StoppingSafe(env: Setting, rest: seq<Spec>, s: Spec)
    requires Ordered(env, rest) && s !in rest
    ensures EventSafe(env, Stopping(s, rest))
  {
    forall t | t in rest ensures !Requires(env, t, s) {
      if Requires(env, t, s) {
        OrderedRequires(env, rest, t, s);
      }
    }
  }

  // ---- The operations ----

  lemma OrderedRemove(env: Setting, xs: seq<Spec>, i: nat)
    requires Ordered(env, xs) && i < |xs|
    requires forall j :: 0 <= j < |xs| ==> xs[i] !in env.dependencies(xs[j])
    ensures Ordered(env, RemoveAt(xs, i))
  {
    var ys := RemoveAt(xs, i);
    forall j, d | 0 <= j < |ys| && d in env.dependencies(ys[j]) ensures d in ys[..j] {
      var k := if j < i then j else j + 1;
      assert ys[j] == xs[k] && d in xs[..k];
      var m :| 0 <= m < k && xs[m] == d;
      assert m != i;
      assert ys[if m < i then m else m - 1] == d;
    }
  }

  /** Wanted modules bring their dependencies, so the last running module that is not wanted is one
      that no running module needs. */
  lemma LastUnwantedUnneeded(env: Setting, running: seq<Spec>, wanted: seq<Spec>, i: nat)
    requires Ordered(env, running) && Ordered(env, wanted) && NoDuplicates(running)
    requires i < |running| && running[i] !in wanted
    requires forall j :: i < j < |running| ==> running[j] in wanted
    ensures forall j :: 0 <= j < |running| ==> running[i] !in env.dependencies(running[j])
  {
    var x := running[i];
    DistinctPositions(running);
    forall j | 0 <= j < |running| ensures x !in env.dependencies(running[j]) {
      if i < j {
        OrderedHolds(env, wanted, running[j], x);
      } else {
        assert forall m :: 0 <= m < j ==> running[m] != x;
      }
    }
  }

  lemma OrderedHolds(env: Setting, xs: seq<Spec>, y: Spec, d: Spec)
    requires Ordered(env, xs) && y in xs
    ensures d in env.dependencies(y) ==> d in xs
  {
    var k :| 0 <= k < |xs| && xs[k] == y;
    assert d in env.dependencies(y) ==> d in xs[..k];
  }

  /** Wanted modules come in dependency order, so the first that is missing can be started. */
  lemma FirstMissingReady(env: Setting, running: seq<Spec>, wanted: seq<Spec>, k: nat)
    requires Ordered(env, running) && Ordered(env, wanted) && k < |wanted|
    requires forall j :: 0 <= j < k ==> wanted[j] in running
    ensures Ordered(env, running + [wanted[k]])
  {
    forall d | d in env.dependencies(wanted[k]) ensures d in running {
      assert d in wanted[..k];
    }
    OrderedAppend(env, running, wanted[k]);
  }

  lemma OrderedReplace(env: Setting, xs: seq<Spec>, i: nat, w: Spec)
    requires Ordered(env, xs) && i < |xs|
    requires forall d :: d !in env.dependencies(w)
    requires forall s :: xs[i] !in env.dependencies(s)
    ensures Ordered(env, xs[i := w])
  {
    var ys := xs[i := w];
    forall j, d | 0 <= j < |ys| && d in env.dependencies(ys[j]) ensures d in ys[..j] {
      assert j != i && d in xs[..j];
      var m :| 0 <= m < j && xs[m] == d;
      assert m != i && ys[m] == d;
    }
  }

  /** Where `xs.remove(x)` removes. */
  ghost function FirstIndex(xs: seq<Spec>, x: Spec): (i: nat)
    requires x in xs
    ensures i < |xs| && xs[i] == x && x !in xs[..i]
  {
    if xs[0] == x then 0
    else
      var i := 1 + FirstIndex(xs[1..], x);
      assert xs[..i] == [xs[0]] + xs[1..][..i - 1];
      i
  }

  lemma RemoveAtTail(xs: seq<Spec>, i: nat)
    requires 0 < i < |xs|
    ensures RemoveAt(xs, i) == [xs[0]] + RemoveAt(xs[1..], i - 1)
  {
  }

  lemma {:induction false} RemoveFirstAt(xs: seq<Spec>, x: Spec)
    requires x in xs
    ensures RemoveFirst(xs, x) == RemoveAt(xs, FirstIndex(xs, x))
  {
    if xs[0] == x {
      assert RemoveAt(xs, 0) == xs[1..];
    } else {
      RemoveFirstAt(xs[1..], x);
      RemoveAtTail(xs, FirstIndex(xs, x));
    }
  }

  /** A module nothing depends on may move to the end. */
  lemma OrderedMoveToEnd(env: Setting, xs: seq<Spec>, x: Spec)
    requires env.Acyclic() && Ordered(env, xs) && x in xs
    requires forall s :: x !in env.dependencies(s)
    ensures Ordered(env, RemoveFirst(xs, x) + [x])
  {
    RemoveFirstAt(xs, x);
    var i := FirstIndex(xs, x);
    OrderedRemove(env, xs, i);
    RemoveAtMembers(xs, i);
    forall d | d in env.dependencies(x) ensures d in RemoveAt(xs, i) {
      assert d in xs[..i];
      assert env.rank(d) < env.rank(x);
    }
    OrderedAppend(env, RemoveAt(xs, i), x);
  }

  lemma DistinctMoveToEnd(xs: seq<Spec>, x: Spec)
    requires NoDuplicates(xs) && x in xs
    ensures NoDuplicates(RemoveFirst(xs, x) + [x]) && Elems(RemoveFirst(xs, x) + [x]) == Elems(xs)
  {
    RemoveFirstAt(xs, x);
    var i := FirstIndex(xs, x);
    RemoveAtDistinct(xs, i);
    assert x !in Elems(RemoveAt(xs, i));
    AppendDistinct(RemoveAt(xs, i), x);
  }
}
