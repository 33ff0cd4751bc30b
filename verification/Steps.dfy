/** The three searches of `do_one_module`: what the next single operation of a pass is. */
module Steps {
  import opened Specs

  datatype Attempt =
    | NoneAccepts
    | Accepted(i: nat, k: nat)   // running[i] became wanted[k]
    | AttemptRaised(i: nat, k: nat)

  /** running[i] may be turned into w: it is not wanted, w is not running, and both have one class. */
  predicate Replaceable(running: seq<Spec>, wanted: seq<Spec>, i: nat, w: Spec)
    requires i < |running|
  {
    w !in running && running[i] !in wanted && running[i].name == w.name
  }

  /** Every offer made before position (k, i) of the two nested loops was declined. */
  ghost predicate DeclinedBefore(running: seq<Spec>, wanted: seq<Spec>, answer: (Spec, Spec) -> Answer, k: nat, i: nat)
    requires k <= |wanted|
  {
    && (forall k', i' :: 0 <= k' < k && 0 <= i' < |running| && Replaceable(running, wanted, i', wanted[k']) ==>
          answer(running[i'], wanted[k']).Declines?)
    && (k < |wanted| ==>
          forall i' :: 0 <= i' < i && i' < |running| && Replaceable(running, wanted, i', wanted[k]) ==>
            answer(running[i'], wanted[k]).Declines?)
  }

  /** The first offer that is not declined is made at (k, i), and reconfigure() raises. */
  ghost predicate RaisesFirst(running: seq<Spec>, wanted: seq<Spec>, answer: (Spec, Spec) -> Answer, k: nat, i: nat) {
    && k < |wanted| && i < |running|
    && Replaceable(running, wanted, i, wanted[k])
    && answer(running[i], wanted[k]).Raises?
    && DeclinedBefore(running, wanted, answer, k, i)
  }

  method TryReconfigure(running: seq<Spec>, wanted: seq<Spec>, answer: (Spec, Spec) -> Answer) returns (r: Attempt)
    ensures r.NoneAccepts? ==> DeclinedBefore(running, wanted, answer, |wanted|, 0)
    ensures r.Accepted? ==>
      && r.i < |running| && r.k < |wanted| && Replaceable(running, wanted, r.i, wanted[r.k])
      && answer(running[r.i], wanted[r.k]).Accepts?
      && DeclinedBefore(running, wanted, answer, r.k, r.i)
    ensures r.AttemptRaised? ==> RaisesFirst(running, wanted, answer, r.k, r.i)
  {
    for k := 0 to |wanted|
      invariant DeclinedBefore(running, wanted, answer, k, 0)
    {
      if wanted[k] !in running {
        for i := 0 to |running|
          invariant DeclinedBefore(running, wanted, answer, k, i)
        {
          if wanted[k].name == running[i].name && running[i] !in wanted {
            match answer(running[i], wanted[k])
            case Accepts => return Accepted(i, k);
            case Raises => return AttemptRaised(i, k);
            case Declines =>
          }
        }
      }
    }
    return NoneAccepts;
  }

  predicate Stoppable(s: Spec, wanted: seq<Spec>, errors: seq<Spec>) {
    s !in wanted && s !in errors
  }

  /** The last running module that should stop and has not failed to in this pass, or |running|. */
  method FindStop(running: seq<Spec>, wanted: seq<Spec>, errors: seq<Spec>) returns (i: nat)
    ensures i <= |running|
    ensures i < |running| ==> Stoppable(running[i], wanted, errors)
    ensures i < |running| ==> forall j :: i < j < |running| ==> !Stoppable(running[j], wanted, errors)
    ensures i == |running| ==> forall j :: 0 <= j < |running| ==> !Stoppable(running[j], wanted, errors)
  {
    for j := |running| downto 0
      invariant forall j' :: j <= j' < |running| ==> !Stoppable(running[j'], wanted, errors)
    {
      if running[j] !in wanted && running[j] !in errors {
        return j;
      }
    }
    return |running|;
  }

  /** The first wanted module that is not running, or |wanted|. */
  method FindStart(running: seq<Spec>, wanted: seq<Spec>) returns (k: nat)
    ensures k <= |wanted|
    ensures k < |wanted| ==> wanted[k] !in running
    ensures forall j :: 0 <= j < k ==> wanted[j] in running
  {
    k := 0;
    while k < |wanted| && wanted[k] in running
      invariant k <= |wanted|
      invariant forall j :: 0 <= j < k ==> wanted[j] in running
    {
      k := k + 1;
    }
  }
}
