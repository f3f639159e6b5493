/** Polling wait conditions: two lists of conditions and a result variable that is
    carried from one poll to the next. */
module Waiting {

  /** What evaluating one condition returns. */
  datatype Eval = Eval(holds: bool, failed: bool)

  /** What the evaluations of one poll would return. */
  datatype Poll = Poll(anyOf: seq<Eval>, allOf: seq<Eval>)

  predicate CleanTrue(e: Eval) { e.holds && !e.failed }

  predicate CleanFalse(e: Eval) { !e.holds && !e.failed }

  /** Some condition of the first list holds and those before it are cleanly false. */
  ghost predicate AnyMet(p: Poll) {
    exists i | 0 <= i < |p.anyOf| :: CleanTrue(p.anyOf[i]) && forall j | 0 <= j < i :: CleanFalse(p.anyOf[j])
  }

  /** The first list is cleanly false and the second, not empty, holds. */
  ghost predicate AllMet(p: Poll) {
    && (forall i | 0 <= i < |p.anyOf| :: CleanFalse(p.anyOf[i]))
    && |p.allOf| > 0
    && (forall i | 0 <= i < |p.allOf| :: CleanTrue(p.allOf[i]))
  }

  ghost predicate Met(p: Poll) { AnyMet(p) || AllMet(p) }

  /** The evaluator of the source never returns true together with an error. */
  predicate FalseOnError(p: Poll) {
    && (forall i | 0 <= i < |p.anyOf| :: p.anyOf[i].failed ==> !p.anyOf[i].holds)
    && (forall i | 0 <= i < |p.allOf| :: p.allOf[i].failed ==> !p.allOf[i].holds)
  }

  /** The captured variables. */
  class Captured {
    var result: bool
    var evalErr: bool

    constructor ()
      ensures !result && !evalErr
    {
      result, evalErr := false, false;
    }

    /** The function that is polled.  The value carried in `result` only shows through
        when both lists are empty. */
    method PollOnce(p: Poll) returns (done: bool)
      modifies this
      ensures p.anyOf != [] || p.allOf != [] ==> (done <==> Met(p))
      ensures p.anyOf == [] && p.allOf == [] ==> done == old(result) && result == old(result) && evalErr == old(evalErr)
      ensures done && Met(p) ==> !evalErr
      ensures FalseOnError(p) && !done ==> !result || (p.anyOf == [] && p.allOf == [])
    {
      for i := 0 to |p.anyOf|
        invariant forall j | 0 <= j < i :: CleanFalse(p.anyOf[j])
        invariant if i == 0 then result == old(result) && evalErr == old(evalErr) else !result && !evalErr
      {
        result, evalErr := p.anyOf[i].holds, p.anyOf[i].failed;
        if evalErr {
          assert !CleanFalse(p.anyOf[i]);
          return false;
        }
        if result {
          assert CleanTrue(p.anyOf[i]);
          return true;
        }
      }
      for i := 0 to |p.allOf|
        invariant forall j | 0 <= j < i :: CleanTrue(p.allOf[j])
        invariant i > 0 ==> result && !evalErr
        invariant i == 0 && p.anyOf != [] ==> !result && !evalErr
        invariant i == 0 && p.anyOf == [] ==> result == old(result) && evalErr == old(evalErr)
      {
        result, evalErr := p.allOf[i].holds, p.allOf[i].failed;
        if evalErr {
          return false;
        }
        if !result {
          return false;
        }
      }
      done := result;
    }
  }

  /** Every poll evaluates the same two lists. */
  predicate SameLists(polls: seq<Poll>) {
    forall i, j | 0 <= i < |polls| && 0 <= j < |polls| ::
      |polls[i].anyOf| == |polls[j].anyOf| && |polls[i].allOf| == |polls[j].allOf|
  }

  /** `waitForCondition`, for the polls that fit in the timeout: it ends with success at
      the first poll that meets the conditions, whatever an evaluator returns with an
      error, and never when both lists are empty.  `starts` records the carried result
      at the start of each poll. */
  method WaitForCondition(polls: seq<Poll>) returns (met: bool, at: nat, starts: seq<bool>)
    requires SameLists(polls)
    ensures met <==> exists i | 0 <= i < |polls| :: Met(polls[i])
    ensures met ==> at < |polls| && Met(polls[at]) && forall i | 0 <= i < at :: !Met(polls[i])
    ensures (forall i | 0 <= i < |polls| :: FalseOnError(polls[i])) ==> forall i | 0 <= i < |starts| :: !starts[i]
  {
    var v := new Captured();
    starts := [];
    at := 0;
    while at < |polls|
      invariant at <= |polls| && |starts| == at && fresh(v)
      invariant forall i | 0 <= i < at :: !Met(polls[i])
      invariant at < |polls| && polls[at].anyOf == [] && polls[at].allOf == [] ==> !v.result
      invariant (forall i | 0 <= i < |polls| :: FalseOnError(polls[i])) ==>
        !v.result && forall i | 0 <= i < at :: !starts[i]
    {
      starts := starts + [v.result];
      var done := v.PollOnce(polls[at]);
      if done {
        return true, at, starts;
      }
      at := at + 1;
      assert at < |polls| ==> |polls[at].anyOf| == |polls[at - 1].anyOf| && |polls[at].allOf| == |polls[at - 1].allOf|;
    }
    met := false;
  }

  /** If every evaluation works, the conditions are met exactly if one of the first list
      holds, or the second is not empty and holds throughout. */
  lemma MetWithoutErrors(p: Poll)
    requires forall i | 0 <= i < |p.anyOf| :: !p.anyOf[i].failed
    requires forall i | 0 <= i < |p.allOf| :: !p.allOf[i].failed
    ensures Met(p) <==> (
      || (exists i | 0 <= i < |p.anyOf| :: p.anyOf[i].holds)
      || (|p.allOf| > 0 && forall i | 0 <= i < |p.allOf| :: p.allOf[i].holds))
  {
    if i :| 0 <= i < |p.anyOf| && p.anyOf[i].holds {
      var k := FirstHolding(p.anyOf, i);
      assert CleanTrue(p.anyOf[k]) && forall j | 0 <= j < k :: CleanFalse(p.anyOf[j]);
    }
  }

  lemma {:induction false} FirstHolding(es: seq<Eval>, i: nat) returns (k: nat)
    requires i < |es| && es[i].holds
    ensures k < |es| && es[k].holds && forall j | 0 <= j < k :: !es[j].holds
    decreases i
  {
    if j :| 0 <= j < i && es[j].holds { k := FirstHolding(es, j); } else { k := i; }
  }

  /** An error in the second list blocks it. */
  lemma ErrorBlocksSecondList(p: Poll, i: nat)
    requires i < |p.allOf| && p.allOf[i].failed
    requires forall k | 0 <= k < |p.anyOf| :: !CleanTrue(p.anyOf[k])
    ensures !Met(p)
  {
    assert !CleanTrue(p.allOf[i]);
  }

  /** An error in an earlier condition of the first list hides a later one that holds. */
  lemma ErrorHidesLater(p: Poll, i: nat, j: nat)
    requires i < j < |p.anyOf| && p.anyOf[i].failed && CleanTrue(p.anyOf[j])
    requires forall k | 0 <= k < i :: !CleanTrue(p.anyOf[k])
    ensures !Met(p)
  {
    assert !CleanFalse(p.anyOf[i]) && !CleanTrue(p.anyOf[i]);
  }
}
