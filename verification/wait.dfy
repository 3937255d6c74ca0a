/** `wait.PollImmediate` with its clock replaced by an attempt budget.
    Assumed semantics (the wait package is not part of this model):
    - the condition runs once immediately, whatever the budget;
    - a non-nil error from the condition is returned at once, whether or not
      it also reported done;
    - `(true, nil)` ends the poll with a nil error;
    - `(false, nil)` runs the condition again, until `budget` attempts have
      been made; then the poll fails with `WaitTimeout`.
    The budget stands in for timeout / interval. The condition is a function of
    an explicit state (the store and whatever variables the Go closure
    captures), since it cannot mutate anything. */
module Wait {
  import opened Errors

  /** One run of the condition: the state it leaves, and its `(done, err)` pair. */
  datatype Attempt<S> = Attempt(state: S, done: bool, err: Option<Error>)

  /** The poll's outcome: the final state, the error it returns, and how many
      times the condition ran. */
  datatype Polled<S> = Polled(state: S, err: Option<Error>, tries: nat)

  function Max1(n: nat): nat {
    if n == 0 then 1 else n
  }

  /** A run of the condition that ends the poll. */
  predicate Decides<S>(a: Attempt<S>) {
    a.done || a.err.Some?
  }

  function PollImmediate<S>(condition: S -> Attempt<S>, s: S, budget: nat): (r: Polled<S>)
    ensures 1 <= r.tries <= Max1(budget)
    ensures Decides(condition(s)) ==> r == Polled(condition(s).state, condition(s).err, 1)
    ensures !Decides(condition(s)) && budget <= 1 ==> r == Polled(condition(s).state, Some(WaitTimeout), 1)
    decreases budget
  {
    var a := condition(s);
    if a.err.Some? then Polled(a.state, a.err, 1)
    else if a.done then Polled(a.state, None, 1)
    else if budget <= 1 then Polled(a.state, Some(WaitTimeout), 1)
    else
      var rest := PollImmediate(condition, a.state, budget - 1);
      Polled(rest.state, rest.err, rest.tries + 1)
  }

  /** Only the condition's own errors and the timeout ever come out of a poll:
      if every error the condition returns satisfies `allowed`, so does every
      error the poll returns, apart from `WaitTimeout`. */
  lemma {:induction false} PollErrorsFrom<S>(condition: S -> Attempt<S>, s: S, budget: nat, allowed: Error -> bool)
    requires forall x :: condition(x).err.Some? ==> allowed(condition(x).err.value)
    ensures var r := PollImmediate(condition, s, budget);
      r.err.None? || r.err == Some(WaitTimeout) || allowed(r.err.value)
    decreases budget
  {
    var a := condition(s);
    if !Decides(a) && budget > 1 {
      PollErrorsFrom(condition, a.state, budget - 1, allowed);
    }
  }

  /** A property of the state that every run of the condition keeps holds of
      the final state. */
  lemma {:induction false} PollPreserves<S>(condition: S -> Attempt<S>, s: S, budget: nat, inv: S -> bool)
    requires inv(s)
    requires forall x :: inv(x) ==> inv(condition(x).state)
    ensures inv(PollImmediate(condition, s, budget).state)
    decreases budget
  {
    var a := condition(s);
    if !Decides(a) && budget > 1 {
      PollPreserves(condition, a.state, budget - 1, inv);
    }
  }

  /** If, from every state satisfying a kept property, the condition never
      reports `(true, nil)`, the poll cannot return a nil error. */
  lemma {:induction false} PollNeverSucceeds<S>(condition: S -> Attempt<S>, s: S, budget: nat, inv: S -> bool)
    requires inv(s)
    requires forall x :: inv(x) ==> inv(condition(x).state)
    requires forall x :: inv(x) ==> !(condition(x).done && condition(x).err.None?)
    ensures PollImmediate(condition, s, budget).err.Some?
    decreases budget
  {
    var a := condition(s);
    if !Decides(a) && budget > 1 {
      PollNeverSucceeds(condition, a.state, budget - 1, inv);
    }
  }

  /** When the condition never reports a timeout itself, a timeout means the
      whole budget was spent. */
  lemma {:induction false} PollTimeoutSpendsBudget<S>(condition: S -> Attempt<S>, s: S, budget: nat)
    requires forall x :: condition(x).err != Some(WaitTimeout)
    ensures var r := PollImmediate(condition, s, budget);
      r.err == Some(WaitTimeout) ==> r.tries == Max1(budget)
    decreases budget
  {
    var a := condition(s);
    if !Decides(a) && budget > 1 {
      PollTimeoutSpendsBudget(condition, a.state, budget - 1);
    }
  }

  /** When every run of the condition adds exactly one to a measure of the
      state (one store call, say), the poll adds exactly `tries`. */
  lemma {:induction false} PollCountsTries<S>(condition: S -> Attempt<S>, s: S, budget: nat, measure: S -> int)
    requires forall x :: measure(condition(x).state) == measure(x) + 1
    ensures var r := PollImmediate(condition, s, budget);
      measure(r.state) == measure(s) + r.tries
    decreases budget
  {
    var a := condition(s);
    if !Decides(a) && budget > 1 {
      PollCountsTries(condition, a.state, budget - 1, measure);
    }
  }
}
