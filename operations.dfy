/**
 * A caller-supplied asynchronous unit of work, modelled as a script: the n-th
 * invocation (counting from 0) settles with `outcomeAt(n)`. Counting the
 * invocations makes "how often was the work run" a checkable property.
 */
module Operations {
  import opened JsValues
  import opened Errors

  datatype Outcome = Returned(value: Value) | Threw(thrown: Thrown)

  class Operation {
    const outcomeAt: nat -> Outcome
    var calls: nat

    constructor (outcomeAt: nat -> Outcome)
      ensures this.outcomeAt == outcomeAt && calls == 0
    {
      this.outcomeAt := outcomeAt;
      calls := 0;
    }

    /** Runs the work once and awaits it. */
    method Invoke() returns (o: Outcome)
      modifies this
      ensures calls == old(calls) + 1
      ensures o == outcomeAt(old(calls))
    {
      o := outcomeAt(calls);
      calls := calls + 1;
    }
  }
}
