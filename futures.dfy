/** The result handle the registry hands out: a settable, single-assignment
    future. It starts pending and is completed at most once, either with a
    value or with a failure cause; a completion attempted on a future that is
    already done is refused and changes nothing. */
module Futures {

  /** What a holder of the handle can observe: still pending, resolved with a
      value, or resolved with an error whose cause is kept. */
  datatype HState<V, C> = Pending | Succeeded(value: V) | Failed(cause: C)
  {
    /** `isDone()` of the future, as a holder of the handle reads it. */
    predicate IsDone() {
      !Pending?
    }
  }

  /** One attempt to complete a future: `set(value)` or `setException(cause)`. */
  datatype Completion<V, C> = SetValue(value: V) | SetError(cause: C)
  {
    /** The state a pending future takes when this attempt reaches it. */
    function Outcome(): (o: HState<V, C>)
      ensures o.IsDone()
    {
      match this
      case SetValue(v) => Succeeded(v)
      case SetError(c) => Failed(c)
    }
  }

  /** The effect of one completion attempt on a future in state `s`. */
  function Complete<V, C>(s: HState<V, C>, c: Completion<V, C>): (r: HState<V, C>)
    ensures r.IsDone()
    ensures s.IsDone() ==> r == s
  {
    if s.Pending? then c.Outcome() else s
  }

  /** The effect of a series of completion attempts, applied in order. */
  function CompleteAll<V, C>(s: HState<V, C>, cs: seq<Completion<V, C>>): HState<V, C>
    decreases cs
  {
    if cs == [] then s else CompleteAll(Complete(s, cs[0]), cs[1..])
  }

  /** A future that is done stays exactly as it is, whatever is attempted later. */
  lemma {:induction false} DoneIsFinal<V, C>(s: HState<V, C>, cs: seq<Completion<V, C>>)
    requires s.IsDone()
    ensures CompleteAll(s, cs) == s
  {
    if cs != [] {
      DoneIsFinal(Complete(s, cs[0]), cs[1..]);
    }
  }

  /** Single assignment: of any series of attempts on a pending future, the
      first one decides the outcome and every later one is ignored. */
  lemma {:induction false} FirstCompletionWins<V, C>(cs: seq<Completion<V, C>>)
    ensures cs == [] ==> CompleteAll(Pending, cs) == Pending
    ensures cs != [] ==> CompleteAll(Pending, cs) == cs[0].Outcome()
  {
    if cs != [] {
      DoneIsFinal(Complete(Pending, cs[0]), cs[1..]);
    }
  }

  /** A settable future object, shared between the registry (which completes
      it) and the caller that waits on it. */
  class Handle<V, C> {
    var state: HState<V, C>

    /** `SettableFuture.create()`: a new future, not yet done. */
    constructor ()
      ensures state == Pending
    {
      state := Pending;
    }

    /** `set(value)`: resolves a pending future with `value` and answers true;
        on a future that is already done it answers false and changes nothing. */
    method Set(value: V) returns (accepted: bool)
      modifies this
      ensures accepted <==> old(state).Pending?
      ensures state == Complete(old(state), SetValue(value))
    {
      accepted := state.Pending?;
      if accepted {
        state := Succeeded(value);
      }
    }

    /** `setException(cause)`: resolves a pending future with the error
        `cause` and answers true; otherwise answers false and changes nothing. */
    method SetException(cause: C) returns (accepted: bool)
      modifies this
      ensures accepted <==> old(state).Pending?
      ensures state == Complete(old(state), SetError(cause))
    {
      accepted := state.Pending?;
      if accepted {
        state := Failed(cause);
      }
    }
  }
}
