/** The registry object itself: a table, updated in place, from request
    identifier to the settable future of the caller waiting for the response.
    Each method is proved to do to the table and to the futures what the
    matching function of module Correlation does to its value. */
module Responses {
  import opened Futures
  import Correlation

  class ResponseContainer<Id(==), V, C> {
    /** The table of pending requests. */
    var pendingResponses: map<Id, Handle<V, C>>
    /** Every future this container has created, registered or not. */
    ghost var issued: set<Handle<V, C>>

    /** The container as a value: its table and the state of each future. */
    ghost function Abstract(): Correlation.State<Id, Handle<V, C>, V, C>
      reads this, issued
    {
      Correlation.State(pendingResponses, map h | h in issued :: h.state)
    }

    /** The container's invariant: every registered future was created here,
        and the table satisfies the invariant of the value model. */
    ghost predicate Valid()
      reads this, issued
    {
      && pendingResponses.Values <= issued
      && Correlation.Wf(Abstract())
    }

    /** A new container with an empty table. */
    constructor ()
      ensures Valid()
      ensures Abstract() == Correlation.Empty()
    {
      pendingResponses := map[];
      issued := {};
    }

    /** `awaitResponse(id)`: creates a future that is not done, stores it
        under `id` (replacing any earlier entry) and returns it. */
    method AwaitResponse(id: Id) returns (future: Handle<V, C>)
      requires Valid()
      modifies this
      ensures Valid()
      ensures fresh(future) && future.state == Pending
      ensures pendingResponses == old(pendingResponses)[id := future]
      ensures issued == old(issued) + {future}
      ensures Abstract() == Correlation.AwaitResponse(old(Abstract()), id, future)
    {
      future := new Handle();
      pendingResponses := pendingResponses[id := future];
      issued := issued + {future};
    }

    /** `notifyWithResponse(id, response)`: takes the entry for `id` out of
        the table and resolves its future with `response`; with no entry for
        `id` it changes nothing (the source only logs a warning). */
    method NotifyWithResponse(id: Id, response: V)
      requires Valid()
      modifies this, if id in pendingResponses then {pendingResponses[id]} else {}
      ensures Valid()
      ensures issued == old(issued)
      ensures pendingResponses == old(pendingResponses) - {id}
      ensures id in old(pendingResponses) ==> old(pendingResponses)[id].state == Succeeded(response)
      ensures Abstract() == Correlation.NotifyWithResponse(old(Abstract()), id, response)
    {
      var future: Handle?<V, C> := null;
      if id in pendingResponses {
        future := pendingResponses[id];
        pendingResponses := pendingResponses - {id};
      }
      if future == null {
        return;
      }
      var accepted := future.Set(response);
      // a registered future is always still pending, so the completion takes effect
      assert accepted;
    }

    /** `notifyWithError(id, error)`: takes the entry for `id` out of the
        table and fails its future with cause `error`; with no entry for `id`
        it changes nothing. */
    method NotifyWithError(id: Id, error: C)
      requires Valid()
      modifies this, if id in pendingResponses then {pendingResponses[id]} else {}
      ensures Valid()
      ensures issued == old(issued)
      ensures pendingResponses == old(pendingResponses) - {id}
      ensures id in old(pendingResponses) ==> old(pendingResponses)[id].state == Failed(error)
      ensures Abstract() == Correlation.NotifyWithError(old(Abstract()), id, error)
    {
      var future: Handle?<V, C> := null;
      if id in pendingResponses {
        future := pendingResponses[id];
        pendingResponses := pendingResponses - {id};
      }
      if future == null {
        return;
      }
      var accepted := future.SetException(error);
      // a registered future is always still pending, so the completion takes effect
      assert accepted;
    }
  }

  /** A caller's view of one exchange answered by a response: the future is
      not done right after registering, and holds exactly the response once
      it has been delivered. */
  method ExchangeWithResponse<Id(==), V, C>(id: Id, response: V) returns (doneBefore: bool, after: HState<V, C>)
    ensures !doneBefore
    ensures after == Succeeded(response)
  {
    var container := new ResponseContainer<Id, V, C>();
    var future := container.AwaitResponse(id);
    doneBefore := future.state.IsDone();
    container.NotifyWithResponse(id, response);
    after := future.state;
  }

  /** A caller's view of one exchange answered by an error: the future is not
      done right after registering, and ends failed with exactly the cause
      passed in. */
  method ExchangeWithError<Id(==), V, C>(id: Id, error: C) returns (doneBefore: bool, after: HState<V, C>)
    ensures !doneBefore
    ensures after.IsDone() && after.Failed? && after.cause == error
  {
    var container := new ResponseContainer<Id, V, C>();
    var future := container.AwaitResponse(id);
    doneBefore := future.state.IsDone();
    container.NotifyWithError(id, error);
    after := future.state;
  }

  /** Two notifications for the same request: only the first reaches the
      future, and the second finds no entry and is a no-op. */
  method DuplicateNotification<Id(==), V, C>(id: Id, response: V, error: C) returns (after: HState<V, C>, stillPending: bool)
    ensures after == Succeeded(response)
    ensures !stillPending
  {
    var container := new ResponseContainer<Id, V, C>();
    var future := container.AwaitResponse(id);
    container.NotifyWithResponse(id, response);
    container.NotifyWithError(id, error);
    after := future.state;
    stillPending := id in container.pendingResponses;
  }

  /** Notifications for one request leave a request with another identifier
      pending. */
  method IsolatedRequests<Id(==), V, C>(id: Id, other: Id, response: V) returns (mine: HState<V, C>, theirs: HState<V, C>)
    requires id != other
    ensures mine == Succeeded(response)
    ensures theirs == Pending
  {
    var container := new ResponseContainer<Id, V, C>();
    var future := container.AwaitResponse(id);
    var otherFuture := container.AwaitResponse(other);
    container.NotifyWithResponse(id, response);
    mine, theirs := future.state, otherFuture.state;
  }
}
