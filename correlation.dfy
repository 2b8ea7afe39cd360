/** The response-correlation registry as a value: which request identifier
    is waiting on which result handle, and what state every handle the
    registry ever created is in. The class in module Responses is proved
    against the functions of this module. */
module Correlation {
  import opened Futures

  /** `pending` is the registry's table (identifier to handle); `outcomes`
      gives the state of every handle created so far, registered or not. */
  datatype State<Id(==), H(==), V, C> = State(pending: map<Id, H>, outcomes: map<H, HState<V, C>>)

  /** An inbound response or error, addressed to the request `id`. */
  datatype Message<Id, V, C> = Message(id: Id, completion: Completion<V, C>)

  /** What the registry keeps true: each registered handle is known and still
      pending, and no handle is registered under two identifiers. */
  ghost predicate Wf<Id, H, V, C>(s: State<Id, H, V, C>)
  {
    && (forall id :: id in s.pending ==> s.pending[id] in s.outcomes && s.outcomes[s.pending[id]].Pending?)
    && (forall i, j :: i in s.pending && j in s.pending && i != j ==> s.pending[i] != s.pending[j])
  }

  /** A new, empty registry. */
  function Empty<Id(==), H(==), V, C>(): (s: State<Id, H, V, C>)
    ensures Wf(s)
    ensures s.pending == map[] && s.outcomes == map[]
  {
    State(map[], map[])
  }

  /** `awaitResponse(id)` with the freshly created handle `h`: registers `h`
      under `id`, replacing without a check whatever was registered there. */
  function AwaitResponse<Id(==), H(==), V, C>(s: State<Id, H, V, C>, id: Id, h: H): (r: State<Id, H, V, C>)
    requires h !in s.outcomes
    ensures r.pending.Keys == s.pending.Keys + {id}
    ensures id in r.pending && r.pending[id] == h && h in r.outcomes && r.outcomes[h] == Pending
    ensures forall k :: k in s.pending && k != id ==> r.pending[k] == s.pending[k]
    ensures r.outcomes.Keys == s.outcomes.Keys + {h}
    ensures forall g :: g in s.outcomes ==> r.outcomes[g] == s.outcomes[g]
    ensures Wf(s) ==> Wf(r)
    // the handle that was displaced is unreachable from the table and stays pending
    ensures Wf(s) && id in s.pending ==>
              s.pending[id] !in r.pending.Values && r.outcomes[s.pending[id]] == Pending
  {
    State(s.pending[id := h], s.outcomes[h := Pending])
  }

  /** The common body of both notify operations: take the entry for `id` out
      of the table; if there was one, complete its handle with `c`, and if
      there was none, change nothing. */
  function Resolve<Id(==), H(==), V, C>(s: State<Id, H, V, C>, id: Id, c: Completion<V, C>): (r: State<Id, H, V, C>)
    requires Wf(s)
    ensures Wf(r)
    ensures r.pending == s.pending - {id}
    ensures r.outcomes.Keys == s.outcomes.Keys
    ensures id in s.pending ==> r.outcomes[s.pending[id]] == c.Outcome()
    ensures forall g :: g in s.outcomes && !(id in s.pending && g == s.pending[id]) ==>
              r.outcomes[g] == s.outcomes[g]
    ensures id !in s.pending ==> r == s
  {
    if id !in s.pending then
      s
    else
      var h := s.pending[id];
      State(s.pending - {id}, s.outcomes[h := Complete(s.outcomes[h], c)])
  }

  /** `notifyWithResponse(id, response)`. */
  function NotifyWithResponse<Id(==), H(==), V, C>(s: State<Id, H, V, C>, id: Id, response: V): (r: State<Id, H, V, C>)
    requires Wf(s)
    ensures Wf(r)
    ensures r.pending == s.pending - {id}
    ensures r.outcomes.Keys == s.outcomes.Keys
    ensures id in s.pending ==> r.outcomes[s.pending[id]] == Succeeded(response)
    ensures forall g :: g in s.outcomes && !(id in s.pending && g == s.pending[id]) ==>
              r.outcomes[g] == s.outcomes[g]
    ensures id !in s.pending ==> r == s
  {
    Resolve(s, id, SetValue(response))
  }

  /** `notifyWithError(id, error)`. */
  function NotifyWithError<Id(==), H(==), V, C>(s: State<Id, H, V, C>, id: Id, error: C): (r: State<Id, H, V, C>)
    requires Wf(s)
    ensures Wf(r)
    ensures r.pending == s.pending - {id}
    ensures r.outcomes.Keys == s.outcomes.Keys
    ensures id in s.pending ==> r.outcomes[s.pending[id]] == Failed(error)
    ensures forall g :: g in s.outcomes && !(id in s.pending && g == s.pending[id]) ==>
              r.outcomes[g] == s.outcomes[g]
    ensures id !in s.pending ==> r == s
  {
    Resolve(s, id, SetError(error))
  }

  /** The inbound path: each message in turn is passed to the notify
      operation its kind calls for. */
  function Deliver<Id(==), H(==), V, C>(s: State<Id, H, V, C>, ms: seq<Message<Id, V, C>>): (r: State<Id, H, V, C>)
    requires Wf(s)
    ensures Wf(r)
    ensures r.pending.Keys <= s.pending.Keys
    ensures forall k :: k in r.pending ==> r.pending[k] == s.pending[k]
    ensures r.outcomes.Keys == s.outcomes.Keys
    decreases ms
  {
    if ms == [] then s else Deliver(Resolve(s, ms[0].id, ms[0].completion), ms[1..])
  }

  /** The state a handle registered under `id` should end in once `ms` has
      been delivered: decided by the first message addressed to `id`. */
  function FirstFor<Id(==), V, C>(ms: seq<Message<Id, V, C>>, id: Id): (o: HState<V, C>)
    ensures o.Pending? <==> forall i :: 0 <= i < |ms| ==> ms[i].id != id
  {
    if ms == [] then Pending
    else if ms[0].id == id then ms[0].completion.Outcome()
    else FirstFor(ms[1..], id)
  }

  /** At most one resolution per registration: once `id` has been notified,
      a second notification for it, of either kind, changes nothing. */
  lemma SecondNotifyIsNoOp<Id, H, V, C>(s: State<Id, H, V, C>, id: Id, first: Completion<V, C>, second: Completion<V, C>)
    requires Wf(s)
    ensures id !in Resolve(s, id, first).pending
    ensures Resolve(Resolve(s, id, first), id, second) == Resolve(s, id, first)
  {
  }

  /** Isolation: notifications for two different identifiers do not
      interfere, so the order in which they arrive does not matter. */
  lemma NotifyDistinctCommute<Id, H, V, C>(s: State<Id, H, V, C>, i: Id, j: Id, ci: Completion<V, C>, cj: Completion<V, C>)
    requires Wf(s) && i != j
    ensures Resolve(Resolve(s, i, ci), j, cj) == Resolve(Resolve(s, j, cj), i, ci)
  {
  }

  /** A handle that is not registered is never touched by the inbound path. */
  lemma {:induction false} UnregisteredIsUntouched<Id, H, V, C>(s: State<Id, H, V, C>, ms: seq<Message<Id, V, C>>, h: H)
    requires Wf(s) && h in s.outcomes && h !in s.pending.Values
    ensures Deliver(s, ms).outcomes[h] == s.outcomes[h]
    decreases ms
  {
    if ms != [] {
      var s' := Resolve(s, ms[0].id, ms[0].completion);
      assert h !in s'.pending.Values;
      UnregisteredIsUntouched(s', ms[1..], h);
    }
  }

  /** The handle registered under `id` ends in the outcome of the first
      message addressed to `id`, and `id` leaves the table exactly when such
      a message arrives; any later message for `id` is a no-op. */
  lemma {:induction false} FirstNotifyDecides<Id, H, V, C>(s: State<Id, H, V, C>, ms: seq<Message<Id, V, C>>, id: Id)
    requires Wf(s) && id in s.pending
    ensures Deliver(s, ms).outcomes[s.pending[id]] == FirstFor(ms, id)
    ensures id in Deliver(s, ms).pending <==> FirstFor(ms, id).Pending?
    decreases ms
  {
    if ms != [] {
      var s' := Resolve(s, ms[0].id, ms[0].completion);
      if ms[0].id == id {
        var h := s.pending[id];
        assert h !in s'.pending.Values;
        UnregisteredIsUntouched(s', ms[1..], h);
      } else {
        FirstNotifyDecides(s', ms[1..], id);
      }
    }
  }

  /** Registering and then receiving the response resolves exactly the new
      handle with that response and leaves every other handle as it was. */
  lemma AwaitThenNotify<Id, H, V, C>(s: State<Id, H, V, C>, id: Id, h: H, response: V)
    requires Wf(s) && h !in s.outcomes
    ensures var r := NotifyWithResponse(AwaitResponse(s, id, h), id, response);
      && r.outcomes[h] == Succeeded(response)
      && r.pending == s.pending - {id}
      && forall g :: g in s.outcomes ==> r.outcomes[g] == s.outcomes[g]
  {
  }

  /** A second registration under the same identifier silently displaces the
      first handle, which then stays pending whatever arrives afterwards. */
  lemma OverwrittenNeverResolves<Id, H, V, C>(s: State<Id, H, V, C>, id: Id, first: H, second: H, ms: seq<Message<Id, V, C>>)
    requires Wf(s) && first !in s.outcomes && second !in s.outcomes && first != second
    ensures var r := AwaitResponse(AwaitResponse(s, id, first), id, second);
      Deliver(r, ms).outcomes[first] == Pending
  {
    var r := AwaitResponse(AwaitResponse(s, id, first), id, second);
    UnregisteredIsUntouched(r, ms, first);
  }
}
