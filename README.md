# Response correlation registry

A model of `ResponseContainer`, the part of the messaging layer that lets a
caller send a request over a one-way message broker and later receive the
response as if the exchange were synchronous. The container keeps a table from
request identifier (`UniqueId`) to a settable future. `awaitResponse(id)`
creates a pending future and stores it under `id`. `notifyWithResponse(id, v)`
and `notifyWithError(id, e)` take the entry for `id` out of the table and
resolve its future with a value or a failure cause. When there is no entry for
`id`, they only log a warning.

The project has three modules:

- `Futures` (`futures.dfy`) models the settable future. `HState` is what a
  holder of the future can observe: `Pending`, `Succeeded(value)` or
  `Failed(cause)`. `HState.IsDone` is the future's `isDone()`, which
  the unit tests read. `Handle` is the future object itself, with `Set` and
  `SetException`. A completion only takes effect on a pending future; the
  lemma `FirstCompletionWins` shows that the first completion is the only one
  that counts.
- `Correlation` (`correlation.dfy`) models the registry as a value. `State`
  holds the table (`pending`) and the state of every future created so far
  (`outcomes`). `Wf` is the invariant the registry keeps: every registered
  future is known and still pending, and no future is registered under two
  identifiers. The three operations are functions on `State`. `Deliver` models
  the inbound path passing a series of messages to them. The lemmas cover
  at-most-once resolution, isolation between identifiers, and the silent
  overwrite on a repeated registration.
- `Responses` (`response_container.dfy`) models `ResponseContainer` as a
  class whose table is a `map` field that is updated in place. Each method's
  postcondition equates the container's abstract value, `Abstract()`, after
  the call with the matching `Correlation` function applied to the value
  before the call. Two client methods restate the unit tests' scenarios
  (ResponseContainerTest.java:41-95); two more exercise a duplicate
  notification and isolation between identifiers.

Request identifiers, response values and failure causes are the type
parameters `Id`, `V` and `C`. A single value type `V` replaces the source's
unchecked cast to `SettableFuture<Object>`. The model is meant to be used with
non-null type arguments. If `Id` or `C` is instantiated with a nullable type,
the model treats `null` as an ordinary identifier or cause. The source throws
`NullPointerException` for a null identifier in all three operations, and for a
null cause only when the identifier is registered (see "Left out").

## Model

| member | source | states |
|---|---|---|
| `Futures.Handle.constructor` | component/messaging/src/main/java/io/zerodi/messaging/async/ResponseContainer.java:26 | a newly created future is pending (not done) |
| `Futures.Handle.Set` | component/messaging/src/main/java/io/zerodi/messaging/async/ResponseContainer.java:44 | `set(value)` is accepted exactly when the future was pending, and then the future holds `value`; a future that is already done is left as it was |
| `Futures.Handle.SetException` | component/messaging/src/main/java/io/zerodi/messaging/async/ResponseContainer.java:56 | `setException(cause)` is accepted exactly when the future was pending, and then the future is failed with `cause`; otherwise nothing changes |
| `Futures.Complete` | component/messaging/src/main/java/io/zerodi/messaging/async/ResponseContainer.java:44-56 | after any completion attempt the future is done, and a future that was already done is unchanged |
| `Futures.DoneIsFinal` | component/messaging/src/main/java/io/zerodi/messaging/async/ResponseContainer.java:44-56 | a done future stays exactly as it is under any series of later completion attempts |
| `Futures.FirstCompletionWins` | component/messaging/src/main/java/io/zerodi/messaging/async/ResponseContainer.java:44-56 | of any series of completion attempts on a pending future, the first decides the outcome; with none it stays pending |
| `Correlation.Empty` | component/messaging/src/main/java/io/zerodi/messaging/async/ResponseContainer.java:23 | a new registry has an empty table and satisfies the registry invariant |
| `Correlation.AwaitResponse` | component/messaging/src/main/java/io/zerodi/messaging/async/ResponseContainer.java:25-30 | the new future is registered under `id` and is pending; other entries and all earlier futures are unchanged; the invariant is kept; a future displaced from `id` becomes unreachable from the table and stays pending |
| `Correlation.Resolve` | component/messaging/src/main/java/io/zerodi/messaging/async/ResponseContainer.java:32-57 | `id` leaves the table; its future, if there was one, takes the completion's outcome; no other future changes; with no entry for `id` the registry is unchanged; the invariant is kept |
| `Correlation.NotifyWithResponse` | component/messaging/src/main/java/io/zerodi/messaging/async/ResponseContainer.java:32-45 | `id` leaves the table, its future (if any) holds exactly `response`, every other future is untouched, and an unknown `id` changes nothing |
| `Correlation.NotifyWithError` | component/messaging/src/main/java/io/zerodi/messaging/async/ResponseContainer.java:47-57 | `id` leaves the table, its future (if any) is failed with exactly `error`, every other future is untouched, and an unknown `id` changes nothing |
| `Correlation.Deliver` | component/messaging/src/main/java/io/zerodi/messaging/async/ResponseContainer.java:32-57 | any series of inbound notifications keeps the invariant, only removes entries from the table (never re-points one) and creates no futures |
| `Correlation.FirstFor` | component/messaging/src/main/java/io/zerodi/messaging/async/ResponseContainer.java:33-38 | the outcome decided for `id` by a series of messages is pending exactly when no message is addressed to `id` |
| `Correlation.SecondNotifyIsNoOp` | component/messaging/src/main/java/io/zerodi/messaging/async/ResponseContainer.java:33-38 | after a notification for `id`, `id` is absent, and a second notification for `id` of either kind changes nothing |
| `Correlation.NotifyDistinctCommute` | component/messaging/src/main/java/io/zerodi/messaging/async/ResponseContainer.java:32-57 | notifications for two different identifiers give the same registry in either order |
| `Correlation.UnregisteredIsUntouched` | component/messaging/src/main/java/io/zerodi/messaging/async/ResponseContainer.java:32-57 | a future not in the table is never changed by any series of inbound notifications |
| `Correlation.FirstNotifyDecides` | component/messaging/src/main/java/io/zerodi/messaging/async/ResponseContainer.java:32-57 | the future registered under `id` ends in the outcome of the first message addressed to `id`, and `id` leaves the table exactly when such a message arrives |
| `Correlation.AwaitThenNotify` | component/messaging/src/test/java/io/zerodi/messaging/async/response/ResponseContainerTest.java:59-70 | registering and then notifying a response resolves the new future with exactly that response, removes `id`, and leaves every earlier future as it was |
| `Correlation.OverwrittenNeverResolves` | component/messaging/src/main/java/io/zerodi/messaging/async/ResponseContainer.java:26-27 | a future displaced by a second registration under the same identifier stays pending whatever notifications arrive afterwards |
| `Responses.ResponseContainer.constructor` | component/messaging/src/main/java/io/zerodi/messaging/async/ResponseContainer.java:23 | a new container is valid and its abstract value is the empty registry |
| `Responses.ResponseContainer.AwaitResponse` | component/messaging/src/main/java/io/zerodi/messaging/async/ResponseContainer.java:25-30 | returns a fresh pending future, stores it under `id`, keeps the invariant, and matches `Correlation.AwaitResponse` |
| `Responses.ResponseContainer.NotifyWithResponse` | component/messaging/src/main/java/io/zerodi/messaging/async/ResponseContainer.java:32-45 | removes `id`; a future that was registered under `id` now holds `response`; changes no other future; matches `Correlation.NotifyWithResponse` |
| `Responses.ResponseContainer.NotifyWithError` | component/messaging/src/main/java/io/zerodi/messaging/async/ResponseContainer.java:47-57 | removes `id`; a future that was registered under `id` is now failed with `error`; changes no other future; matches `Correlation.NotifyWithError` |
| `Responses.ExchangeWithResponse` | component/messaging/src/test/java/io/zerodi/messaging/async/response/ResponseContainerTest.java:41-70 | a registered future is not done, and after the response is delivered it holds exactly that response |
| `Responses.ExchangeWithError` | component/messaging/src/test/java/io/zerodi/messaging/async/response/ResponseContainerTest.java:72-95 | a registered future is not done, and after the error is delivered it is failed with exactly that cause |
| `Responses.DuplicateNotification` | component/messaging/src/main/java/io/zerodi/messaging/async/ResponseContainer.java:33-38 | after a response and then an error for the same request, the future holds the response and the request is no longer in the table |
| `Responses.IsolatedRequests` | component/messaging/src/main/java/io/zerodi/messaging/async/ResponseContainer.java:33 | notifying one request leaves the future of a request with another identifier pending |

## Left out

- Concurrency: the `ConcurrentHashMap` gives per-key atomic insert and remove. The model runs the operations one after another. Two concurrent notifications for one identifier are modelled as the two possible orders; `FirstNotifyDecides` covers both.
- Blocking `Future.get()` is not modelled. A caller reads the future's state instead, and a failure's cause is read from the `Failed` state.
- Cancellation (`Future.cancel` by a holder of the future) is not modelled. With it, a registered future could be cancelled, and the later `set` or `setException` would be refused.
- Logging (`logger.warn`, `logger.debug`) has no effect on state and is left out.
- Null arguments are outside the model: it is meant for non-null type arguments, and under a nullable `Id` or `C` it treats `null` as an ordinary key or cause, where the source throws `NullPointerException`: for a null id from the map's `put` at ResponseContainer.java:27 and `remove` at :33 and :48, and for a null cause from `setException` at :56, which is reached only when `id` is registered. With no entry for `id`, `notifyWithError` returns at :50-53 without touching the cause, and the model likewise changes nothing. The source does not check a null response: `notifyWithResponse` passes it on to `set`. For a null error, `notifyWithError` removes the entry before the future rejects the null cause.
- Guava's `SettableFuture` is represented only by its state and by the accept-if-pending rule of `set` and `setException`. A repeated completion is refused, so the first completion wins. The registry never repeats one, because it removes the entry before completing the future.
- `UniqueId` and `UniqueIdFactory` are not part of this model; identifiers are an opaque type with equality.
- `SimpleMessageListenerContainerFactory` (listener wiring over a broker library) and `PingMessage` (a message with two required fields) are not part of this model.
- There is no expiry of abandoned entries, because the source has none.
