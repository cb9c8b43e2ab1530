# Allocation service message bus — a Dafny model

The allocation service reacts to domain events through an in-memory message
bus. Its entry operation `handle(event, uow)` seeds a FIFO queue with one
message, then repeatedly pops the head, looks up the popped message's class
in the static `HANDLERS` registry, and calls every registered handler in list
order. Each handler's return value is appended to `results`, and after every
single handler call the unit of work's newly raised events are moved onto the
tail of the queue. When the queue is empty, `results` is returned.

This project models that dispatcher and its registry and proves its ordering
and accounting properties.

- `messages.dfy` (`Messages`): message classes as a tag (`Tag`), a message as a
  tag plus an uninterpreted payload, and the handler names of the registry.
- `unit_of_work.dfy` (`Uow`): the unit of work as an opaque store plus the
  buffer of raised events. `CollectNewEvents` is the behaviour the dispatcher
  assumes of the unit of work's `collect_new_events`: it hands out the buffered
  events in the order they were raised and leaves the buffer empty. The unit of
  work itself is not part of this model.
- `registry.dfy` (`Registry`): `HANDLERS`, and `Routed`, the invocations the
  registry plans for a sequence of processed messages.
- `messagebus.dfy` (`MessageBus`): the dispatcher as recursive functions
  (`RunHandlers` for the inner `for`, `ProcessNext` for one iteration of the
  `while`, `Run` for the loop, `Dispatch` over any registry, `Handle` over
  `HANDLERS`), the dispatch state with its trace (messages popped, handler calls
  made), and the predicates the trace must satisfy (`Fifo`, `Causal`,
  `ResultsMatch`, `Faithful`, `Invariant`, `Sound`). `Fifo` says that the
  popped messages followed by the queue are the input followed by every
  drained event, in drain order; `Causal` adds that each of them was drained
  by a call on an earlier message before it was popped.
- `messagebus_proofs.dfy` (`MessageBusProofs`): the proofs.
- `messagebus_loop.dfy` (`MessageBusLoop`): `handle` in `messagebus.py` as a
  loop, a `while` over the queue with a `for` over the handlers inside, proved
  equal to the recursive dispatcher.

Handlers are abstract: `invoke(h, m, u)` says what handler `h` does to message
`m` given unit of work `u`, either `Returned(value, u')` or `Raised(reason, u')`.
A handler raises events by leaving them in `u'.events`. Because handlers may
raise events forever, the dispatcher takes `fuel`, the largest number of
messages it may pop, and reports `Exhausted` when it runs out with messages
still queued. `Run` with more fuel never changes a finished outcome.

A failed registry lookup (the Python `KeyError` from `HANDLERS[type(event)]`)
is the error `MissingRoute(tag)`. A handler exception is
`HandlerRaised(handler, message, reason)`. Both end the dispatch at once.

The web entry points in `src/allocation/entrypoints/flask_app.py` build the
commands `CreateBatch` and `Allocate` and pass them to `handle`. The registry
in `messagebus.py` only has entries for four event classes, so the lookup
fails for those commands before any handler runs (`CommandsHaveNoRoute`).

This dispatcher has no command/event split, no retry and no catching of
handler exceptions. It collects every handler's return value, and a message
class without a registry entry is an error, not silently dropped.

## Model

| member | source | states |
|---|---|---|
| `MessageBusProofs.InitEstablishesInvariant` | src/allocation/service_layer/messagebus.py:9-11 | Before the loop starts, the queue holds exactly the input message, there are no results, and the dispatch invariant (FIFO, results match calls, calls faithful, handlers in registry order) already holds. |
| `MessageBusLoop.HandleLoop` | src/allocation/service_layer/messagebus.py:8-17 | The while-queue / for-handler loop, with pop, lookup, append of each result and drain after each call, ends in exactly the outcome of the recursive dispatcher, for every registry, handler behaviour, input and fuel. |
| `MessageBusProofs.PopKeeps` | src/allocation/service_layer/messagebus.py:13-14 | Popping the head keeps the popped messages followed by the queue unchanged (FIFO) and pops only a message already drained (causality); if the popped message's class has no registry entry the dispatch stops there with `MissingRoute` and no handler called on it, otherwise its handlers are about to run with none run yet. |
| `MessageBusProofs.PopOrder` | src/allocation/service_layer/messagebus.py:12-13 | Popping the head of a non-empty queue moves it to the popped messages with FIFO order and causality intact: the popped message is among the events drained by the calls made so far. |
| `MessageBusProofs.CausalAfterCall` | src/allocation/service_layer/messagebus.py:15-16 | A further handler call leaves causality intact for every message already popped. |
| `MessageBusProofs.FifoAfterCall` | src/allocation/service_layer/messagebus.py:16 | Extending the queue with a returned call's events, in the order raised, keeps the FIFO relation: popped messages followed by the queue are the input followed by all drained events in drain order. |
| `MessageBusProofs.ResultsAfterCall` | src/allocation/service_layer/messagebus.py:15 | Appending a returned call's value keeps exactly one result per handler call, result i being call i's return value. |
| `MessageBusProofs.ReturningCallKeeps` | src/allocation/service_layer/messagebus.py:15-16 | A handler call that returns appends exactly its value to the results and exactly its events, in the order raised, to the tail of the queue, and the next call gets the drained unit of work; the invariant moves one handler further on. |
| `MessageBusProofs.RaisingCallStops` | src/allocation/service_layer/messagebus.py:15-16 | A handler call that raises ends the dispatch with the error naming that handler and message: no result is appended, its events are not drained (the unit of work is exactly what the raising call left), and the handlers after it are not called. |
| `MessageBusProofs.RunHandlersSound` | src/allocation/service_layer/messagebus.py:14-16 | Running the handlers of one popped message calls them in registry-list order; it either finishes with the invariant restored for the whole message, or stops at the first raising handler. |
| `MessageBusProofs.ProcessNextSound` | src/allocation/service_layer/messagebus.py:13-16 | One iteration pops the head; if its class has no registry entry the dispatch stops before any handler is called on it, otherwise its handlers run as above. |
| `MessageBusProofs.RunSound` | src/allocation/service_layer/messagebus.py:12-17 | From any state between iterations, the loop ends completed with an empty queue, or stopped by a lookup failure or a raising handler, or out of fuel, each with the invariant's promises. |
| `MessageBusProofs.DispatchSound` | src/allocation/service_layer/messagebus.py:8-17 | Every outcome of a dispatch from the input message satisfies the dispatch promises (FIFO, nothing popped before a call drained it, one result per call, faithful calls with a drain between them, registry order). |
| `MessageBusProofs.CompletedDispatch` | src/allocation/service_layer/messagebus.py:12-17 | On normal return the queue is empty; the popped messages are exactly the input followed by every drained event in drain order, and each of them was popped only after the calls on the messages before it had drained it, so each enqueued message was popped and routed exactly once, breadth-first; results are the calls' return values one per call in call order; calls are exactly each popped message's registered handlers in list order, each recording what the handler did to the unit of work it was given. |
| `MessageBusProofs.DrainBetweenCalls` | src/allocation/service_layer/messagebus.py:15-16 | The first handler call gets the caller's unit of work; every later call gets the previous call's unit of work with its event buffer emptied (drain after each call, not per message); every recorded call is what the handler actually did. |
| `MessageBusProofs.UnroutedMessageAborts` | src/allocation/service_layer/messagebus.py:13-14 | If the input message's class has no registry entry, it is popped and the dispatch ends with `MissingRoute` for its class, with no handler called, no result and the unit of work untouched. A later message without an entry is covered by `PopKeeps`: the dispatch stops there with everything before it processed in full. |
| `MessageBusProofs.CommandsHaveNoRoute` | src/allocation/service_layer/messagebus.py:20-25 | The `CreateBatch` and `Allocate` commands that the web entry points pass to `handle` have no registry entry, so `handle` ends with `MissingRoute` before any handler runs. |
| `MessageBusProofs.FirstHandlerRaises` | src/allocation/service_layer/messagebus.py:13-16 | If the first handler of the input message raises, `handle` ends with that handler's error at once: no results, the raising call's events left undrained, nothing else processed. |
| `MessageBusProofs.HandleOneResultPerMessage` | src/allocation/service_layer/messagebus.py:20-25 | With the process-wide registry, a completed `handle` has exactly one result per popped message, and result i is the value that the sole registered handler of popped message i returned when called on that message with the unit of work the dispatch handed it; every call is faithful to the handlers' behaviour. |
| `Registry.HandlersShape` | src/allocation/service_layer/messagebus.py:20-25 | The registry has entries for exactly BatchCreated, BatchQuantityChanged, OutOfStock and AllocationRequired, each with a single handler, and none for the commands. |
| `Registry.RoutedUnderHandlers` | src/allocation/service_layer/messagebus.py:20-25 | For routed messages, the registry plans exactly one invocation per message, the i-th being the sole handler of the i-th message. |
| `Registry.RoutesOf` | src/allocation/service_layer/messagebus.py:14 | The invocations planned for one message are its handlers in list order, one per handler, each on that message. |
| `MessageBusProofs.QuietHandlerEndsHandle` | src/allocation/service_layer/messagebus.py:12-17 | If the input message's sole handler returns without raising events, a completed `handle` popped only the input and returns exactly that handler's value: nothing is processed that no handler raised. |
| `MessageBusProofs.QuietFirstCallOnePop` | src/allocation/service_layer/messagebus.py:12-16 | In a causal trace whose input message has a single handler, if that handler's call drained nothing then nothing after the input was popped. |
| `MessageBusProofs.MoreFuelSameOutcome` | src/allocation/service_layer/messagebus.py:12 | The fuel bound only cuts off runs that would continue: a run that completed or raised with some fuel ends identically with any larger fuel. |
| `MessageBusProofs.RunPopsAtMostFuel` | src/allocation/service_layer/messagebus.py:12-13 | A run pops at most as many messages as its fuel. |

## Left out

- Termination: handlers may raise events forever, so `handle` need not return. The model bounds the number of popped messages by `fuel` and reports `Exhausted` when the bound is hit; nothing is claimed about runs that would exceed every bound.
- Handler bodies (`add_batch`, `change_batch_quantity`, `send_out_of_stock_notification`, `allocate`) and the domain model, repository and SQLAlchemy unit of work: they are not part of this model and are database and e-mail I/O. They are the abstract `invoke` function and the opaque store `S`.
- The exception object a handler raises is reduced to a `reason` string; exception classes are not distinguished.
- Exceptions raised by `collect_new_events` itself are not modelled; the drain always succeeds.
- The lookup `HANDLERS[type(event)]` matches the exact class; a message is modelled by that class's tag, so subclass relationships are not represented.
- `src/allocation/entrypoints/flask_app.py`: HTTP routing, JSON parsing, date parsing and status codes are web plumbing; only the fact that it passes commands to `handle` is stated (`CommandsHaveNoRoute`).
- Concurrency between separate `handle` calls and transaction isolation belong to the store, not the dispatcher.
- Retry with backoff, logging, and a command/event distinction do not exist in this dispatcher and are not modelled.
