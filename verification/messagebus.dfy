/**
  The in-memory message bus: `handle` seeds a FIFO queue with one message,
  pops messages until the queue is empty, calls every registered handler of
  each popped message in registry order, collects each handler's return value,
  and after every single handler call moves the unit of work's new events to
  the tail of the queue.

  Handlers are opaque: `invoke(h, m, u)` is what handler `h` does to message
  `m` given unit of work `u` — it either returns a value together with the
  unit of work it leaves behind, or raises. Handlers may raise events forever,
  so dispatch carries `fuel`, the largest number of messages it may pop.

  Besides the queue, the results and the unit of work, a dispatch state
  records a trace — the messages popped so far and the handler calls made so
  far — so that the ordering and accounting promises can be stated.
 */
module MessageBus {
  import opened Messages
  import opened Uow
  import opened Registry

  /** What one handler call did. */
  datatype Invocation<S, R> =
    | Returned(value: R, uow: UnitOfWork<S>)
    | Raised(reason: string, uow: UnitOfWork<S>)

  type Invoker<!S, R> = (HandlerId, Message, UnitOfWork<S>) -> Invocation<S, R>

  /** A handler call that returned: which handler on which message, the unit
      of work it was given, its return value and the unit of work it left. */
  datatype Call<S, R> = Call(route: Route, before: UnitOfWork<S>, value: R, after: UnitOfWork<S>)

  /** Why a dispatch stopped early: the popped message's class has no registry
      entry (the lookup fails), or a handler raised. */
  datatype Error =
    | MissingRoute(tag: Tag)
    | HandlerRaised(handler: HandlerId, message: Message, reason: string)

  datatype State<S, R> = State(
    queue: seq<Message>,
    results: seq<R>,
    uow: UnitOfWork<S>,
    popped: seq<Message>,
    calls: seq<Call<S, R>>)

  /** How a dispatch ended: the queue ran empty, an error propagated out, or
      the fuel ran out with messages still queued. */
  datatype Outcome<S, R> =
    | Completed(state: State<S, R>)
    | Aborted(error: Error, state: State<S, R>)
    | Exhausted(state: State<S, R>)

  // ----- the dispatcher -----

  /** The queue holds exactly the input message and nothing has happened yet. */
  function Init<S, R>(m: Message, u: UnitOfWork<S>): (st: State<S, R>)
  {
    State([m], [], u, [], [])
  }

  /** Calls handlers `hs` in order on message `m`. After each call that
      returns, its value is appended to the results and the unit of work is
      drained onto the tail of the queue; a call that raises stops everything,
      and its events stay undrained in the unit of work. */
  function RunHandlers<S, R>(invoke: Invoker<S, R>, m: Message, hs: seq<HandlerId>, st: State<S, R>): Outcome<S, R>
    decreases |hs|
  {
    if |hs| == 0 then Completed(st)
    else
      match invoke(hs[0], m, st.uow)
      case Raised(reason, u) => Aborted(HandlerRaised(hs[0], m, reason), st.(uow := u))
      case Returned(v, u) => RunHandlers(invoke, m, hs[1..], AfterReturn(st, Route(hs[0], m), v, u))
  }

  /** The state after a handler call that returned `v` and left unit of work
      `u`: the value is appended to the results, and the unit of work's new
      events are collected onto the tail of the queue. */
  function AfterReturn<S, R>(st: State<S, R>, route: Route, v: R, u: UnitOfWork<S>): State<S, R>
  {
    var collected := CollectNewEvents(u);
    st.(
      queue := st.queue + collected.0,
      results := st.results + [v],
      uow := collected.1,
      calls := st.calls + [Call(route, st.uow, v, u)])
  }

  /** One iteration of the outer loop: pop the head, look up its class, run its handlers. */
  function ProcessNext<S, R>(reg: HandlerTable, invoke: Invoker<S, R>, st: State<S, R>): Outcome<S, R>
    requires |st.queue| > 0
  {
    var m := st.queue[0];
    var popped := st.(queue := st.queue[1..], popped := st.popped + [m]);
    if m.tag !in reg then Aborted(MissingRoute(m.tag), popped)
    else RunHandlers(invoke, m, reg[m.tag], popped)
  }

  /** The outer loop, popping at most `fuel` more messages. */
  function Run<S, R>(reg: HandlerTable, invoke: Invoker<S, R>, st: State<S, R>, fuel: nat): Outcome<S, R>
    decreases fuel
  {
    if |st.queue| == 0 then Completed(st)
    else if fuel == 0 then Exhausted(st)
    else
      match ProcessNext(reg, invoke, st)
      case Completed(next) => Run(reg, invoke, next, fuel - 1)
      case Aborted(e, s) => Aborted(e, s)
      case Exhausted(s) => Exhausted(s)
  }

  /** The dispatcher over an arbitrary registry. */
  function Dispatch<S, R>(reg: HandlerTable, invoke: Invoker<S, R>, m: Message, u: UnitOfWork<S>, fuel: nat): Outcome<S, R>
  {
    Run(reg, invoke, Init(m, u), fuel)
  }

  /** `handle` in `messagebus.py`: the dispatcher over the process-wide registry. */
  function Handle<S, R>(invoke: Invoker<S, R>, m: Message, u: UnitOfWork<S>, fuel: nat): Outcome<S, R>
  {
    Dispatch(HANDLERS, invoke, m, u, fuel)
  }

  // ----- the trace, and what it must look like -----

  /** Every event drained so far, in drain order. */
  ghost function Drained<S, R>(cs: seq<Call<S, R>>): seq<Message>
    decreases |cs|
  {
    if |cs| == 0 then [] else Drained(cs[..|cs| - 1]) + cs[|cs| - 1].after.events
  }

  /** Which handler ran on which message, call by call. */
  ghost function CallRoutes<S, R>(cs: seq<Call<S, R>>): (rs: seq<Route>)
    ensures |rs| == |cs|
    ensures forall i :: 0 <= i < |cs| ==> rs[i] == cs[i].route
    decreases |cs|
  {
    if |cs| == 0 then [] else CallRoutes(cs[..|cs| - 1]) + [cs[|cs| - 1].route]
  }

  /** The unit of work after calls `cs`, starting from `u0`: the last call's
      unit of work with its buffer drained. */
  ghost function Settled<S, R>(u0: UnitOfWork<S>, cs: seq<Call<S, R>>): UnitOfWork<S>
  {
    if |cs| == 0 then u0 else CollectNewEvents(cs[|cs| - 1].after).1
  }

  /** Each recorded call is what the handler really did, and each call was given
      the unit of work the previous call left, drained. */
  ghost predicate Faithful<S, R>(invoke: Invoker<S, R>, u0: UnitOfWork<S>, cs: seq<Call<S, R>>)
    decreases |cs|
  {
    |cs| == 0 ||
    (var c, front := cs[|cs| - 1], cs[..|cs| - 1];
     && Faithful(invoke, u0, front)
     && c.before == Settled(u0, front)
     && invoke(c.route.handler, c.route.message, c.before) == Returned(c.value, c.after))
  }

  /** One result per handler call, in call order. */
  ghost predicate ResultsMatch<S, R>(st: State<S, R>)
  {
    && |st.results| == |st.calls|
    && forall i :: 0 <= i < |st.calls| ==> st.results[i] == st.calls[i].value
  }

  /** FIFO: the messages popped so far followed by the queue are exactly the
      input message followed by every drained event, in drain order. */
  ghost predicate Fifo<S, R>(m0: Message, st: State<S, R>)
  {
    st.popped + st.queue == [m0] + Drained(st.calls)
  }

  /** Nothing is popped before it was enqueued: every popped message after
      the input was popped once the handlers of the messages before it had
      run, and the calls made by then had already drained it onto the queue. */
  ghost predicate Causal<S, R>(reg: HandlerTable, popped: seq<Message>, cs: seq<Call<S, R>>)
  {
    forall j :: 0 < j < |popped| ==> DrainedBeforePop(reg, popped, cs, j)
  }

  /** Popped message `j` is among the events drained by the calls on the
      messages popped before it (the input counts as message 0). */
  ghost predicate DrainedBeforePop<S, R>(reg: HandlerTable, popped: seq<Message>, cs: seq<Call<S, R>>, j: nat)
    requires 0 < j < |popped|
  {
    && CallsBefore(reg, popped, j) <= |cs|
    && j <= |Drained(cs[..CallsBefore(reg, popped, j)])|
  }

  /** How many handler calls the registry plans for the first `j` popped messages. */
  ghost function CallsBefore(reg: HandlerTable, popped: seq<Message>, j: nat): nat
    requires j <= |popped|
  {
    |Routed(reg, popped[..j])|
  }

  /** What holds between two iterations of the outer loop. */
  ghost predicate Invariant<S, R>(reg: HandlerTable, invoke: Invoker<S, R>, m0: Message, u0: UnitOfWork<S>, st: State<S, R>)
  {
    && Fifo(m0, st)
    && Causal(reg, st.popped, st.calls)
    && ResultsMatch(st)
    && Faithful(invoke, u0, st.calls)
    && st.uow == Settled(u0, st.calls)
    && AllRouted(reg, st.popped)
    && CallRoutes(st.calls) == Routed(reg, st.popped)
  }

  /** What holds while the handlers of `m`, the last popped message, run:
      `done` are the handlers already called on it. */
  ghost predicate Midway<S, R>(reg: HandlerTable, invoke: Invoker<S, R>, m0: Message, u0: UnitOfWork<S>,
                               st: State<S, R>, m: Message, done: seq<HandlerId>)
  {
    && |st.popped| > 0
    && st.popped[|st.popped| - 1] == m
    && m.tag in reg
    && Fifo(m0, st)
    && Causal(reg, st.popped, st.calls)
    && ResultsMatch(st)
    && Faithful(invoke, u0, st.calls)
    && st.uow == Settled(u0, st.calls)
    && AllRouted(reg, st.popped)
    && CallRoutes(st.calls) == Routed(reg, st.popped[..|st.popped| - 1]) + RoutesOf(m, done)
  }

  /** A lookup failure: the last popped message has no entry and no handler was
      called on it; everything before it was processed in full. */
  ghost predicate StoppedByMissingRoute<S, R>(reg: HandlerTable, invoke: Invoker<S, R>, m0: Message, u0: UnitOfWork<S>,
                                              e: Error, st: State<S, R>)
  {
    && e.MissingRoute?
    && |st.popped| > 0
    && st.popped[|st.popped| - 1].tag == e.tag
    && e.tag !in reg
    && Fifo(m0, st)
    && Causal(reg, st.popped, st.calls)
    && ResultsMatch(st)
    && Faithful(invoke, u0, st.calls)
    && st.uow == Settled(u0, st.calls)
    && AllRouted(reg, st.popped[..|st.popped| - 1])
    && CallRoutes(st.calls) == Routed(reg, st.popped[..|st.popped| - 1])
  }

  /** A handler raised: it is the k-th handler of the last popped message, the
      handlers before it ran, its events were not drained (the unit of work is
      exactly what the raising call left), and nothing after it ran. */
  ghost predicate StoppedByHandler<S, R>(reg: HandlerTable, invoke: Invoker<S, R>, m0: Message, u0: UnitOfWork<S>,
                                         e: Error, st: State<S, R>)
  {
    && e.HandlerRaised?
    && |st.popped| > 0
    && var front, m := st.popped[..|st.popped| - 1], st.popped[|st.popped| - 1];
    && e.message == m
    && m.tag in reg
    && Fifo(m0, st)
    && Causal(reg, st.popped, st.calls)
    && ResultsMatch(st)
    && Faithful(invoke, u0, st.calls)
    && AllRouted(reg, st.popped)
    && |Routed(reg, front)| <= |st.calls|
    && var k := |st.calls| - |Routed(reg, front)|;
    && k < |reg[m.tag]|
    && reg[m.tag][k] == e.handler
    && CallRoutes(st.calls) == Routed(reg, front) + RoutesOf(m, reg[m.tag][..k])
    && invoke(e.handler, m, Settled(u0, st.calls)) == Raised(e.reason, st.uow)
  }

  /** An error ended the dispatch, with everything before it accounted for. */
  ghost predicate Stopped<S, R>(reg: HandlerTable, invoke: Invoker<S, R>, m0: Message, u0: UnitOfWork<S>, e: Error, st: State<S, R>)
  {
    StoppedByMissingRoute(reg, invoke, m0, u0, e, st) || StoppedByHandler(reg, invoke, m0, u0, e, st)
  }

  /** What one iteration of the outer loop promises, from a state between iterations. */
  ghost predicate SoundStep<S, R>(reg: HandlerTable, invoke: Invoker<S, R>, m0: Message, u0: UnitOfWork<S>, out: Outcome<S, R>)
  {
    match out
    case Completed(st) => Invariant(reg, invoke, m0, u0, st)
    case Exhausted(_) => false
    case Aborted(e, st) => Stopped(reg, invoke, m0, u0, e, st)
  }

  /** Everything a dispatch outcome promises. */
  ghost predicate Sound<S, R>(reg: HandlerTable, invoke: Invoker<S, R>, m0: Message, u0: UnitOfWork<S>, out: Outcome<S, R>)
  {
    match out
    case Completed(st) => Invariant(reg, invoke, m0, u0, st) && |st.queue| == 0
    case Exhausted(st) => Invariant(reg, invoke, m0, u0, st) && |st.queue| > 0
    case Aborted(e, st) => Stopped(reg, invoke, m0, u0, e, st)
  }
}
