/**
  Proofs about the message bus: the dispatch invariant holds after every
  handler call and every popped message, and what it gives a caller of
  `handle` — FIFO processing, one result per handler call, handlers in
  registry order, a drain after every call, and what a lookup failure or a
  raising handler leaves behind.
 */
module MessageBusProofs {
  import opened Messages
  import opened Uow
  import opened Registry
  import opened MessageBus

  // ----- appending one call to the trace -----

  lemma TraceAppend<S, R>(invoke: Invoker<S, R>, u0: UnitOfWork<S>, cs: seq<Call<S, R>>, c: Call<S, R>)
    ensures Drained(cs + [c]) == Drained(cs) + c.after.events
    ensures Settled(u0, cs + [c]) == CollectNewEvents(c.after).1
    ensures Faithful(invoke, u0, cs + [c]) <==>
      && Faithful(invoke, u0, cs)
      && c.before == Settled(u0, cs)
      && invoke(c.route.handler, c.route.message, c.before) == Returned(c.value, c.after)
  {
  }

  // ----- the invariant, step by step -----

  /** Before the first iteration the queue holds only the input message, there
      are no results, and the invariant holds. */
  lemma InitEstablishesInvariant<S, R>(reg: HandlerTable, invoke: Invoker<S, R>, m0: Message, u0: UnitOfWork<S>)
    ensures Init<S, R>(m0, u0).queue == [m0]
    ensures Init<S, R>(m0, u0).results == []
    ensures Invariant(reg, invoke, m0, u0, Init<S, R>(m0, u0))
  {
  }

  /** A handler call that raises stops the dispatch with the invariant's
      promises intact for everything before it. */
  lemma RaisingCallStops<S, R>(reg: HandlerTable, invoke: Invoker<S, R>, m0: Message, u0: UnitOfWork<S>,
                               st: State<S, R>, m: Message, done: seq<HandlerId>, hs: seq<HandlerId>,
                               reason: string, u: UnitOfWork<S>)
    requires Midway(reg, invoke, m0, u0, st, m, done)
    requires done + hs == reg[m.tag]
    requires |hs| > 0
    requires invoke(hs[0], m, st.uow) == Raised(reason, u)
    ensures StoppedByHandler(reg, invoke, m0, u0, HandlerRaised(hs[0], m, reason), st.(uow := u))
    ensures SoundStep(reg, invoke, m0, u0, RunHandlers(invoke, m, hs, st))
  {
    RunHandlersUnfold(invoke, m, hs, st);
  }

  /** One unfolding of the handler loop. */
  lemma RunHandlersUnfold<S, R>(invoke: Invoker<S, R>, m: Message, hs: seq<HandlerId>, st: State<S, R>)
    requires |hs| > 0
    ensures var r := invoke(hs[0], m, st.uow);
      RunHandlers(invoke, m, hs, st) ==
        if r.Raised? then Aborted(HandlerRaised(hs[0], m, r.reason), st.(uow := r.uow))
        else RunHandlers(invoke, m, hs[1..], AfterReturn(st, Route(hs[0], m), r.value, r.uow))
  {
  }

  /** Appending a returned call's events to the queue keeps FIFO order. */
  lemma FifoAfterCall<S, R>(m0: Message, st: State<S, R>, st': State<S, R>, c: Call<S, R>)
    requires Fifo(m0, st)
    requires st'.popped == st.popped
    requires st'.queue == st.queue + c.after.events
    requires st'.calls == st.calls + [c]
    ensures Fifo(m0, st')
  {
    assert Drained(st'.calls) == Drained(st.calls) + c.after.events by {
      assert st'.calls[..|st.calls|] == st.calls;
    }
    calc {
      st'.popped + st'.queue;
      (st.popped + st.queue) + c.after.events;
      ([m0] + Drained(st.calls)) + c.after.events;
      [m0] + Drained(st'.calls);
    }
  }

  /** Appending a returned call's value to the results keeps one result per call. */
  lemma ResultsAfterCall<S, R>(st: State<S, R>, st': State<S, R>, c: Call<S, R>)
    requires ResultsMatch(st)
    requires st'.results == st.results + [c.value]
    requires st'.calls == st.calls + [c]
    ensures ResultsMatch(st')
  {
    forall i | 0 <= i < |st'.calls| ensures st'.results[i] == st'.calls[i].value {
      if i < |st.calls| {
        assert st'.results[i] == st.results[i];
      }
    }
  }

  /** A further handler call keeps causality: the calls made before each
      popped message are unchanged. */
  lemma CausalAfterCall<S, R>(reg: HandlerTable, popped: seq<Message>, cs: seq<Call<S, R>>, c: Call<S, R>)
    requires Causal(reg, popped, cs)
    ensures Causal(reg, popped, cs + [c])
  {
    forall j | 0 < j < |popped| ensures DrainedBeforePop(reg, popped, cs + [c], j) {
      assert DrainedBeforePop(reg, popped, cs, j);
      var n := CallsBefore(reg, popped, j);
      assert (cs + [c])[..n] == cs[..n];
    }
  }

  /** Popping the head of a non-empty queue keeps causality: every handler call
      so far belongs to a message popped earlier, and the popped message is
      among the events those calls drained. */
  lemma CausalAfterPop<S, R>(reg: HandlerTable, m0: Message, st: State<S, R>)
    requires Fifo(m0, st)
    requires Causal(reg, st.popped, st.calls)
    requires CallRoutes(st.calls) == Routed(reg, st.popped)
    requires |st.queue| > 0
    ensures Causal(reg, st.popped + [st.queue[0]], st.calls)
  {
    var popped' := st.popped + [st.queue[0]];
    forall j | 0 < j < |popped'| ensures DrainedBeforePop(reg, popped', st.calls, j) {
      if j < |st.popped| {
        assert DrainedBeforePop(reg, st.popped, st.calls, j);
        assert popped'[..j] == st.popped[..j];
        assert CallsBefore(reg, popped', j) == CallsBefore(reg, st.popped, j);
      } else {
        assert popped'[..j] == st.popped;
        assert st.calls[..|st.calls|] == st.calls;
        assert |st.popped + st.queue| == 1 + |Drained(st.calls)|;
      }
    }
  }

  /** A handler call that returns keeps the invariant, one handler further on. */
  lemma ReturningCallKeeps<S, R>(reg: HandlerTable, invoke: Invoker<S, R>, m0: Message, u0: UnitOfWork<S>,
                                 st: State<S, R>, m: Message, done: seq<HandlerId>, h: HandlerId,
                                 v: R, u: UnitOfWork<S>)
    requires Midway(reg, invoke, m0, u0, st, m, done)
    requires invoke(h, m, st.uow) == Returned(v, u)
    ensures Midway(reg, invoke, m0, u0, AfterReturn(st, Route(h, m), v, u), m, done + [h])
  {
    var c := Call(Route(h, m), st.uow, v, u);
    var st' := AfterReturn(st, Route(h, m), v, u);
    TraceAppend(invoke, u0, st.calls, c);
    FifoAfterCall(m0, st, st', c);
    ResultsAfterCall(st, st', c);
    CausalAfterCall(reg, st.popped, st.calls, c);
    assert CallRoutes(st'.calls) == CallRoutes(st.calls) + [Route(h, m)];
    RoutesOfAppend(m, done, h);
  }

  /** Once every registered handler of the last popped message has run, the
      invariant holds again. */
  lemma AllHandlersDone<S, R>(reg: HandlerTable, invoke: Invoker<S, R>, m0: Message, u0: UnitOfWork<S>,
                              st: State<S, R>, m: Message)
    requires m.tag in reg
    requires Midway(reg, invoke, m0, u0, st, m, reg[m.tag])
    ensures Invariant(reg, invoke, m0, u0, st)
    ensures SoundStep(reg, invoke, m0, u0, RunHandlers(invoke, m, [], st))
  {
    var front := st.popped[..|st.popped| - 1];
    assert st.popped == front + [m];
    RoutedAppend(reg, front, m);
  }

  /** Running the remaining handlers `hs` of the message being processed
      either completes with the invariant restored, or stops at a raising
      handler with nothing after it run. */
  lemma {:induction false} RunHandlersSound<S, R>(reg: HandlerTable, invoke: Invoker<S, R>, m0: Message, u0: UnitOfWork<S>,
                                                  st: State<S, R>, m: Message, done: seq<HandlerId>, hs: seq<HandlerId>)
    requires Midway(reg, invoke, m0, u0, st, m, done)
    requires done + hs == reg[m.tag]
    ensures SoundStep(reg, invoke, m0, u0, RunHandlers(invoke, m, hs, st))
    decreases |hs|, 1
  {
    if |hs| == 0 {
      assert done == reg[m.tag];
      AllHandlersDone(reg, invoke, m0, u0, st, m);
    } else {
      var r := invoke(hs[0], m, st.uow);
      if r.Raised? {
        RaisingCallStops(reg, invoke, m0, u0, st, m, done, hs, r.reason, r.uow);
      } else {
        ReturningCallThenRest(reg, invoke, m0, u0, st, m, done, hs, r.value, r.uow);
      }
    }
  }

  /** The case of `RunHandlersSound` where the next handler returns. */
  lemma {:induction false} ReturningCallThenRest<S, R>(reg: HandlerTable, invoke: Invoker<S, R>, m0: Message, u0: UnitOfWork<S>,
                                                       st: State<S, R>, m: Message, done: seq<HandlerId>, hs: seq<HandlerId>,
                                                       v: R, u: UnitOfWork<S>)
    requires Midway(reg, invoke, m0, u0, st, m, done)
    requires done + hs == reg[m.tag]
    requires |hs| > 0
    requires invoke(hs[0], m, st.uow) == Returned(v, u)
    ensures SoundStep(reg, invoke, m0, u0, RunHandlers(invoke, m, hs, st))
    decreases |hs|, 0
  {
    var st' := AfterReturn(st, Route(hs[0], m), v, u);
    RunHandlersUnfold(invoke, m, hs, st);
    ReturningCallKeeps(reg, invoke, m0, u0, st, m, done, hs[0], v, u);
    assert (done + [hs[0]]) + hs[1..] == reg[m.tag];
    RunHandlersSound(reg, invoke, m0, u0, st', m, done + [hs[0]], hs[1..]);
  }

  /** Popping the head of the queue keeps FIFO order; if its class has no
      entry the dispatch stops there, before any handler is called on it. */
  lemma PopKeeps<S, R>(reg: HandlerTable, invoke: Invoker<S, R>, m0: Message, u0: UnitOfWork<S>, st: State<S, R>)
    requires Invariant(reg, invoke, m0, u0, st)
    requires |st.queue| > 0
    ensures var m := st.queue[0];
      var st1 := st.(queue := st.queue[1..], popped := st.popped + [m]);
      && (m.tag !in reg ==> Stopped(reg, invoke, m0, u0, MissingRoute(m.tag), st1))
      && (m.tag in reg ==> Midway(reg, invoke, m0, u0, st1, m, []))
  {
    var m := st.queue[0];
    var st1 := st.(queue := st.queue[1..], popped := st.popped + [m]);
    PopOrder(reg, m0, st);
    if m.tag in reg {
      assert AllRouted(reg, st1.popped) by {
        forall i | 0 <= i < |st1.popped| ensures st1.popped[i].tag in reg {
          if i < |st.popped| { assert st1.popped[i] == st.popped[i]; }
        }
      }
    }
  }

  /** What popping the head does to the order facts: FIFO and causality hold
      with the head moved from the queue to the popped messages. */
  lemma PopOrder<S, R>(reg: HandlerTable, m0: Message, st: State<S, R>)
    requires Fifo(m0, st)
    requires Causal(reg, st.popped, st.calls)
    requires CallRoutes(st.calls) == Routed(reg, st.popped)
    requires |st.queue| > 0
    ensures var st1 := st.(queue := st.queue[1..], popped := st.popped + [st.queue[0]]);
      && st1.popped[..|st1.popped| - 1] == st.popped
      && Fifo(m0, st1)
      && Causal(reg, st1.popped, st1.calls)
  {
    var st1 := st.(queue := st.queue[1..], popped := st.popped + [st.queue[0]]);
    assert st1.popped + st1.queue == st.popped + st.queue;
    CausalAfterPop(reg, m0, st);
  }

  /** One iteration of the outer loop keeps the invariant, or stops for a
      missing registry entry or a raising handler. */
  lemma ProcessNextSound<S, R>(reg: HandlerTable, invoke: Invoker<S, R>, m0: Message, u0: UnitOfWork<S>, st: State<S, R>)
    requires Invariant(reg, invoke, m0, u0, st)
    requires |st.queue| > 0
    ensures SoundStep(reg, invoke, m0, u0, ProcessNext(reg, invoke, st))
  {
    var m := st.queue[0];
    var st1 := st.(queue := st.queue[1..], popped := st.popped + [m]);
    PopKeeps(reg, invoke, m0, u0, st);
    if m.tag in reg {
      RunHandlersSound(reg, invoke, m0, u0, st1, m, [], reg[m.tag]);
    }
  }

  /** The outer loop, from any state between iterations. */
  lemma {:induction false} RunSound<S, R>(reg: HandlerTable, invoke: Invoker<S, R>, m0: Message, u0: UnitOfWork<S>,
                                          st: State<S, R>, fuel: nat)
    requires Invariant(reg, invoke, m0, u0, st)
    ensures Sound(reg, invoke, m0, u0, Run(reg, invoke, st, fuel))
    decreases fuel, 2
  {
    if |st.queue| > 0 && fuel > 0 {
      RunIterationSound(reg, invoke, m0, u0, st, fuel);
    }
  }

  /** The case of `RunSound` where a message is popped. */
  lemma {:induction false} RunIterationSound<S, R>(reg: HandlerTable, invoke: Invoker<S, R>, m0: Message, u0: UnitOfWork<S>,
                                                   st: State<S, R>, fuel: nat)
    requires Invariant(reg, invoke, m0, u0, st)
    requires |st.queue| > 0 && fuel > 0
    ensures Sound(reg, invoke, m0, u0, Run(reg, invoke, st, fuel))
    decreases fuel, 1
  {
    ProcessNextSound(reg, invoke, m0, u0, st);
    if ProcessNext(reg, invoke, st).Completed? {
      IterationThenRest(reg, invoke, m0, u0, st, ProcessNext(reg, invoke, st).state, fuel);
    } else {
      IterationStops(reg, invoke, m0, u0, st, fuel);
    }
  }

  /** The case of `RunIterationSound` where the popped message is done and
      the loop goes on. */
  lemma {:induction false} IterationThenRest<S, R>(reg: HandlerTable, invoke: Invoker<S, R>, m0: Message, u0: UnitOfWork<S>,
                                                   st: State<S, R>, next: State<S, R>, fuel: nat)
    requires |st.queue| > 0 && fuel > 0
    requires ProcessNext(reg, invoke, st) == Completed(next)
    requires Invariant(reg, invoke, m0, u0, next)
    ensures Sound(reg, invoke, m0, u0, Run(reg, invoke, st, fuel))
    decreases fuel, 0
  {
    RunUnfold(reg, invoke, st, fuel);
    RunSound(reg, invoke, m0, u0, next, fuel - 1);
  }

  /** The case of `RunIterationSound` where the iteration stops the loop. */
  lemma IterationStops<S, R>(reg: HandlerTable, invoke: Invoker<S, R>, m0: Message, u0: UnitOfWork<S>,
                             st: State<S, R>, fuel: nat)
    requires |st.queue| > 0 && fuel > 0
    requires !ProcessNext(reg, invoke, st).Completed?
    requires SoundStep(reg, invoke, m0, u0, ProcessNext(reg, invoke, st))
    ensures Sound(reg, invoke, m0, u0, Run(reg, invoke, st, fuel))
  {
    RunUnfold(reg, invoke, st, fuel);
  }

  /** One unfolding of the outer loop. */
  lemma RunUnfold<S, R>(reg: HandlerTable, invoke: Invoker<S, R>, st: State<S, R>, fuel: nat)
    requires |st.queue| > 0 && fuel > 0
    ensures var out := ProcessNext(reg, invoke, st);
      Run(reg, invoke, st, fuel) == if out.Completed? then Run(reg, invoke, out.state, fuel - 1) else out
  {
  }

  /** Every way a dispatch can end satisfies its promises. */
  lemma DispatchSound<S, R>(reg: HandlerTable, invoke: Invoker<S, R>, m0: Message, u0: UnitOfWork<S>, fuel: nat)
    ensures Sound(reg, invoke, m0, u0, Dispatch(reg, invoke, m0, u0, fuel))
  {
    InitEstablishesInvariant<S, R>(reg, invoke, m0, u0);
    RunSound(reg, invoke, m0, u0, Init<S, R>(m0, u0), fuel);
  }

  // ----- what the invariant gives a caller -----

  /** On normal return the queue is empty; every message ever enqueued — the
      input, then each drained event in drain order — was popped exactly once,
      in that order, and only after a call on an earlier message drained it;
      the results are the handler calls' return values, one per call, in call
      order; and the calls are exactly the registered handlers of each popped
      message, message by message, in registry order, each one recording what
      its handler did to the unit of work it was given. */
  lemma CompletedDispatch<S, R>(reg: HandlerTable, invoke: Invoker<S, R>, m0: Message, u0: UnitOfWork<S>, fuel: nat)
    requires Dispatch(reg, invoke, m0, u0, fuel).Completed?
    ensures var st := Dispatch(reg, invoke, m0, u0, fuel).state;
      && st.queue == []
      && st.popped == [m0] + Drained(st.calls)
      && |st.results| == |st.calls|
      && (forall i :: 0 <= i < |st.calls| ==> st.results[i] == st.calls[i].value)
      && AllRouted(reg, st.popped)
      && CallRoutes(st.calls) == Routed(reg, st.popped)
      && st.uow == Settled(u0, st.calls)
      && Faithful(invoke, u0, st.calls)
      && Causal(reg, st.popped, st.calls)
  {
    DispatchSound(reg, invoke, m0, u0, fuel);
  }

  /** The unit of work each handler call is given is the one the previous call
      left, drained: its buffer is empty and its store is the one the previous
      call left. The first call gets the caller's unit of work. */
  lemma {:induction false} DrainBetweenCalls<S, R>(invoke: Invoker<S, R>, u0: UnitOfWork<S>, cs: seq<Call<S, R>>)
    requires Faithful(invoke, u0, cs)
    ensures |cs| > 0 ==> cs[0].before == u0
    ensures forall i :: 0 < i < |cs| ==>
      cs[i].before.events == [] && cs[i].before.store == cs[i - 1].after.store
    ensures forall i :: 0 <= i < |cs| ==>
      invoke(cs[i].route.handler, cs[i].route.message, cs[i].before) == Returned(cs[i].value, cs[i].after)
    decreases |cs|
  {
    if |cs| > 0 {
      var front := cs[..|cs| - 1];
      DrainBetweenCalls(invoke, u0, front);
      forall i | 0 <= i < |front| ensures cs[i] == front[i] { }
    }
  }

  /** A message whose class has no registry entry stops the dispatch as soon as
      it is popped, before any handler is called on it. */
  lemma UnroutedMessageAborts<S, R>(reg: HandlerTable, invoke: Invoker<S, R>, m0: Message, u0: UnitOfWork<S>, fuel: nat)
    requires m0.tag !in reg
    requires fuel > 0
    ensures Dispatch(reg, invoke, m0, u0, fuel) == Aborted(MissingRoute(m0.tag), State([], [], u0, [m0], []))
  {
  }

  /** The web entry points hand commands to `handle`, whose registry only has
      events: the lookup fails before any handler runs. */
  lemma CommandsHaveNoRoute<S, R>(invoke: Invoker<S, R>, m0: Message, u0: UnitOfWork<S>, fuel: nat)
    requires m0.tag == CreateBatchCommand || m0.tag == AllocateCommand
    requires fuel > 0
    ensures Handle(invoke, m0, u0, fuel) == Aborted(MissingRoute(m0.tag), State([], [], u0, [m0], []))
  {
    HandlersShape();
    UnroutedMessageAborts(HANDLERS, invoke, m0, u0, fuel);
  }

  /** When the first handler of the input message raises, the exception leaves
      `handle` at once: no result, no drain (its events stay in the unit of
      work), and nothing else is processed. */
  lemma FirstHandlerRaises<S, R>(reg: HandlerTable, invoke: Invoker<S, R>, m0: Message, u0: UnitOfWork<S>, fuel: nat,
                                 reason: string, u: UnitOfWork<S>)
    requires m0.tag in reg && |reg[m0.tag]| > 0
    requires invoke(reg[m0.tag][0], m0, u0) == Raised(reason, u)
    requires fuel > 0
    ensures Dispatch(reg, invoke, m0, u0, fuel)
      == Aborted(HandlerRaised(reg[m0.tag][0], m0, reason), State([], [], u, [m0], []))
  {
  }

  /** Under the process-wide registry every processed message yields exactly
      one result, the value its sole registered handler returned when called on
      it with the unit of work the dispatch handed over. */
  lemma HandleOneResultPerMessage<S, R>(invoke: Invoker<S, R>, m0: Message, u0: UnitOfWork<S>, fuel: nat)
    requires Handle(invoke, m0, u0, fuel).Completed?
    ensures var st := Handle(invoke, m0, u0, fuel).state;
      && |st.results| == |st.popped| == |st.calls|
      && (forall i :: 0 <= i < |st.popped| ==>
            && st.popped[i].tag in HANDLERS
            && st.calls[i].route == Route(HANDLERS[st.popped[i].tag][0], st.popped[i])
            && st.results[i] == st.calls[i].value
            && invoke(HANDLERS[st.popped[i].tag][0], st.popped[i], st.calls[i].before)
               == Returned(st.results[i], st.calls[i].after))
      && Faithful(invoke, u0, st.calls)
  {
    var st := Handle(invoke, m0, u0, fuel).state;
    CompletedDispatch(HANDLERS, invoke, m0, u0, fuel);
    RoutedUnderHandlers(st.popped);
    DrainBetweenCalls(invoke, u0, st.calls);
  }

  /** Nothing is processed that no handler raised: when the input message's
      sole handler returns without raising events, `handle` pops nothing else
      and returns exactly that handler's value. */
  lemma QuietHandlerEndsHandle<S, R>(invoke: Invoker<S, R>, m0: Message, u0: UnitOfWork<S>, fuel: nat,
                                     v: R, u: UnitOfWork<S>)
    requires m0.tag in HANDLERS
    requires invoke(HANDLERS[m0.tag][0], m0, u0) == Returned(v, u)
    requires u.events == []
    requires Handle(invoke, m0, u0, fuel).Completed?
    ensures Handle(invoke, m0, u0, fuel).state.popped == [m0]
    ensures Handle(invoke, m0, u0, fuel).state.results == [v]
  {
    var st := Handle(invoke, m0, u0, fuel).state;
    CompletedDispatch(HANDLERS, invoke, m0, u0, fuel);
    assert st.popped[0] == m0;
    QuietFirstCallEndsTrace(invoke, m0, u0, st, v, u);
  }

  /** The trace-level core of `QuietHandlerEndsHandle`: in a causal trace
      under the process-wide registry that starts with `m0`, a first call that
      raises no events is the only call. */
  lemma QuietFirstCallEndsTrace<S, R>(invoke: Invoker<S, R>, m0: Message, u0: UnitOfWork<S>, st: State<S, R>,
                                      v: R, u: UnitOfWork<S>)
    requires m0.tag in HANDLERS
    requires invoke(HANDLERS[m0.tag][0], m0, u0) == Returned(v, u)
    requires u.events == []
    requires |st.popped| > 0 && st.popped[0] == m0
    requires ResultsMatch(st)
    requires Faithful(invoke, u0, st.calls)
    requires AllRouted(HANDLERS, st.popped)
    requires CallRoutes(st.calls) == Routed(HANDLERS, st.popped)
    requires Causal(HANDLERS, st.popped, st.calls)
    ensures st.popped == [m0]
    ensures st.results == [v]
  {
    FirstCallUnderHandlers(invoke, m0, u0, st, v, u);
    QuietFirstCallOnePop(HANDLERS, st.popped, st.calls);
  }

  /** Causality in a trace whose input message has a single handler: if that
      handler's call drained nothing, nothing after the input was popped. */
  lemma QuietFirstCallOnePop<S, R>(reg: HandlerTable, popped: seq<Message>, cs: seq<Call<S, R>>)
    requires Causal(reg, popped, cs)
    requires |popped| > 0 && |HandlersFor(reg, popped[0].tag)| == 1
    requires |cs| > 0 && cs[0].after.events == []
    ensures |popped| == 1
  {
    assert cs[..1] == [cs[0]];
    assert Drained(cs[..1]) == [];
    if |popped| > 1 {
      SecondPopNeedsDrain(reg, popped, cs);
    }
  }

  /** In a trace under the process-wide registry the first call is the input
      message's sole handler, given the caller's unit of work. */
  lemma FirstCallUnderHandlers<S, R>(invoke: Invoker<S, R>, m0: Message, u0: UnitOfWork<S>, st: State<S, R>,
                                     v: R, u: UnitOfWork<S>)
    requires m0.tag in HANDLERS
    requires invoke(HANDLERS[m0.tag][0], m0, u0) == Returned(v, u)
    requires |st.popped| > 0 && st.popped[0] == m0
    requires ResultsMatch(st)
    requires Faithful(invoke, u0, st.calls)
    requires AllRouted(HANDLERS, st.popped)
    requires CallRoutes(st.calls) == Routed(HANDLERS, st.popped)
    ensures |HandlersFor(HANDLERS, m0.tag)| == 1
    ensures |st.results| == |st.calls| == |st.popped|
    ensures st.calls[0].after == u && st.calls[0].value == v
  {
    HandlersShape();
    RoutedUnderHandlers(st.popped);
    DrainBetweenCalls(invoke, u0, st.calls);
    assert st.calls[0].route == Route(HANDLERS[m0.tag][0], m0);
  }

  /** Causality for the first message after the input: it is among the events
      drained by the calls on the input message. */
  lemma SecondPopNeedsDrain<S, R>(reg: HandlerTable, popped: seq<Message>, cs: seq<Call<S, R>>)
    requires Causal(reg, popped, cs)
    requires |popped| > 1
    ensures var n := |HandlersFor(reg, popped[0].tag)|;
      n <= |cs| && 1 <= |Drained(cs[..n])|
  {
    assert popped[..1] == [popped[0]];
    assert Routed(reg, [popped[0]]) == Routed(reg, []) + RoutesOf(popped[0], HandlersFor(reg, popped[0].tag));
    assert CallsBefore(reg, popped, 1) == |HandlersFor(reg, popped[0].tag)|;
    assert DrainedBeforePop(reg, popped, cs, 1);
  }

  // ----- fuel -----

  /** A run never pops more messages than its fuel allows. */
  lemma {:induction false} RunPopsAtMostFuel<S, R>(reg: HandlerTable, invoke: Invoker<S, R>, st: State<S, R>, fuel: nat)
    ensures |Run(reg, invoke, st, fuel).state.popped| <= |st.popped| + fuel
    decreases fuel
  {
    if |st.queue| > 0 && fuel > 0 {
      var m := st.queue[0];
      var st1 := st.(queue := st.queue[1..], popped := st.popped + [m]);
      if m.tag in reg {
        RunHandlersKeepsPopped(invoke, m, reg[m.tag], st1);
      }
      match ProcessNext(reg, invoke, st)
      case Completed(next) => RunPopsAtMostFuel(reg, invoke, next, fuel - 1);
      case Aborted(_, _) =>
      case Exhausted(_) =>
    }
  }

  /** Calling handlers pops nothing. */
  lemma {:induction false} RunHandlersKeepsPopped<S, R>(invoke: Invoker<S, R>, m: Message, hs: seq<HandlerId>, st: State<S, R>)
    ensures RunHandlers(invoke, m, hs, st).state.popped == st.popped
    ensures !RunHandlers(invoke, m, hs, st).Exhausted?
    decreases |hs|
  {
    if |hs| > 0 {
      match invoke(hs[0], m, st.uow)
      case Raised(_, _) =>
      case Returned(v, u) =>
        RunHandlersKeepsPopped(invoke, m, hs[1..], AfterReturn(st, Route(hs[0], m), v, u));
    }
  }

  /** Fuel is only a bound: a run that finished (normally or by an error)
      ends the same way with any larger fuel. */
  lemma {:induction false} MoreFuelSameOutcome<S, R>(reg: HandlerTable, invoke: Invoker<S, R>, st: State<S, R>, fuel: nat, more: nat)
    requires !Run(reg, invoke, st, fuel).Exhausted?
    requires fuel <= more
    ensures Run(reg, invoke, st, more) == Run(reg, invoke, st, fuel)
    decreases fuel
  {
    if |st.queue| > 0 {
      match ProcessNext(reg, invoke, st)
      case Completed(next) => MoreFuelSameOutcome(reg, invoke, next, fuel - 1, more - 1);
      case Aborted(_, _) =>
      case Exhausted(_) =>
    }
  }
}
