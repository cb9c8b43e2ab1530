/**
  `handle` in `messagebus.py` as a loop: a `while` over the queue with a
  `for` over the registered handlers inside, proved to compute exactly what
  the recursive dispatcher computes.
 */
module MessageBusLoop {
  import opened Messages
  import opened Uow
  import opened Registry
  import opened MessageBus

  method HandleLoop<S, R>(reg: HandlerTable, invoke: Invoker<S, R>, m0: Message, u0: UnitOfWork<S>, fuel: nat)
    returns (out: Outcome<S, R>)
    ensures out == Dispatch(reg, invoke, m0, u0, fuel)
  {
    var st: State<S, R> := State([m0], [], u0, [], []);
    var left := fuel;
    while |st.queue| > 0
      invariant Run(reg, invoke, st, left) == Dispatch(reg, invoke, m0, u0, fuel)
      decreases left
    {
      if left == 0 {
        return Exhausted(st);
      }
      var m := st.queue[0];
      st := st.(queue := st.queue[1..], popped := st.popped + [m]);
      ghost var afterPop := st;
      if m.tag !in reg {
        return Aborted(MissingRoute(m.tag), st);
      }
      var hs := reg[m.tag];
      var i := 0;
      while i < |hs|
        invariant 0 <= i <= |hs|
        invariant RunHandlers(invoke, m, hs[i..], st) == RunHandlers(invoke, m, hs, afterPop)
      {
        assert hs[i..][1..] == hs[i + 1..];
        var h := hs[i];
        match invoke(h, m, st.uow) {
          case Raised(reason, u) =>
            return Aborted(HandlerRaised(h, m, reason), st.(uow := u));
          case Returned(v, u) =>
            var (raised, drained) := CollectNewEvents(u);
            st := st.(queue := st.queue + raised, results := st.results + [v], uow := drained,
                      calls := st.calls + [Call(Route(h, m), st.uow, v, u)]);
        }
        i := i + 1;
      }
      left := left - 1;
    }
    return Completed(st);
  }
}
