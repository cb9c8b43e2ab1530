/**
  The static handler registry: for each message class, the handlers to call,
  in order. A class without an entry has no route at all.
 */
module Registry {
  import opened Messages

  type HandlerTable = map<Tag, seq<HandlerId>>

  /** The bus's process-wide routing table: four event classes, one handler each. */
  const HANDLERS: HandlerTable := map[
    BatchCreated := [AddBatch],
    BatchQuantityChanged := [ChangeBatchQuantity],
    OutOfStock := [SendOutOfStockNotification],
    AllocationRequired := [Allocate]
  ]

  /** One handler invocation on one message, as the registry plans it. */
  datatype Route = Route(handler: HandlerId, message: Message)

  /** The handlers registered for `t`; none when `t` has no entry. */
  function HandlersFor(reg: HandlerTable, t: Tag): seq<HandlerId>
  {
    if t in reg then reg[t] else []
  }

  /** Every message in `ms` has a registry entry. */
  ghost predicate AllRouted(reg: HandlerTable, ms: seq<Message>)
  {
    forall i :: 0 <= i < |ms| ==> ms[i].tag in reg
  }

  /** The invocations of handlers `hs`, in order, on message `m`. */
  function RoutesOf(m: Message, hs: seq<HandlerId>): (rs: seq<Route>)
    ensures |rs| == |hs|
    ensures forall i :: 0 <= i < |hs| ==> rs[i].handler == hs[i] && rs[i].message == m
    decreases |hs|
  {
    if |hs| == 0 then []
    else RoutesOf(m, hs[..|hs| - 1]) + [Route(hs[|hs| - 1], m)]
  }

  /** The invocations the registry plans for messages `ms` processed in order:
      all handlers of the first message, then all of the second, and so on. */
  ghost function Routed(reg: HandlerTable, ms: seq<Message>): seq<Route>
    decreases |ms|
  {
    if |ms| == 0 then []
    else
      var m := ms[|ms| - 1];
      Routed(reg, ms[..|ms| - 1]) + RoutesOf(m, HandlersFor(reg, m.tag))
  }

  lemma RoutesOfAppend(m: Message, hs: seq<HandlerId>, h: HandlerId)
    ensures RoutesOf(m, hs + [h]) == RoutesOf(m, hs) + [Route(h, m)]
  {
  }

  lemma RoutedAppend(reg: HandlerTable, ms: seq<Message>, m: Message)
    ensures Routed(reg, ms + [m]) == Routed(reg, ms) + RoutesOf(m, HandlersFor(reg, m.tag))
  {
  }

  /** The registry has entries for exactly the four event classes, each with a
      single handler, and none for the commands. */
  lemma HandlersShape()
    ensures HANDLERS.Keys == {BatchCreated, BatchQuantityChanged, OutOfStock, AllocationRequired}
    ensures forall t :: t in HANDLERS ==> |HANDLERS[t]| == 1
    ensures CreateBatchCommand !in HANDLERS && AllocateCommand !in HANDLERS
  {
  }

  /** Under HANDLERS every routed message is planned exactly one invocation:
      the i-th planned invocation is the sole handler of the i-th message. */
  lemma {:induction false} RoutedUnderHandlers(ms: seq<Message>)
    requires AllRouted(HANDLERS, ms)
    ensures |Routed(HANDLERS, ms)| == |ms|
    ensures forall i :: 0 <= i < |ms| ==>
      Routed(HANDLERS, ms)[i] == Route(HANDLERS[ms[i].tag][0], ms[i])
    decreases |ms|
  {
    if |ms| > 0 {
      var front, m := ms[..|ms| - 1], ms[|ms| - 1];
      assert AllRouted(HANDLERS, front) by {
        forall i | 0 <= i < |front| ensures front[i].tag in HANDLERS {
          assert front[i] == ms[i];
        }
      }
      RoutedUnderHandlers(front);
      assert m.tag in HANDLERS;
      HandlersShape();
      var tail := RoutesOf(m, HandlersFor(HANDLERS, m.tag));
      assert |tail| == 1;
      assert tail[0] == Route(HANDLERS[m.tag][0], m);
      assert Routed(HANDLERS, ms) == Routed(HANDLERS, front) + tail;
    }
  }
}
