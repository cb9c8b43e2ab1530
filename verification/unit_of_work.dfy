/**
  The part of the unit of work the bus relies on: a store it never looks
  into, and the buffer of events the domain has raised since the last drain.
 */
module Uow {
  import opened Messages

  /** `store` stands for the transactional session and the aggregates it has
      seen; `events` is the buffer of events they raised, oldest first. */
  datatype UnitOfWork<S> = UnitOfWork(store: S, events: seq<Message>)

  /** Hands out the buffered events and empties the buffer. This is the
      behaviour the bus assumes of the unit of work's `collect_new_events`;
      the unit of work itself is not part of this model. */
  function CollectNewEvents<S>(u: UnitOfWork<S>): (r: (seq<Message>, UnitOfWork<S>))
  {
    (u.events, u.(events := []))
  }
}
