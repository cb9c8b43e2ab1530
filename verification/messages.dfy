/**
  Messages of the allocation service and the handlers the bus can route them to.

  The bus dispatches on the concrete class of a message only, so a message is
  modelled as a class tag plus an uninterpreted payload.
 */
module Messages {

  /** Concrete message classes. The first four are the domain events that have
      an entry in the handler registry; the last two are the commands the web
      entry points build and hand to the bus. */
  datatype Tag =
    | BatchCreated
    | BatchQuantityChanged
    | OutOfStock
    | AllocationRequired
    | CreateBatchCommand
    | AllocateCommand

  /** An immutable message: its class and its payload attributes (references,
      SKUs, quantities, dates), which the bus never inspects. */
  datatype Message = Message(tag: Tag, fields: seq<string>)

  /** The handler functions named in the registry. Their bodies live in the
      service layer and are not part of this model. */
  datatype HandlerId =
    | AddBatch
    | ChangeBatchQuantity
    | SendOutOfStockNotification
    | Allocate
}
