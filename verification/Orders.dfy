/**
 Orders after the sale: shipment, dispute and refund, one row at a time. A row carries its unique
 shipment and dispute; a shipment is addressed by its order.
 */
module Orders {
  import opened Wrappers

  type User = string
  type Time = int

  const DAY_MS: Time := 24 * 3_600_000

  datatype OrderStatus = PendingPayment | Paid | Shipped | Delivered | Cancelled | Refunded

  /** SHIPPED and DELIVERED of a shipment are `Sent` and `Received`, to keep them apart from the order's. */
  datatype ShipmentStatus = Pending | Sent | Received | Returned

  datatype DisputeStatus = Open | InMediation | Resolved | Closed

  datatype Shipment = Shipment(status: ShipmentStatus, shippedAt: Option<Time>, deliveredAt: Option<Time>)

  datatype Order = Order(
    buyer: User,
    seller: User,
    total: nat,
    status: OrderStatus,
    createdAt: Time,
    updatedAt: Time,
    sellerNet: Option<nat>,
    settledAt: Option<Time>,
    shipment: Option<Shipment>,
    dispute: Option<DisputeStatus>,
    refundRequested: bool)
  {
    function DeliveredAt(): Option<Time> {
      if shipment.Some? then shipment.value.deliveredAt else None
    }
  }

  datatype OrderError = NotFound | Forbidden | BadRequest

  /** The order's own state machine; CANCELLED and REFUNDED are terminal. */
  predicate CanTransition(from: OrderStatus, to: OrderStatus) {
    match from
    case PendingPayment => to == Paid || to == Cancelled
    case Paid => to == Shipped || to == Refunded
    case Shipped => to == Delivered
    case Delivered => to == Refunded
    case _ => false
  }

  /** The order status a shipment status implies; two of the four imply none. */
  function ImpliedStatus(status: ShipmentStatus): Option<OrderStatus> {
    match status
    case Sent => Some(Shipped)
    case Received => Some(Delivered)
    case _ => None
  }

  /** Who declares a shipment status: reception is the buyer's, everything else the seller's. */
  function Declarer(order: Order, status: ShipmentStatus): User {
    if status.Received? then order.buyer else order.seller
  }

  // ---------- Operations on one row ----------

  function ShipmentCreated(order: Order, user: User): Result<Order, OrderError> {
    if order.seller != user then Failure(Forbidden)
    else if order.status != Paid then Failure(BadRequest)
    else if order.shipment.Some? then Failure(BadRequest)
    else Success(order.(shipment := Some(Shipment(Pending, None, None))))
  }

  function Stamped(shipment: Shipment, status: ShipmentStatus, now: Time): Shipment {
    if status.Sent? && shipment.shippedAt.None? then shipment.(status := status, shippedAt := Some(now))
    else if status.Received? && shipment.deliveredAt.None? then shipment.(status := status, deliveredAt := Some(now))
    else shipment.(status := status)
  }

  function ShipmentUpdated(order: Order, user: User, status: ShipmentStatus, now: Time): Result<Order, OrderError> {
    if order.shipment.None? then Failure(NotFound)
    else if user != Declarer(order, status) then Failure(Forbidden)
    else
      var implied := ImpliedStatus(status);
      var stamped := order.(shipment := Some(Stamped(order.shipment.value, status, now)));
      if implied.None? then Success(stamped)
      else if !CanTransition(order.status, implied.value) then Failure(BadRequest)
      else Success(stamped.(status := implied.value, updatedAt := now))
  }

  const DISPUTE_WINDOW_DAYS := 14

  /** The window counts from the delivery, or from the order's last change where there is none. */
  function DisputeReference(order: Order): Time {
    var delivered := order.DeliveredAt();
    if delivered.Some? then delivered.value else order.updatedAt
  }

  function DisputeOpened(order: Order, user: User, now: Time): Result<Order, OrderError> {
    if order.buyer != user && order.seller != user then Failure(Forbidden)
    else if order.dispute.Some? then Failure(BadRequest)
    else if !(order.status.Delivered? || order.status.Paid? || order.status.Shipped?) then Failure(BadRequest)
    else if now - DisputeReference(order) > DISPUTE_WINDOW_DAYS * DAY_MS then Failure(BadRequest)
    else Success(order.(dispute := Some(Open)))
  }

  /** The administrator's decisions write the status they name, whatever it was. */
  function DisputeMarked(order: Order, status: DisputeStatus): Result<Order, OrderError> {
    if order.dispute.None? then Failure(NotFound) else Success(order.(dispute := Some(status)))
  }

  /** The row's side of a refund; the money is moved by the wallet. */
  function RefundCreated(order: Order, amount: int, now: Time): Result<Order, OrderError> {
    if order.refundRequested then Failure(BadRequest)
    else if !CanTransition(order.status, Refunded) then Failure(BadRequest)
    else if amount <= 0 || amount > order.total then Failure(BadRequest)
    else Success(order.(refundRequested := true, status := Refunded, updatedAt := now))
  }

  // ---------- The services ----------

  class OrderTable {
    var orders: seq<Order>

    constructor ()
      ensures orders == []
    {
      orders := [];
    }
  }

  /** The row's answer written back at its place. */
  function Written(orders: seq<Order>, id: nat, r: Result<Order, OrderError>): seq<Order> {
    if id < |orders| && r.Success? then orders[id := r.value] else orders
  }

  class ShipmentsService {
    const table: OrderTable

    constructor (table: OrderTable)
      ensures this.table == table
    {
      this.table := table;
    }

    method Create(user: User, id: nat) returns (error: Option<OrderError>)
      modifies table
      ensures id >= |old(table.orders)| ==> error == Some(NotFound) && table.orders == old(table.orders)
      ensures id < |old(table.orders)| ==>
                var r := ShipmentCreated(old(table.orders)[id], user);
                && table.orders == Written(old(table.orders), id, r)
                && error == if r.Success? then None else Some(r.error)
    {
      if id >= |table.orders| {
        return Some(NotFound);
      }
      var order := table.orders[id];
      if order.seller != user {
        return Some(Forbidden);
      }
      if order.status != Paid {
        return Some(BadRequest);
      }
      if order.shipment.Some? {
        return Some(BadRequest);
      }
      table.orders := table.orders[id := order.(shipment := Some(Shipment(Pending, None, None)))];
      error := None;
    }

    method UpdateStatus(user: User, id: nat, status: ShipmentStatus, now: Time) returns (error: Option<OrderError>)
      modifies table
      ensures id >= |old(table.orders)| ==> error == Some(NotFound) && table.orders == old(table.orders)
      ensures id < |old(table.orders)| ==>
                var r := ShipmentUpdated(old(table.orders)[id], user, status, now);
                && table.orders == Written(old(table.orders), id, r)
                && error == if r.Success? then None else Some(r.error)
    {
      if id >= |table.orders| || table.orders[id].shipment.None? {
        return Some(NotFound);
      }
      var order := table.orders[id];
      if status.Received? && order.buyer != user {
        return Some(Forbidden);
      }
      if !status.Received? && order.seller != user {
        return Some(Forbidden);
      }
      var implied := ImpliedStatus(status);
      if implied.Some? && !CanTransition(order.status, implied.value) {
        return Some(BadRequest);
      }

      var shipment := order.shipment.value;
      var update := shipment.(status := status);
      if status.Sent? && shipment.shippedAt.None? {
        update := update.(shippedAt := Some(now));
      } else if status.Received? && shipment.deliveredAt.None? {
        update := update.(deliveredAt := Some(now));
      }
      var written := order.(shipment := Some(update));
      if implied.Some? {
        written := written.(status := implied.value, updatedAt := now);
      }
      table.orders := table.orders[id := written];
      error := None;
    }
  }

  class DisputesService {
    const table: OrderTable

    constructor (table: OrderTable)
      ensures this.table == table
    {
      this.table := table;
    }

    method Create(user: User, id: nat, now: Time) returns (error: Option<OrderError>)
      modifies table
      ensures id >= |old(table.orders)| ==> error == Some(NotFound) && table.orders == old(table.orders)
      ensures id < |old(table.orders)| ==>
                var r := DisputeOpened(old(table.orders)[id], user, now);
                && table.orders == Written(old(table.orders), id, r)
                && error == if r.Success? then None else Some(r.error)
    {
      if id >= |table.orders| {
        return Some(NotFound);
      }
      var order := table.orders[id];
      if order.buyer != user && order.seller != user {
        return Some(Forbidden);
      }
      if order.dispute.Some? {
        return Some(BadRequest);
      }
      if order.status != Delivered && order.status != Paid && order.status != Shipped {
        return Some(BadRequest);
      }
      var delivered := order.DeliveredAt();
      var reference := if delivered.Some? then delivered.value else order.updatedAt;
      if now - reference > DISPUTE_WINDOW_DAYS * DAY_MS {
        return Some(BadRequest);
      }
      table.orders := table.orders[id := order.(dispute := Some(Open))];
      error := None;
    }
  }
}
