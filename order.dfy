/**
 * The order entity's lifecycle hooks: on persist a missing status becomes
 * PENDING, a missing payment status becomes UNPAID and all three timestamps
 * are stamped; on update only `updatedAt` is stamped. A newly built order has
 * no items.
 */
module Orders {
  import opened Common

  /** `OrderStatus`; its constants other than PENDING are not part of this model. */
  datatype OrderStatus = PENDING | OtherStatus(name: string)

  /** `PaymentStatus`; its constants other than UNPAID are not part of this model. */
  datatype PaymentStatus = UNPAID | OtherPaymentStatus(name: string)

  /** An element of the order's item list (order items are not part of this model). */
  type OrderItemRef = int

  class Order {
    var orderItems: seq<OrderItemRef>
    var orderDate: Option<Timestamp>
    var status: Option<OrderStatus>
    var paymentStatus: Option<PaymentStatus>
    var createdAt: Option<Timestamp>
    var updatedAt: Option<Timestamp>

    /** The builder: the item list defaults to empty; the other fields are whatever the caller gave. */
    constructor Build(orderDate: Option<Timestamp>, status: Option<OrderStatus>, paymentStatus: Option<PaymentStatus>)
      ensures this.orderItems == []
      ensures this.orderDate == orderDate && this.status == status && this.paymentStatus == paymentStatus
      ensures this.createdAt.None? && this.updatedAt.None?
    {
      this.orderItems := [];
      this.orderDate := orderDate;
      this.status := status;
      this.paymentStatus := paymentStatus;
      this.createdAt := None;
      this.updatedAt := None;
    }

    /** `@PrePersist`. */
    method OnCreate(now: Timestamp)
      modifies this
      ensures createdAt == Some(now) && updatedAt == Some(now)
      ensures orderDate == Some(now)
      ensures status == Some(if old(status).None? then PENDING else old(status).value)
      ensures paymentStatus == Some(if old(paymentStatus).None? then UNPAID else old(paymentStatus).value)
      ensures orderItems == old(orderItems)
    {
      createdAt := Some(now);
      updatedAt := Some(now);
      orderDate := Some(now);
      if status.None? {
        status := Some(PENDING);
      }
      if paymentStatus.None? {
        paymentStatus := Some(UNPAID);
      }
    }

    /** `@PreUpdate`. */
    method OnUpdate(now: Timestamp)
      modifies this`updatedAt
      ensures updatedAt == Some(now)
    {
      updatedAt := Some(now);
    }
  }
}
