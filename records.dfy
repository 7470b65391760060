/**
  The two record tables of the delivery-partner core, Partners and Orders,
  as the store holds them, and the errors the handlers answer with.
*/
module Records {
  import opened Wrappers

  type PartnerId = string
  type OrderId = string

  /** An opaque clock reading (a `Date`); only its order matters to this core. */
  type Instant = int

  datatype OnlineStatus = Online | Offline | Busy

  /** The stored name of a presence status. */
  function OnlineStatusName(st: OnlineStatus): string {
    match st
    case Online => "online"
    case Offline => "offline"
    case Busy => "busy"
  }

  /** The request field `onlineStatus`: honoured only when it names one of the three statuses. */
  function ParseOnlineStatus(s: string): (r: Option<OnlineStatus>)
    ensures r.Some? ==> OnlineStatusName(r.value) == s
    ensures r.None? ==> forall st :: OnlineStatusName(st) != s
  {
    if s == "online" then Some(Online)
    else if s == "offline" then Some(Offline)
    else if s == "busy" then Some(Busy)
    else None
  }

  /** The stored name of a status outside this core: never one of the three names this core writes. */
  type OtherStatusName = s: string | s != "ready" && s != "assigned" && s != "accepted" witness ""

  /** The order lifecycle as far as this core sees it; any later fulfilment state is OtherStatus. */
  datatype OrderStatus = Ready | Assigned | Accepted | OtherStatus(name: OtherStatusName)

  /**
    An order's `deliveryPartner` field. A document may lack the field (Absent),
    hold null (Null, what a rejection writes) or hold a partner id. The
    assignment query asks for a MISSING field, so Null and Absent differ.
  */
  datatype PartnerRef = Absent | Null | Bound(partner: PartnerId)

  datatype Partner = Partner(
    name: string,
    phone: string,
    isOnline: bool,
    onlineStatus: OnlineStatus,
    lastOnlineAt: Option<Instant>,
    lastOfflineAt: Option<Instant>,
    lastActive: Option<Instant>,
    currentOrder: Option<OrderId>,
    assignedOrders: seq<OrderId>,
    totalDeliveries: nat,
    totalAccepted: nat,
    totalRejected: nat,
    rating: real)

  datatype Order = Order(
    orderNumber: string,          // the human-facing orderId
    status: OrderStatus,
    deliveryPartner: PartnerRef,
    assignedAt: Option<Instant>,
    acceptedAt: Option<Instant>,
    isUrgent: bool,               // a missing flag reads as false
    createdAt: Instant)

  /** The error answers of the handlers (HTTP 400 and 404 in the source). */
  datatype Error =
    | InvalidAction            // 400: action outside the allowed pair
    | NoFieldToUpdate          // 400: neither name nor phone supplied
    | PhoneAlreadyRegistered   // 400: phone held by another partner
    | MustBeOnline             // 400: partner missing or offline
    | NotFound                 // 404: partner missing, or order missing / not bound to the caller

  /** What respondToOrder did. */
  datatype Response = OrderAccepted | OrderRejected

  /** A request string field counts as supplied only when present and non-empty (JavaScript truthiness). */
  predicate Supplied(s: Option<string>)
    ensures s.None? ==> !Supplied(s)
    ensures s == Some("") ==> !Supplied(s)
    ensures Supplied(s) ==> s.Some? && |s.value| > 0
  {
    s.Some? && s.value != ""
  }
}
