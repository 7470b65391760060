/**
  The delivery-partner controller: each request handler is one sequential
  step over a store holding the Partner and Order tables.
*/
module Controller {
  import opened Wrappers
  import opened Records
  import opened Queries
  import opened Linkage

  /** At most this many orders are claimed by one assignment call. */
  const BatchSize: nat := 5

  /** The presence and statistics view the dashboard shows. */
  datatype Dashboard = Dashboard(
    isOnline: bool,
    onlineStatus: OnlineStatus,
    currentOrder: Option<OrderId>,
    totalDeliveries: nat,
    totalAccepted: nat,
    totalRejected: nat,
    rating: real,
    todayOrders: nat)

  /** The order record after the assignment update. */
  function Claimed(o: Order, pid: PartnerId, now: Instant): (r: Order)
    ensures r.deliveryPartner == Bound(pid) && r.status == Assigned && r.assignedAt == Some(now)
    // a claimed order cannot be claimed again by a later assignment
    ensures !Eligible(r)
    // the update document names only those three fields
    ensures r.orderNumber == o.orderNumber && r.acceptedAt == o.acceptedAt
    ensures r.isUrgent == o.isUrgent && r.createdAt == o.createdAt
  {
    o.(deliveryPartner := Bound(pid), status := Assigned, assignedAt := Some(now))
  }

  class DeliveryStore {
    var partners: map<PartnerId, Partner>
    var orders: map<OrderId, Order>
    /** The natural order in which the order collection yields its documents. */
    var storageOrder: seq<OrderId>

    ghost predicate Valid()
      reads this
    {
      && NoDuplicates(storageOrder)
      && (forall id :: id in orders <==> id in storageOrder)
      && Linked(partners, orders)
    }

    constructor (partners0: map<PartnerId, Partner>, orders0: map<OrderId, Order>, storageOrder0: seq<OrderId>)
      requires NoDuplicates(storageOrder0) && (forall id :: id in orders0 <==> id in storageOrder0)
      requires Linked(partners0, orders0)
      ensures partners == partners0 && orders == orders0 && storageOrder == storageOrder0
      ensures Valid()
    {
      partners, orders, storageOrder := partners0, orders0, storageOrder0;
    }

    /**
      updateDeliveryPartnerProfile: set name and/or phone. Needs at least one
      of them, and refuses a phone held by another partner. An unknown partner
      id updates nothing and answers with no record.
    */
    method UpdateProfile(pid: PartnerId, name: Option<string>, phone: Option<string>)
      returns (r: Result<Option<Partner>, Error>)
      modifies this`partners
      ensures !Supplied(name) && !Supplied(phone) ==>
        r == Failure(NoFieldToUpdate) && partners == old(partners)
      ensures ((Supplied(name) || Supplied(phone)) &&
        Supplied(phone) && PhoneHeldByOther(old(partners), pid, phone.value)) ==>
        r == Failure(PhoneAlreadyRegistered) && partners == old(partners)
      ensures r.Success? <==>
        (Supplied(name) || Supplied(phone)) &&
        !(Supplied(phone) && PhoneHeldByOther(old(partners), pid, phone.value))
      ensures r.Success? && pid !in old(partners) ==> r.value == None && partners == old(partners)
      ensures r.Success? && pid in old(partners) ==>
        var p := old(partners)[pid];
        var q := p.(name := if Supplied(name) then name.value else p.name,
                    phone := if Supplied(phone) then phone.value else p.phone);
        partners == old(partners)[pid := q] && r.value == Some(q)
      ensures old(PhonesUnique(partners)) ==> PhonesUnique(partners)
      ensures old(Valid()) ==> Valid()
    {
      if !Supplied(name) && !Supplied(phone) {
        return Failure(NoFieldToUpdate);
      }
      if Supplied(phone) && PhoneHeldByOther(partners, pid, phone.value) {
        return Failure(PhoneAlreadyRegistered);
      }
      if pid !in partners {
        return Success(None);
      }
      var p := partners[pid];
      if Supplied(name) {
        p := p.(name := name.value);
      }
      if Supplied(phone) {
        p := p.(phone := phone.value);
      }
      if PhonesUnique(partners) {
        PhoneUpdateKeepsUnique(partners, pid, p);
      }
      if Valid() {
        PartnerUpdateKeepsLinked(partners, orders, pid, p);
      }
      partners := partners[pid := p];
      r := Success(Some(p));
    }

    /**
      updateLastActive: stamp `lastActive` and derive the presence fields from
      an optional boolean `isOnline` and an optional `onlineStatus` name. The
      boolean is applied first; a recognised status name is applied second and
      overrides it, except that `busy` leaves `isOnline` as the boolean set it.
      An unknown partner id updates nothing and answers with no record.
    */
    method UpdateLastActive(pid: PartnerId, isOnline: Option<bool>, onlineStatus: Option<string>, now: Instant)
      returns (r: Option<Partner>)
      modifies this`partners
      ensures pid !in old(partners) ==> r == None && partners == old(partners)
      ensures pid in old(partners) ==>
        var p := old(partners)[pid];
        var st := if onlineStatus.Some? then ParseOnlineStatus(onlineStatus.value) else None;
        pid in partners && r == Some(partners[pid]) &&
        partners == old(partners)[pid := partners[pid]] &&
        var q := partners[pid];
        // the status name, when recognised, decides onlineStatus; otherwise the boolean does
        && q.onlineStatus == (if st.Some? then st.value
                              else if isOnline.Some? then (if isOnline.value then Online else Offline)
                              else p.onlineStatus)
        // online/offline decide isOnline; busy or no name leaves what the boolean (or the record) says
        && q.isOnline == (if st == Some(Online) then true
                          else if st == Some(Offline) then false
                          else isOnline.GetOr(p.isOnline))
        && q.lastOnlineAt == (if st == Some(Online) || isOnline == Some(true) then Some(now)
                              else if isOnline == Some(false) then None
                              else p.lastOnlineAt)
        && q.lastOfflineAt == (if st == Some(Offline) || isOnline == Some(false) then Some(now)
                               else if isOnline == Some(true) then None
                               else p.lastOfflineAt)
        && q.lastActive == Some(now)
        // nothing else in the record changes
        && q == p.(isOnline := q.isOnline, onlineStatus := q.onlineStatus,
                   lastOnlineAt := q.lastOnlineAt, lastOfflineAt := q.lastOfflineAt,
                   lastActive := q.lastActive)
      ensures old(Valid()) ==> Valid()
    {
      if pid !in partners {
        return None;
      }
      var p := partners[pid];
      p := p.(lastActive := Some(now));
      if isOnline.Some? {
        p := p.(isOnline := isOnline.value);
        if isOnline.value {
          p := p.(onlineStatus := Online, lastOnlineAt := Some(now), lastOfflineAt := None);
        } else {
          p := p.(onlineStatus := Offline, lastOfflineAt := Some(now), lastOnlineAt := None);
        }
      }
      if onlineStatus.Some? && ParseOnlineStatus(onlineStatus.value).Some? {
        var st := ParseOnlineStatus(onlineStatus.value).value;
        p := p.(onlineStatus := st);
        if st == Online {
          p := p.(isOnline := true, lastOnlineAt := Some(now));
        } else if st == Offline {
          p := p.(isOnline := false, lastOfflineAt := Some(now));
        }
      }
      if Valid() {
        PartnerUpdateKeepsLinked(partners, orders, pid, p);
      }
      partners := partners[pid := p];
      r := Some(p);
    }

    /**
      toggleOnlineStatus: `go_online` or `go_offline`; any other action is
      refused. Going offline also clears `currentOrder`. An unknown partner id
      updates nothing and answers with no record.
    */
    method ToggleOnlineStatus(pid: PartnerId, action: string, now: Instant)
      returns (r: Result<Option<Partner>, Error>)
      modifies this`partners
      ensures action != "go_online" && action != "go_offline" ==>
        r == Failure(InvalidAction) && partners == old(partners)
      ensures r.Success? <==> action == "go_online" || action == "go_offline"
      ensures r.Success? && pid !in old(partners) ==> r.value == None && partners == old(partners)
      ensures action == "go_online" && pid in old(partners) ==>
        var q := old(partners)[pid].(isOnline := true, onlineStatus := Online, lastActive := Some(now),
                                     lastOnlineAt := Some(now), lastOfflineAt := None);
        partners == old(partners)[pid := q] && r == Success(Some(q))
      ensures action == "go_offline" && pid in old(partners) ==>
        var q := old(partners)[pid].(isOnline := false, onlineStatus := Offline, lastActive := Some(now),
                                     lastOfflineAt := Some(now), lastOnlineAt := None, currentOrder := None);
        partners == old(partners)[pid := q] && r == Success(Some(q))
      ensures old(Valid()) ==> Valid()
    {
      if action != "go_online" && action != "go_offline" {
        return Failure(InvalidAction);
      }
      var goOnline := action == "go_online";
      var status := if goOnline then Online else Offline;
      if pid !in partners {
        return Success(None);
      }
      var p := partners[pid].(isOnline := goOnline, onlineStatus := status, lastActive := Some(now));
      if goOnline {
        p := p.(lastOnlineAt := Some(now), lastOfflineAt := None);
      } else {
        p := p.(lastOfflineAt := Some(now), lastOnlineAt := None, currentOrder := None);
      }
      if Valid() {
        PartnerUpdateKeepsLinked(partners, orders, pid, p);
      }
      partners := partners[pid := p];
      r := Success(Some(p));
    }

    /**
      assignAvailableOrders: an online partner claims up to BatchSize ready,
      unbound, non-urgent orders, in the collection's natural order. Each
      claimed order is bound to the partner and marked assigned; their ids are
      appended to the partner's list and the first becomes its current order.
    */
    method AssignAvailableOrders(pid: PartnerId, now: Instant) returns (r: Result<seq<OrderId>, Error>)
      modifies this`partners, this`orders
      ensures r.Success? <==> pid in old(partners) && old(partners)[pid].isOnline
      ensures r.Failure? ==> r.error == MustBeOnline
      ensures r.Failure? || r.value == [] ==> partners == old(partners) && orders == old(orders)
      ensures r.Success? ==> r.value == Candidates(storageOrder, old(orders), BatchSize)
      ensures r.Success? && r.value != [] ==>
        && orders.Keys == old(orders).Keys
        && (forall id :: id in r.value ==> orders[id] == Claimed(old(orders)[id], pid, now))
        && (forall id :: id in old(orders) && id !in r.value ==> orders[id] == old(orders)[id])
        && partners == old(partners)[pid := old(partners)[pid].(
             assignedOrders := old(partners)[pid].assignedOrders + r.value,
             currentOrder := Some(r.value[0]))]
      ensures old(Valid()) ==> Valid()
    {
      if pid !in partners || !partners[pid].isOnline {
        return Failure(MustBeOnline);
      }
      var chosen := Candidates(storageOrder, orders, BatchSize);
      if |chosen| == 0 {
        return Success([]);
      }
      ghost var orders0 := orders;
      var i := 0;
      while i < |chosen|
        invariant 0 <= i <= |chosen|
        invariant partners == old(partners)
        invariant orders.Keys == orders0.Keys
        invariant forall k :: 0 <= k < i ==> orders[chosen[k]] == Claimed(orders0[chosen[k]], pid, now)
        invariant forall id :: id in orders0 && id !in chosen[..i] ==> orders[id] == orders0[id]
      {
        var id := chosen[i];
        orders := orders[id := Claimed(orders[id], pid, now)];
        i := i + 1;
      }
      assert chosen[..i] == chosen;
      var p := partners[pid];
      var q := p.(assignedOrders := p.assignedOrders + chosen, currentOrder := Some(chosen[0]));
      if old(Valid()) {
        CandidatesDistinct(storageOrder, orders0, BatchSize);
        AssignKeepsLinked(partners, orders0, partners[pid := q], orders, pid, chosen);
      }
      partners := partners[pid := q];
      r := Success(chosen);
    }

    /**
      respondToOrder: the caller accepts or rejects an order bound to it. An
      action other than accept/reject is refused before any lookup; an order
      that is missing and one bound to someone else give the same NotFound.
      Accepting marks the order accepted and makes it the partner's current
      order; rejecting writes a null partner, puts the order back to ready and
      pulls its id from the partner's list, leaving `currentOrder` as it was.
    */
    method RespondToOrder(pid: PartnerId, oid: OrderId, action: string, now: Instant)
      returns (r: Result<Response, Error>)
      modifies this`partners, this`orders
      ensures action != "accept" && action != "reject" ==>
        r == Failure(InvalidAction) && partners == old(partners) && orders == old(orders)
      ensures ((action == "accept" || action == "reject") &&
        !(oid in old(orders) && old(orders)[oid].deliveryPartner == Bound(pid))) ==>
        r == Failure(NotFound) && partners == old(partners) && orders == old(orders)
      ensures r.Success? <==>
        (action == "accept" || action == "reject") &&
        oid in old(orders) && old(orders)[oid].deliveryPartner == Bound(pid)
      ensures r.Success? && action == "accept" ==>
        && r.value == OrderAccepted
        && orders == old(orders)[oid := old(orders)[oid].(status := Accepted, acceptedAt := Some(now))]
        && partners == if pid in old(partners)
                       then old(partners)[pid := old(partners)[pid].(
                              totalAccepted := old(partners)[pid].totalAccepted + 1,
                              currentOrder := Some(oid))]
                       else old(partners)
      ensures r.Success? && action == "reject" ==>
        && r.value == OrderRejected
        && orders == old(orders)[oid := old(orders)[oid].(deliveryPartner := Null, status := Ready, assignedAt := None)]
        && !Eligible(orders[oid])
        && partners == if pid in old(partners)
                       then old(partners)[pid := old(partners)[pid].(
                              assignedOrders := Pull(old(partners)[pid].assignedOrders, oid),
                              totalRejected := old(partners)[pid].totalRejected + 1)]
                       else old(partners)
      ensures old(Valid()) ==> Valid()
    {
      if action != "accept" && action != "reject" {
        return Failure(InvalidAction);
      }
      if !(oid in orders && orders[oid].deliveryPartner == Bound(pid)) {
        return Failure(NotFound);
      }
      var o := orders[oid];
      if action == "accept" {
        var o' := o.(status := Accepted, acceptedAt := Some(now));
        var partners' := partners;
        if pid in partners {
          var p := partners[pid];
          partners' := partners[pid := p.(totalAccepted := p.totalAccepted + 1, currentOrder := Some(oid))];
        }
        if Valid() {
          OrderUpdateKeepsLinked(partners, orders, oid, o');
          if pid in partners {
            PartnerUpdateKeepsLinked(partners, orders[oid := o'], pid, partners'[pid]);
          }
        }
        orders, partners := orders[oid := o'], partners';
        r := Success(OrderAccepted);
      } else {
        var o' := o.(deliveryPartner := Null, status := Ready, assignedAt := None);
        var partners' := partners;
        if pid in partners {
          var p := partners[pid];
          partners' := partners[pid := p.(assignedOrders := Pull(p.assignedOrders, oid),
                                          totalRejected := p.totalRejected + 1)];
        }
        if Valid() {
          RejectKeepsLinked(partners, orders, pid, oid, o', partners'[pid]);
        }
        orders, partners := orders[oid := o'], partners';
        r := Success(OrderRejected);
      }
    }

    /**
      getDashboardData: presence, current order and statistics of a partner,
      with the number of orders bound to it created at or after `dayStart`.
    */
    function DashboardData(pid: PartnerId, dayStart: Instant): (r: Result<Dashboard, Error>)
      reads this
      ensures r.Failure? <==> pid !in partners
      ensures r.Failure? ==> r.error == NotFound
      ensures r.Success? ==>
        var p := partners[pid];
        && r.value.isOnline == p.isOnline && r.value.onlineStatus == p.onlineStatus
        && r.value.currentOrder == p.currentOrder
        && r.value.totalDeliveries == p.totalDeliveries
        && r.value.totalAccepted == p.totalAccepted && r.value.totalRejected == p.totalRejected
        && r.value.rating == p.rating
        && r.value.todayOrders == |TodaySet(orders, pid, dayStart)|
    {
      if pid !in partners then Failure(NotFound)
      else
        var p := partners[pid];
        Success(Dashboard(p.isOnline, p.onlineStatus, p.currentOrder, p.totalDeliveries,
                          p.totalAccepted, p.totalRejected, p.rating, TodayOrders(orders, pid, dayStart)))
    }
  }
}
