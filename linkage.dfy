/**
  The cross-collection agreement between Partners and Orders that the
  assignment and response handlers keep between them: a partner's
  `assignedOrders` lists exactly the orders bound to that partner, once each.
*/
module Linkage {
  import opened Records
  import opened Queries

  ghost predicate Linked(partners: map<PartnerId, Partner>, orders: map<OrderId, Order>) {
    // every listed id is an order bound to the partner listing it
    && (forall p, id :: p in partners && id in partners[p].assignedOrders ==>
          id in orders && orders[id].deliveryPartner == Bound(p))
    // every bound order is listed by its partner
    && (forall id :: id in orders && orders[id].deliveryPartner.Bound? ==>
          orders[id].deliveryPartner.partner in partners &&
          id in partners[orders[id].deliveryPartner.partner].assignedOrders)
    // no partner lists an order twice
    && (forall p :: p in partners ==> NoDuplicates(partners[p].assignedOrders))
  }

  /** Rewriting a partner record without touching its list keeps the tables linked. */
  lemma PartnerUpdateKeepsLinked(partners: map<PartnerId, Partner>, orders: map<OrderId, Order>,
                                 pid: PartnerId, q: Partner)
    requires Linked(partners, orders)
    requires pid in partners && q.assignedOrders == partners[pid].assignedOrders
    ensures Linked(partners[pid := q], orders)
  {
  }

  /** Rewriting an order record without touching its binding keeps the tables linked. */
  lemma OrderUpdateKeepsLinked(partners: map<PartnerId, Partner>, orders: map<OrderId, Order>,
                               oid: OrderId, o: Order)
    requires Linked(partners, orders)
    requires oid in orders && o.deliveryPartner == orders[oid].deliveryPartner
    ensures Linked(partners, orders[oid := o])
  {
  }

  /**
    Assignment keeps the tables linked: it binds distinct, previously unbound
    orders to one partner and appends exactly those ids to that partner's list.
  */
  lemma AssignKeepsLinked(partners: map<PartnerId, Partner>, orders: map<OrderId, Order>,
                          partners': map<PartnerId, Partner>, orders': map<OrderId, Order>,
                          pid: PartnerId, ids: seq<OrderId>)
    requires Linked(partners, orders)
    requires pid in partners
    requires NoDuplicates(ids)
    requires forall id :: id in ids ==> id in orders && orders[id].deliveryPartner.Absent?
    requires orders'.Keys == orders.Keys
    requires forall id :: id in ids ==> orders'[id].deliveryPartner == Bound(pid)
    requires forall id :: id in orders && id !in ids ==> orders'[id] == orders[id]
    requires partners'.Keys == partners.Keys
    requires forall p :: p in partners && p != pid ==> partners'[p] == partners[p]
    requires partners'[pid].assignedOrders == partners[pid].assignedOrders + ids
    ensures Linked(partners', orders')
  {
    var old_list := partners[pid].assignedOrders;
    forall p, id | p in partners' && id in partners'[p].assignedOrders
      ensures id in orders' && orders'[id].deliveryPartner == Bound(p)
    {
      if p == pid && id in ids {
      } else if p == pid {
        assert id in old_list;
      }
    }
    forall id | id in orders' && orders'[id].deliveryPartner.Bound?
      ensures orders'[id].deliveryPartner.partner in partners'
      ensures id in partners'[orders'[id].deliveryPartner.partner].assignedOrders
    {
      if id in ids {
        assert id in partners'[pid].assignedOrders;
      } else {
        var p := orders[id].deliveryPartner.partner;
        assert id in partners[p].assignedOrders;
        if p == pid {
          assert partners'[pid].assignedOrders == old_list + ids;
        }
      }
    }
    var list := partners'[pid].assignedOrders;
    forall i, j | 0 <= i < j < |list| ensures list[i] != list[j] {
      var k := |old_list|;
      if j < k {
        assert list[i] == old_list[i] && list[j] == old_list[j];
      } else if i >= k {
        assert list[i] == ids[i - k] && list[j] == ids[j - k];
      } else {
        assert list[i] == old_list[i] && list[j] == ids[j - k];
        assert orders[list[j]].deliveryPartner.Absent?;
        assert orders[list[i]].deliveryPartner == Bound(pid);
      }
    }
  }

  /**
    Rejection keeps the tables linked: it unbinds one order (writing null) and
    pulls its id from the list of the partner it was bound to.
  */
  lemma RejectKeepsLinked(partners: map<PartnerId, Partner>, orders: map<OrderId, Order>,
                          pid: PartnerId, oid: OrderId, o: Order, q: Partner)
    requires Linked(partners, orders)
    requires oid in orders && orders[oid].deliveryPartner == Bound(pid)
    requires o.deliveryPartner == Null
    requires pid in partners && q.assignedOrders == Pull(partners[pid].assignedOrders, oid)
    ensures Linked(partners[pid := q], orders[oid := o])
  {
    var partners', orders' := partners[pid := q], orders[oid := o];
    forall p, id | p in partners' && id in partners'[p].assignedOrders
      ensures id in orders' && orders'[id].deliveryPartner == Bound(p)
    {
      if p == pid {
        assert id in partners[pid].assignedOrders && id != oid;
      } else {
        assert partners'[p] == partners[p];
        assert id != oid;
      }
    }
    forall id | id in orders' && orders'[id].deliveryPartner.Bound?
      ensures orders'[id].deliveryPartner.partner in partners'
      ensures id in partners'[orders'[id].deliveryPartner.partner].assignedOrders
    {
      assert id != oid && orders'[id] == orders[id];
      var p := orders[id].deliveryPartner.partner;
      assert id in partners[p].assignedOrders;
    }
    forall p | p in partners' ensures NoDuplicates(partners'[p].assignedOrders) {
      if p == pid {
        PullDistinct(partners[pid].assignedOrders, oid);
      }
    }
  }
}
