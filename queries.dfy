/**
  The store queries the handlers issue, as functions over the record tables:
  the assignment filter and its `limit`, the `$pull` list update, the
  same-day order count and the phone-uniqueness lookup.
*/
module Queries {
  import opened Wrappers
  import opened Records

  predicate NoDuplicates<T(==)>(s: seq<T>) {
    forall i, j :: 0 <= i < j < |s| ==> s[i] != s[j]
  }

  /**
    The assignment filter: status ready, no `deliveryPartner` field at all
    (`$exists: false`, which a null does not satisfy), and not urgent.
  */
  predicate Eligible(o: Order)
    ensures (o.deliveryPartner.Null? || o.deliveryPartner.Bound?) ==> !Eligible(o)
    ensures o.status != Ready || o.isUrgent ==> !Eligible(o)
  {
    o.status == Ready && o.deliveryPartner.Absent? && !o.isUrgent
  }

  predicate EligibleIn(orders: map<OrderId, Order>, id: OrderId) {
    id in orders && Eligible(orders[id])
  }

  /** Reference definition: all eligible ids of `ids`, in the order of `ids`. */
  function EligibleIds(ids: seq<OrderId>, orders: map<OrderId, Order>): seq<OrderId> {
    if ids == [] then []
    else (if EligibleIn(orders, ids[0]) then [ids[0]] else []) + EligibleIds(ids[1..], orders)
  }

  function Take<T>(s: seq<T>, n: nat): (r: seq<T>)
    ensures |r| == if n <= |s| then n else |s|
  {
    if n <= |s| then s[..n] else s
  }

  /**
    `find(filter).limit(n)`: scan the collection in its natural order `ids`
    and keep eligible orders until `n` have been found.
  */
  function Candidates(ids: seq<OrderId>, orders: map<OrderId, Order>, n: nat): (r: seq<OrderId>)
    ensures |r| <= n
    ensures forall i :: 0 <= i < |r| ==> r[i] in ids && EligibleIn(orders, r[i])
    decreases |ids|
  {
    if ids == [] || n == 0 then []
    else if EligibleIn(orders, ids[0]) then [ids[0]] + Candidates(ids[1..], orders, n - 1)
    else Candidates(ids[1..], orders, n)
  }

  lemma {:induction false} EligibleIdsMembers(ids: seq<OrderId>, orders: map<OrderId, Order>, x: OrderId)
    ensures x in EligibleIds(ids, orders) <==> x in ids && EligibleIn(orders, x)
  {
    if ids != [] {
      EligibleIdsMembers(ids[1..], orders, x);
      assert ids == [ids[0]] + ids[1..];
    }
  }

  lemma TakeCons<T>(x: T, s: seq<T>, n: nat)
    requires n > 0
    ensures Take([x] + s, n) == [x] + Take(s, n - 1)
  {
    if n - 1 <= |s| {
      assert ([x] + s)[..n] == [x] + s[..n - 1];
    }
  }

  /** The scan returns exactly the first `n` eligible orders in natural order. */
  lemma {:induction false} CandidatesAreFirstEligible(ids: seq<OrderId>, orders: map<OrderId, Order>, n: nat)
    ensures Candidates(ids, orders, n) == Take(EligibleIds(ids, orders), n)
    decreases |ids|
  {
    if ids == [] || n == 0 {
      assert Take(EligibleIds(ids, orders), n) == [];
    } else if EligibleIn(orders, ids[0]) {
      var rest := EligibleIds(ids[1..], orders);
      CandidatesAreFirstEligible(ids[1..], orders, n - 1);
      calc {
        Candidates(ids, orders, n);
        [ids[0]] + Candidates(ids[1..], orders, n - 1);
        [ids[0]] + Take(rest, n - 1);
        { TakeCons(ids[0], rest, n); }
        Take([ids[0]] + rest, n);
        { assert EligibleIds(ids, orders) == [ids[0]] + rest; }
        Take(EligibleIds(ids, orders), n);
      }
    } else {
      CandidatesAreFirstEligible(ids[1..], orders, n);
      calc {
        Candidates(ids, orders, n);
        Candidates(ids[1..], orders, n);
        Take(EligibleIds(ids[1..], orders), n);
        { assert EligibleIds(ids, orders) == [] + EligibleIds(ids[1..], orders); }
        Take(EligibleIds(ids, orders), n);
      }
    }
  }

  /**
    The batch cap: the scan claims min(n, number of eligible orders), and when
    it returns fewer than `n` no eligible order was left behind.
  */
  lemma CandidatesCap(ids: seq<OrderId>, orders: map<OrderId, Order>, n: nat)
    ensures var e := |EligibleIds(ids, orders)|;
      |Candidates(ids, orders, n)| == if n <= e then n else e
    ensures |Candidates(ids, orders, n)| < n ==>
      forall x :: x in ids && EligibleIn(orders, x) ==> x in Candidates(ids, orders, n)
  {
    CandidatesAreFirstEligible(ids, orders, n);
    forall x | x in ids && EligibleIn(orders, x)
      ensures |Candidates(ids, orders, n)| < n ==> x in Candidates(ids, orders, n)
    {
      EligibleIdsMembers(ids, orders, x);
    }
  }

  /** The scan comes back empty exactly when the limit is zero or nothing in the collection is eligible. */
  lemma CandidatesEmpty(ids: seq<OrderId>, orders: map<OrderId, Order>, n: nat)
    ensures Candidates(ids, orders, n) == [] <==>
      n == 0 || forall x :: x in ids ==> !EligibleIn(orders, x)
  {
    CandidatesCap(ids, orders, n);
    if n > 0 && Candidates(ids, orders, n) == [] {
      forall x | x in ids ensures !EligibleIn(orders, x) {
        EligibleIdsMembers(ids, orders, x);
      }
    }
  }

  /** A collection without repeated ids yields a batch without repeated ids. */
  lemma {:induction false} CandidatesDistinct(ids: seq<OrderId>, orders: map<OrderId, Order>, n: nat)
    requires NoDuplicates(ids)
    ensures NoDuplicates(Candidates(ids, orders, n))
    decreases |ids|
  {
    if ids == [] || n == 0 {
    } else {
      assert NoDuplicates(ids[1..]) by {
        forall i, j | 0 <= i < j < |ids[1..]| ensures ids[1..][i] != ids[1..][j] {
          assert ids[1..][i] == ids[i + 1] && ids[1..][j] == ids[j + 1];
        }
      }
      var m := if EligibleIn(orders, ids[0]) then n - 1 else n;
      CandidatesDistinct(ids[1..], orders, m);
      if EligibleIn(orders, ids[0]) {
        var rest := Candidates(ids[1..], orders, m);
        assert ids[0] !in ids[1..] by {
          forall k | 0 <= k < |ids[1..]| ensures ids[1..][k] != ids[0] {
            assert ids[1..][k] == ids[k + 1];
          }
        }
        assert ids[0] !in rest;
        var r := [ids[0]] + rest;
        forall i, j | 0 <= i < j < |r| ensures r[i] != r[j] {
          if i == 0 {
            assert r[j] == rest[j - 1];
          } else {
            assert r[i] == rest[i - 1] && r[j] == rest[j - 1];
          }
        }
      }
    }
  }

  /** `$pull`: remove every occurrence of `x` from the list, keeping the order of the rest. */
  function Pull(s: seq<OrderId>, x: OrderId): (r: seq<OrderId>)
    ensures multiset(r) == multiset(s)[x := 0]
    ensures forall y :: y in r <==> y in s && y != x
  {
    if s == [] then []
    else
      assert s == [s[0]] + s[1..];
      if s[0] == x then Pull(s[1..], x) else [s[0]] + Pull(s[1..], x)
  }

  /** Pulling an id the list does not hold leaves the list as it was. */
  lemma {:induction false} PullAbsent(s: seq<OrderId>, x: OrderId)
    requires x !in s
    ensures Pull(s, x) == s
  {
    if s != [] {
      PullAbsent(s[1..], x);
    }
  }

  /** `$pull` distributes over concatenation: it keeps the relative order of the survivors. */
  lemma {:induction false} PullAppend(s: seq<OrderId>, t: seq<OrderId>, x: OrderId)
    ensures Pull(s + t, x) == Pull(s, x) + Pull(t, x)
  {
    if s == [] {
      assert s + t == t;
    } else {
      assert (s + t)[1..] == s[1..] + t;
      PullAppend(s[1..], t, x);
    }
  }

  /** `$pull` keeps a list free of repeated ids. */
  lemma {:induction false} PullDistinct(s: seq<OrderId>, x: OrderId)
    requires NoDuplicates(s)
    ensures NoDuplicates(Pull(s, x))
  {
    if s != [] {
      assert NoDuplicates(s[1..]) by {
        forall i, j | 0 <= i < j < |s[1..]| ensures s[1..][i] != s[1..][j] {
          assert s[1..][i] == s[i + 1] && s[1..][j] == s[j + 1];
        }
      }
      PullDistinct(s[1..], x);
      if s[0] != x {
        var rest := Pull(s[1..], x);
        assert s[0] !in s[1..] by {
          forall k | 0 <= k < |s[1..]| ensures s[1..][k] != s[0] {
            assert s[1..][k] == s[k + 1];
          }
        }
        var r := [s[0]] + rest;
        forall i, j | 0 <= i < j < |r| ensures r[i] != r[j] {
          if i == 0 {
            assert r[j] == rest[j - 1];
          } else {
            assert r[i] == rest[i - 1] && r[j] == rest[j - 1];
          }
        }
      }
    }
  }

  /** The dashboard filter: bound to the partner and created at or after the day start. */
  predicate CountsToday(o: Order, pid: PartnerId, dayStart: Instant) {
    o.deliveryPartner == Bound(pid) && o.createdAt >= dayStart
  }

  ghost function TodaySet(orders: map<OrderId, Order>, pid: PartnerId, dayStart: Instant): set<OrderId> {
    set id | id in orders && CountsToday(orders[id], pid, dayStart)
  }

  /** `countDocuments({deliveryPartner, createdAt: {$gte: dayStart}})`. */
  function TodayOrders(orders: map<OrderId, Order>, pid: PartnerId, dayStart: Instant): (n: nat)
    ensures n == |TodaySet(orders, pid, dayStart)|
    ensures n <= |orders|
  {
    var s := set id | id in orders && CountsToday(orders[id], pid, dayStart);
    assert s <= orders.Keys;
    SubsetCard(s, orders.Keys);
    |s|
  }

  lemma SubsetCard<T>(a: set<T>, b: set<T>)
    requires a <= b
    ensures |a| <= |b|
  {
    assert b == a + (b - a);
  }

  /**
    Adding one order changes the count by one exactly when that order is bound
    to the partner and created on or after the day start; an order of the day
    before, or of another partner, is not counted.
  */
  lemma TodayOrdersAdd(orders: map<OrderId, Order>, id: OrderId, o: Order, pid: PartnerId, dayStart: Instant)
    requires id !in orders
    ensures TodayOrders(orders[id := o], pid, dayStart) ==
      TodayOrders(orders, pid, dayStart) + (if CountsToday(o, pid, dayStart) then 1 else 0)
  {
    var before := TodaySet(orders, pid, dayStart);
    var after := TodaySet(orders[id := o], pid, dayStart);
    if CountsToday(o, pid, dayStart) {
      assert after == before + {id};
    } else {
      assert after == before;
    }
  }

  /** Some partner other than `pid` already holds `phone` (`findOne({phone, _id: {$ne: pid}})`). */
  predicate PhoneHeldByOther(partners: map<PartnerId, Partner>, pid: PartnerId, phone: string)
    // `$ne` excludes the caller only: keeping one's own phone is never a clash
    ensures pid in partners && partners[pid].phone == phone && PhonesUnique(partners) ==>
      !PhoneHeldByOther(partners, pid, phone)
    // an unknown caller clashes with any partner holding the phone
    ensures pid !in partners ==>
      (PhoneHeldByOther(partners, pid, phone) <==> phone in set q | q in partners :: partners[q].phone)
  {
    exists q :: q in partners && q != pid && partners[q].phone == phone
  }

  /** No two partners share a phone number. */
  ghost predicate PhonesUnique(partners: map<PartnerId, Partner>) {
    forall a, b :: a in partners && b in partners && a != b ==> partners[a].phone != partners[b].phone
  }

  /**
    A profile update that passed the phone check keeps phone numbers unique.
  */
  lemma PhoneUpdateKeepsUnique(partners: map<PartnerId, Partner>, pid: PartnerId, q: Partner)
    requires PhonesUnique(partners)
    requires pid in partners
    requires q.phone == partners[pid].phone || !PhoneHeldByOther(partners, pid, q.phone)
    ensures PhonesUnique(partners[pid := q])
  {
    var after := partners[pid := q];
    forall a, b | a in after && b in after && a != b
      ensures after[a].phone != after[b].phone
    {
      if a == pid {
        assert after[b] == partners[b];
        if q.phone != partners[pid].phone {
          assert !(b in partners && b != pid && partners[b].phone == q.phone);
        }
      } else if b == pid {
        assert after[a] == partners[a];
        if q.phone != partners[pid].phone {
          assert !(a in partners && a != pid && partners[a].phone == q.phone);
        }
      }
    }
  }
}
