/** The `orders` table: the insert the webhook reconciler calls, and the two
    read-only listings by buyer and by gig. */
module Orders {
  import opened Seqs
  import opened Store

  /** `orders.create`: stores its arguments unchanged plus `orderDate`, with
      no validation and no uniqueness check, and returns the new id. */
  method Create(db: Database, args: OrderArgs, now: int) returns (id: Id)
    requires db.orders.Valid()
    modifies db.orders
    ensures db.orders.Valid()
    ensures db.orders.docs == old(db.orders.docs) + [Doc(id, Order(args, now))]
    ensures forall i :: 0 <= i < |old(db.orders.docs)| ==> old(db.orders.docs)[i].id != id
  {
    id := db.orders.Insert(Order(args, now));
  }

  /** `getOrdersByBuyer`: exactly the orders of `buyerId`, in table order. */
  function OrdersByBuyer(orders: seq<Doc<Order>>, buyerId: Id): (r: seq<Doc<Order>>)
    ensures forall i :: 0 <= i < |r| ==> r[i] in orders && r[i].fields.details.buyerId == buyerId
    ensures forall i :: 0 <= i < |orders| && orders[i].fields.details.buyerId == buyerId ==> orders[i] in r
    ensures IsSubsequence(r, orders)
  {
    Filter(orders, (o: Doc<Order>) => o.fields.details.buyerId == buyerId)
  }

  /** `getOrdersByGig`: exactly the orders of `gigId`, in table order. */
  function OrdersByGig(orders: seq<Doc<Order>>, gigId: Id): (r: seq<Doc<Order>>)
    ensures forall i :: 0 <= i < |r| ==> r[i] in orders && r[i].fields.details.gigId == gigId
    ensures forall i :: 0 <= i < |orders| && orders[i].fields.details.gigId == gigId ==> orders[i] in r
    ensures IsSubsequence(r, orders)
  {
    Filter(orders, (o: Doc<Order>) => o.fields.details.gigId == gigId)
  }

  /** After an insert, the buyer listing gains the new order at its end when it
      is the buyer's, and is otherwise unchanged. */
  lemma OrdersByBuyerAfterInsert(orders: seq<Doc<Order>>, d: Doc<Order>, buyerId: Id)
    ensures OrdersByBuyer(orders + [d], buyerId)
            == OrdersByBuyer(orders, buyerId) + (if d.fields.details.buyerId == buyerId then [d] else [])
  {
    FilterSnoc(orders, d, (o: Doc<Order>) => o.fields.details.buyerId == buyerId);
  }

  /** After an insert, the gig listing gains the new order at its end when it
      is for that gig, and is otherwise unchanged. */
  lemma OrdersByGigAfterInsert(orders: seq<Doc<Order>>, d: Doc<Order>, gigId: Id)
    ensures OrdersByGig(orders + [d], gigId)
            == OrdersByGig(orders, gigId) + (if d.fields.details.gigId == gigId then [d] else [])
  {
    FilterSnoc(orders, d, (o: Doc<Order>) => o.fields.details.gigId == gigId);
  }
}
