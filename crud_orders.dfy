/** Orders: creation with one item row per requested line, lookup with the
    owner-or-admin rule, the two newest-first listings, and the state update. */
module CrudOrders {
  import opened Common
  import opened Models
  import opened Schemas
  import opened Db

  const OrderNotFound := HttpError(NotFound, "Pedido no encontrado")
  const AccessDenied := HttpError(Forbidden, "Acceso denegado")

  /** The `order.items` relationship: the item rows that point at `orderId`,
      in key order. */
  function ItemsOf(items: seq<OrderItem>, orderId: int): (r: seq<OrderItem>)
    ensures |r| <= |items|
    ensures forall x {:trigger x in r} :: x in r <==> x in items && x.orderId == orderId
  {
    if items == [] then []
    else ItemsOf(items[..|items| - 1], orderId)
         + (if items[|items| - 1].orderId == orderId then [items[|items| - 1]] else [])
  }

  lemma ItemsOfAppend(items: seq<OrderItem>, it: OrderItem, orderId: int)
    ensures ItemsOf(items + [it], orderId) == ItemsOf(items, orderId) + (if it.orderId == orderId then [it] else [])
  {
    assert (items + [it])[..|items|] == items;
  }

  lemma {:induction false} ItemsOfNone(items: seq<OrderItem>, orderId: int)
    requires forall i :: 0 <= i < |items| ==> items[i].orderId != orderId
    ensures ItemsOf(items, orderId) == []
    decreases |items|
  {
    if items != [] {
      ItemsOfNone(items[..|items| - 1], orderId);
    }
  }

  /** Rows appended for a fresh order are exactly that order's items. */
  lemma {:induction false} ItemsOfFresh(items: seq<OrderItem>, added: seq<OrderItem>, orderId: int)
    requires forall i :: 0 <= i < |items| ==> items[i].orderId != orderId
    requires forall i :: 0 <= i < |added| ==> added[i].orderId == orderId
    ensures ItemsOf(items + added, orderId) == added
    decreases |added|
  {
    if added == [] {
      assert items + added == items;
      ItemsOfNone(items, orderId);
    } else {
      var front := added[..|added| - 1];
      var last := added[|added| - 1];
      ItemsOfFresh(items, front, orderId);
      ItemsOfAppend(items + front, last, orderId);
      calc {
        ItemsOf(items + added, orderId);
        { assert items + added == (items + front) + [last]; }
        ItemsOf((items + front) + [last], orderId);
        ItemsOf(items + front, orderId) + [last];
        front + [last];
        { assert front + [last] == added; }
        added;
      }
    }
  }

  /** Appending item rows with the next keys, all pointing at an existing
      order, keeps the item table's constraints. */
  lemma AppendItemsKeepsRows(items: seq<OrderItem>, next: int, orders: seq<Order>, added: seq<OrderItem>)
    requires ItemRows(items, next)
    requires forall i :: 0 <= i < |items| ==> HasOrder(orders, items[i].orderId)
    requires forall i :: 0 <= i < |added| ==> added[i].id == next + i && HasOrder(orders, added[i].orderId)
    ensures ItemRows(items + added, next + |added|)
    ensures forall i :: 0 <= i < |items + added| ==> HasOrder(orders, (items + added)[i].orderId)
  {
  }

  /** A new order row for an existing user, with its item rows, keeps the
      schema's constraints. */
  lemma AddOrderKeepsConsistent(users: seq<User>, orders: seq<Order>, items: seq<OrderItem>,
                                nu: int, no: int, ni: int, clock: int, uid: int, added: seq<OrderItem>)
    requires Consistent(users, orders, items, nu, no, ni, clock) && HasUser(users, uid)
    requires forall i :: 0 <= i < |added| ==> added[i].id == ni + i && added[i].orderId == no
    ensures Consistent(users, orders + [NewOrder(no, uid, clock)], items + added, nu, no + 1, ni + |added|, clock)
    ensures forall i :: 0 <= i < |items| ==> items[i].orderId != no
  {
    var os := orders + [NewOrder(no, uid, clock)];
    AppendKeepsOrders(orders, NewOrder(no, uid, clock));
    assert HasOrder(os, no) by {
      assert os[|orders|].id == no;
    }
    AppendItemsKeepsRows(items, ni, os, added);
    assert forall i :: 0 <= i < |os| ==> HasUser(users, os[i].userId);
    forall i | 0 <= i < |items|
      ensures items[i].orderId != no
    {
      var j :| 0 <= j < |orders| && orders[j].id == items[i].orderId;
    }
  }

  /** Item rows that repeat the requested lines one for one, in order. */
  predicate Mirrors(items: seq<OrderItem>, lines: seq<OrderItemCreate>) {
    |items| == |lines| &&
    forall k :: 0 <= k < |lines| ==> items[k].productId == lines[k].productId && items[k].quantity == lines[k].quantity
  }

  /** Every requested line's product id and quantity fit their `integer`
      columns; otherwise the insert fails when the transaction commits. */
  predicate LinesFit(lines: seq<OrderItemCreate>) {
    forall k :: 0 <= k < |lines| ==> FitsInt4(lines[k].productId) && FitsInt4(lines[k].quantity)
  }

  /** `create_order`: the order row is flushed first (a missing owner fails
      its foreign key, uncaught), then one item row per requested line; a
      product id or quantity out of the `integer` range makes the commit
      fail, uncaught, and nothing is written. */
  method CreateOrder(db: Session, user: User, orderIn: OrderCreate) returns (r: Result<Order>)
    requires db.Valid()
    modifies db
    ensures db.Valid()
    ensures db.users == old(db.users) && db.clock == old(db.clock)
    ensures r.Failure? <==> !HasUser(old(db.users), user.id) || !LinesFit(orderIn.items)
    ensures r.Failure? ==> r.error == ServerError && db.orders == old(db.orders) && db.items == old(db.items)
    ensures r.Success? ==> r.value.id == old(db.nextOrderId) && r.value.userId == user.id
    ensures r.Success? ==> r.value.state == "pendiente" && r.value.createdAt == old(db.clock)
    ensures r.Success? ==> db.orders == old(db.orders) + [r.value]
    ensures r.Success? ==> |db.items| == |old(db.items)| + |orderIn.items| && db.items[..|old(db.items)|] == old(db.items)
    ensures r.Success? ==> Mirrors(ItemsOf(db.items, r.value.id), orderIn.items)
    ensures db.nextUserId == old(db.nextUserId)
    ensures r.Failure? ==> db.nextOrderId == old(db.nextOrderId) && db.nextItemId == old(db.nextItemId)
    ensures r.Success? ==> db.nextOrderId == old(db.nextOrderId) + 1
                           && db.nextItemId == old(db.nextItemId) + |orderIn.items|
  {
    if UserIndex(db.users, user.id).None? {
      return Failure(ServerError);
    }
    if !LinesFit(orderIn.items) {
      return Failure(ServerError);
    }
    var order := NewOrder(db.nextOrderId, user.id, db.clock);
    var base := db.nextItemId;
    var added: seq<OrderItem> := [];
    var k := 0;
    while k < |orderIn.items|
      invariant 0 <= k <= |orderIn.items| && |added| == k
      invariant forall i :: 0 <= i < k ==>
        added[i] == NewOrderItem(base + i, order.id, orderIn.items[i].productId, orderIn.items[i].quantity)
    {
      added := added + [NewOrderItem(base + k, order.id, orderIn.items[k].productId, orderIn.items[k].quantity)];
      k := k + 1;
    }
    assert Mirrors(added, orderIn.items);
    assert HasUser(db.users, user.id);
    AddOrderKeepsConsistent(db.users, db.orders, db.items, db.nextUserId, db.nextOrderId, base, db.clock, user.id, added);
    ItemsOfFresh(db.items, added, order.id);
    assert (db.items + added)[..|db.items|] == db.items;
    db.orders, db.items := db.orders + [order], db.items + added;
    db.nextOrderId, db.nextItemId := order.id + 1, base + |added|;
    r := Success(order);
  }

  /** `get_order`: 404 for a missing key; 403 unless the caller is an admin
      or owns the order. */
  function GetOrder(db: Session, orderId: int, user: User): (r: Result<Order>)
    reads db
    ensures r == Failure(OrderNotFound) <==> !HasOrder(db.orders, orderId)
    ensures r == Failure(AccessDenied) <==>
              HasOrder(db.orders, orderId) && user.role != Admin
              && db.orders[OrderIndex(db.orders, orderId).value].userId != user.id
    ensures r.Success? ==> r.value in db.orders && r.value.id == orderId
    ensures r.Success? ==> user.role == Admin || r.value.userId == user.id
    ensures HasOrder(db.orders, orderId)
            && (user.role == Admin || db.orders[OrderIndex(db.orders, orderId).value].userId == user.id)
            ==> r == Success(db.orders[OrderIndex(db.orders, orderId).value])
  {
    match OrderIndex(db.orders, orderId)
    case None => Failure(OrderNotFound)
    case Some(k) =>
      if user.role != Admin && db.orders[k].userId != user.id then Failure(AccessDenied)
      else Success(db.orders[k])
  }

  /** Key order with non-decreasing `created_at`: the order rows are kept so. */
  predicate OldestFirst(os: seq<Order>) {
    forall i, j :: 0 <= i < j < |os| ==> os[i].id < os[j].id && os[i].createdAt <= os[j].createdAt
  }

  /** `ORDER BY created_at DESC`: newest first, each order once. Among orders
      stamped at the same instant the model lists the higher key first. */
  predicate NewestFirst(os: seq<Order>) {
    forall i, j :: 0 <= i < j < |os| ==> os[i].id > os[j].id && os[i].createdAt >= os[j].createdAt
  }

  /** `WHERE user_id = uid`, keeping table order. */
  function OwnedBy(os: seq<Order>, uid: int): (r: seq<Order>)
    ensures forall o :: o in r <==> o in os && o.userId == uid
  {
    if os == [] then []
    else (if os[0].userId == uid then [os[0]] else []) + OwnedBy(os[1..], uid)
  }

  lemma OwnedByKeepsOrder(os: seq<Order>, uid: int)
    ensures OldestFirst(os) ==> OldestFirst(OwnedBy(os, uid))
  {
    if OldestFirst(os) {
      OwnedByOldestFirst(os, uid);
    }
  }

  /** Filtering keeps the table's order. */
  lemma {:induction false} OwnedByOldestFirst(os: seq<Order>, uid: int)
    requires OldestFirst(os)
    ensures OldestFirst(OwnedBy(os, uid))
    decreases |os|
  {
    if os != [] {
      var tail := os[1..];
      OwnedByOldestFirst(tail, uid);
      var rest := OwnedBy(tail, uid);
      if os[0].userId == uid {
        var r := OwnedBy(os, uid);
        assert r == [os[0]] + rest;
        forall j | 0 < j < |r|
          ensures os[0].id < r[j].id && os[0].createdAt <= r[j].createdAt
        {
          assert r[j] == rest[j - 1];
          assert rest[j - 1] in tail;
          var m :| 0 <= m < |tail| && tail[m] == rest[j - 1];
          assert tail[m] == os[m + 1];
        }
      }
    }
  }

  function Reverse(os: seq<Order>): (r: seq<Order>)
    ensures |r| == |os|
    ensures forall i :: 0 <= i < |os| ==> r[i] == os[|os| - 1 - i]
  {
    seq(|os|, i requires 0 <= i < |os| => os[|os| - 1 - i])
  }

  lemma ReverseNewestFirst(os: seq<Order>)
    ensures OldestFirst(os) ==> NewestFirst(Reverse(os))
    ensures forall o :: o in Reverse(os) <==> o in os
  {
    var r := Reverse(os);
    forall o | o in os
      ensures o in r
    {
      var i :| 0 <= i < |os| && os[i] == o;
      assert r[|os| - 1 - i] == o;
    }
  }

  /** `WHERE user_id = uid ORDER BY created_at DESC`: exactly the orders of
      `uid`, newest first. */
  function OrdersOf(db: Session, uid: int): (r: seq<Order>)
    reads db
    ensures forall o :: o in r <==> o in db.orders && o.userId == uid
    ensures db.Valid() ==> NewestFirst(r)
  {
    var mine := OwnedBy(db.orders, uid);
    OwnedByKeepsOrder(db.orders, uid);
    ReverseNewestFirst(mine);
    Reverse(mine)
  }

  /** `get_orders_by_user`: the caller's own orders, newest first. */
  function GetOrdersByUser(db: Session, user: User): (r: seq<Order>)
    reads db
    ensures forall o :: o in r <==> o in db.orders && o.userId == user.id
    ensures db.Valid() ==> NewestFirst(r)
  {
    OrdersOf(db, user.id)
  }

  /** `get_all_orders`: every order once, newest first. */
  function GetAllOrders(db: Session): (r: seq<Order>)
    reads db
    ensures |r| == |db.orders|
    ensures forall o :: o in r <==> o in db.orders
    ensures db.Valid() ==> NewestFirst(r)
  {
    ReverseNewestFirst(db.orders);
    Reverse(db.orders)
  }

  /** Rewriting one order's state leaves every key and timestamp in place. */
  lemma SetStateKeepsConsistent(users: seq<User>, orders: seq<Order>, items: seq<OrderItem>,
                                nu: int, no: int, ni: int, clock: int, k: nat, state: string)
    requires Consistent(users, orders, items, nu, no, ni, clock) && k < |orders|
    ensures Consistent(users, orders[k := orders[k].(state := state)], items, nu, no, ni, clock)
  {
    var os := orders[k := orders[k].(state := state)];
    assert forall i :: 0 <= i < |os| ==> os[i].id == orders[i].id && os[i].userId == orders[i].userId
                                          && os[i].createdAt == orders[i].createdAt;
    forall x | HasOrder(orders, x)
      ensures HasOrder(os, x)
    {
      var j :| 0 <= j < |orders| && orders[j].id == x;
      assert os[j].id == x;
    }
  }

  /** `update_order_state`: 404 for a missing key; otherwise only that
      order's `state` changes, to whatever text was sent. */
  method UpdateOrderState(db: Session, orderId: int, stateIn: OrderUpdateState) returns (r: Result<Order>)
    requires db.Valid()
    modifies db
    ensures db.Valid()
    ensures db.users == old(db.users) && db.items == old(db.items) && db.clock == old(db.clock)
    ensures r.Failure? <==> !HasOrder(old(db.orders), orderId)
    ensures r.Failure? ==> r.error == OrderNotFound && db.orders == old(db.orders)
    ensures r.Success? ==> var k := OrderIndex(old(db.orders), orderId).value;
              r.value == old(db.orders)[k].(state := stateIn.state) && db.orders == old(db.orders)[k := r.value]
    ensures db.nextUserId == old(db.nextUserId) && db.nextOrderId == old(db.nextOrderId)
            && db.nextItemId == old(db.nextItemId)
  {
    var found := OrderIndex(db.orders, orderId);
    if found.None? {
      return Failure(OrderNotFound);
    }
    var k := found.value;
    var order := db.orders[k].(state := stateIn.state);
    SetStateKeepsConsistent(db.users, db.orders, db.items, db.nextUserId, db.nextOrderId, db.nextItemId, db.clock,
                            k, stateIn.state);
    db.orders := db.orders[k := order];
    r := Success(order);
  }
}
