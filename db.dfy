/** The PostgreSQL tables behind the SQLModel session: users, orders and
    order items, each kept in primary-key order, with the next key each
    sequence will hand out and the clock that stamps `created_at`. `Valid`
    holds the table constraints: keys, the two unique user columns, the
    foreign keys from orders to users and from items to orders. */
module Db {
  import opened Common
  import opened Models

  /** A value PostgreSQL's `integer` (four-byte) type can hold. */
  predicate FitsInt4(x: int) {
    -0x8000_0000 <= x < 0x8000_0000
  }

  /** A value PostgreSQL's `bigint` (eight-byte) type can hold. */
  predicate FitsInt8(x: int) {
    -0x8000_0000_0000_0000 <= x < 0x8000_0000_0000_0000
  }

  predicate UserRows(users: seq<User>, next: int) {
    && 1 <= next
    && (forall i :: 0 <= i < |users| ==> 1 <= users[i].id < next)
    && (forall i, j :: 0 <= i < j < |users| ==> users[i].id < users[j].id)
    && UniqueLogins(users)
  }

  /** Orders in key order; `created_at` never decreases along the table. */
  predicate OrderRows(orders: seq<Order>, next: int, clock: int) {
    && 1 <= next
    && (forall i :: 0 <= i < |orders| ==> 1 <= orders[i].id < next && orders[i].createdAt <= clock)
    && (forall i, j :: 0 <= i < j < |orders| ==>
          orders[i].id < orders[j].id && orders[i].createdAt <= orders[j].createdAt)
  }

  predicate ItemRows(items: seq<OrderItem>, next: int) {
    && 1 <= next
    && (forall i :: 0 <= i < |items| ==> 1 <= items[i].id < next)
    && (forall i, j :: 0 <= i < j < |items| ==> items[i].id < items[j].id)
  }

  predicate HasUser(users: seq<User>, id: int) {
    exists i :: 0 <= i < |users| && users[i].id == id
  }

  predicate HasOrder(orders: seq<Order>, id: int) {
    exists i :: 0 <= i < |orders| && orders[i].id == id
  }

  /** `session.get(User, id)`: the row with that key. */
  function UserIndex(users: seq<User>, id: int): (k: Option<nat>)
    ensures k.None? <==> !HasUser(users, id)
    ensures k.Some? ==> k.value < |users| && users[k.value].id == id
  {
    FirstIndex(users, (u: User) => u.id == id)
  }

  function FindUser(users: seq<User>, id: int): (r: Option<User>)
    ensures r.None? <==> !HasUser(users, id)
    ensures r.Some? ==> r.value in users && r.value.id == id
  {
    match UserIndex(users, id)
    case None => None
    case Some(k) => Some(users[k])
  }

  /** `session.get(Order, id)`. */
  function OrderIndex(orders: seq<Order>, id: int): (k: Option<nat>)
    ensures k.None? <==> !HasOrder(orders, id)
    ensures k.Some? ==> k.value < |orders| && orders[k.value].id == id
  {
    FirstIndex(orders, (o: Order) => o.id == id)
  }

  /** With keys unique, the lookup by key finds the very row that holds it. */
  lemma FindUserByKey(users: seq<User>, next: int, u: User)
    requires UserRows(users, next)
    requires u in users
    ensures FindUser(users, u.id) == Some(u)
  {
    var j :| 0 <= j < |users| && users[j] == u;
    assert users[UserIndex(users, u.id).value] == users[j];
  }

  lemma AppendKeepsUsers(users: seq<User>, u: User)
    ensures forall x :: HasUser(users, x) ==> HasUser(users + [u], x)
  {
    forall x | HasUser(users, x)
      ensures HasUser(users + [u], x)
    {
      var j :| 0 <= j < |users| && users[j].id == x;
      assert (users + [u])[j] == users[j];
    }
  }

  lemma AppendKeepsOrders(orders: seq<Order>, o: Order)
    ensures forall x :: HasOrder(orders, x) ==> HasOrder(orders + [o], x)
  {
    forall x | HasOrder(orders, x)
      ensures HasOrder(orders + [o], x)
    {
      var j :| 0 <= j < |orders| && orders[j].id == x;
      assert (orders + [o])[j] == orders[j];
    }
  }

  /** Removing the row at `k` removes its key and no other. */
  lemma RemoveRowKeys(users: seq<User>, next: int, k: nat)
    requires UserRows(users, next)
    requires k < |users|
    ensures forall x :: x != users[k].id ==> (HasUser(users[..k] + users[k + 1..], x) <==> HasUser(users, x))
    ensures !HasUser(users[..k] + users[k + 1..], users[k].id)
  {
    var rest := users[..k] + users[k + 1..];
    assert forall i :: 0 <= i < |rest| ==> rest[i] == users[if i < k then i else i + 1];
    forall x | x != users[k].id
      ensures HasUser(rest, x) <==> HasUser(users, x)
    {
      if HasUser(users, x) {
        var j :| 0 <= j < |users| && users[j].id == x;
        assert rest[if j < k then j else j - 1] == users[j];
      }
    }
  }

  /** The constraints the schema keeps over the three tables: keys below
      their sequences, key order, and both foreign keys. */
  predicate Consistent(users: seq<User>, orders: seq<Order>, items: seq<OrderItem>,
                       nextUserId: int, nextOrderId: int, nextItemId: int, clock: int)
  {
    && UserRows(users, nextUserId)
    && OrderRows(orders, nextOrderId, clock)
    && ItemRows(items, nextItemId)
    && (forall i :: 0 <= i < |orders| ==> HasUser(users, orders[i].userId))
    && (forall i :: 0 <= i < |items| ==> HasOrder(orders, items[i].orderId))
  }

  class Session {
    var users: seq<User>
    var orders: seq<Order>
    var items: seq<OrderItem>
    var nextUserId: int
    var nextOrderId: int
    var nextItemId: int
    var clock: int

    ghost predicate Valid()
      reads this
    {
      Consistent(users, orders, items, nextUserId, nextOrderId, nextItemId, clock)
    }

    /** Empty tables; every sequence starts at 1. */
    constructor (now: int)
      ensures Valid()
      ensures users == [] && orders == [] && items == [] && clock == now
      ensures nextUserId == 1 && nextOrderId == 1 && nextItemId == 1
    {
      users, orders, items := [], [], [];
      nextUserId, nextOrderId, nextItemId := 1, 1, 1;
      clock := now;
    }

    method Tick(seconds: nat)
      requires Valid()
      modifies this
      ensures Valid()
      ensures clock == old(clock) + seconds
      ensures users == old(users) && orders == old(orders) && items == old(items)
      ensures nextUserId == old(nextUserId) && nextOrderId == old(nextOrderId) && nextItemId == old(nextItemId)
    {
      clock := clock + seconds;
    }
  }
}
