/** The table records: users, orders and order items, with their column
    defaults, and the closed set of roles. */
module Models {
  import opened Common
  import opened Passwords

  datatype Role = Cliente | Admin

  /** The enum's value, as `role.value` gives it. */
  function RoleValue(r: Role): string {
    match r
    case Cliente => "cliente"
    case Admin => "admin"
  }

  /** The enum lookup `Role(s)`: only the two values name a role. */
  function ParseRole(s: string): (r: Option<Role>)
    ensures r.Some? <==> (s == "cliente" || s == "admin")
    ensures r.Some? ==> RoleValue(r.value) == s
  {
    if s == "cliente" then Some(Cliente) else if s == "admin" then Some(Admin) else None
  }

  lemma RoleRoundTrip(r: Role)
    ensures ParseRole(RoleValue(r)) == Some(r)
  {
  }

  /** Distinct roles have distinct values. */
  lemma RoleValueInjective(a: Role, b: Role)
    ensures RoleValue(a) == RoleValue(b) ==> a == b
  {
  }

  datatype User = User(
    id: int,
    username: string,
    email: string,
    fullName: Option<string>,
    hashedPassword: Digest,
    role: Role,
    isActive: bool,
    createdAt: int)

  datatype Order = Order(id: int, userId: int, createdAt: int, state: string)

  datatype OrderItem = OrderItem(id: int, orderId: int, productId: int, quantity: int)

  const DefaultRole: Role := Cliente
  const DefaultIsActive: bool := true
  const DefaultOrderState: string := "pendiente"
  const DefaultQuantity: int := 1

  /** A user row as inserted: `is_active` takes its default. */
  function NewUser(id: int, username: string, email: string, fullName: Option<string>,
                   hashed: Digest, createdAt: int, role: Role := DefaultRole): (u: User)
    ensures u.isActive
    ensures u.id == id && u.username == username && u.email == email && u.role == role
  {
    User(id, username, email, fullName, hashed, role, DefaultIsActive, createdAt)
  }

  /** An order row as inserted: `state` takes its default. */
  function NewOrder(id: int, userId: int, createdAt: int): (o: Order)
    ensures o.state == "pendiente"
    ensures o.id == id && o.userId == userId && o.createdAt == createdAt
  {
    Order(id, userId, createdAt, DefaultOrderState)
  }

  /** An item row; `quantity` is 1 unless one is given. */
  function NewOrderItem(id: int, orderId: int, productId: int, quantity: int := DefaultQuantity): (it: OrderItem)
    ensures it.id == id && it.orderId == orderId && it.productId == productId && it.quantity == quantity
  {
    OrderItem(id, orderId, productId, quantity)
  }

  lemma ItemQuantityDefault(id: int, orderId: int, productId: int)
    ensures NewOrderItem(id, orderId, productId).quantity == 1
  {
  }

  /** The two unique columns of the users table: no two rows share a username,
      and no two rows share an email. */
  predicate UniqueLogins(users: seq<User>) {
    forall i, j :: 0 <= i < j < |users| ==>
      users[i].username != users[j].username && users[i].email != users[j].email
  }
}
