/** The records the backend stores: users, catalog products and orders. */
module Entities {

  /** A document identifier, as the string form of the store's object id. */
  type Id = string

  datatype Role = Customer | Admin

  /** The role as written in the user record and in a token's claims. */
  function RoleName(role: Role): string {
    match role
    case Customer => "customer"
    case Admin => "admin"
  }

  /** A stored account; `passwordHash` is the bcrypt digest, never the plain password. */
  datatype User = User(id: Id, name: string, email: string, role: Role, passwordHash: string)

  /** The projection of a user that is sent to clients: everything but the password digest. */
  datatype SafeUser = SafeUser(id: Id, name: string, email: string, role: Role)

  function Project(user: User): SafeUser {
    SafeUser(user.id, user.name, user.email, user.role)
  }

  /** A catalog item. */
  datatype Product = Product(name: string, category: string, price: int, desc: string, specs: string, image: string)

  /** One order line: a snapshot of the product at order time, plus the quantity. */
  datatype LineItem = LineItem(productId: Id, name: string, price: int, quantity: int, image: string)

  datatype OrderStatus = Pending | Processing | Completed | Cancelled

  function StatusName(status: OrderStatus): string {
    match status
    case Pending => "pending"
    case Processing => "processing"
    case Completed => "completed"
    case Cancelled => "cancelled"
  }

  datatype Order = Order(
    customerName: string,
    customerEmail: string,
    customerPhone: string,
    customerLocation: string,
    items: seq<LineItem>,
    totalAmount: int,
    status: OrderStatus)

  /** `after` is `before` with at most its status changed. */
  predicate SameExceptStatus(before: Order, after: Order) {
    after == before.(status := after.status)
  }
}
