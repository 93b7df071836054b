/** The three collections the backend persists (products, users, orders) and
    the invariant every committed state keeps. The order document's shape is
    the one the order route builds; its schema file is not part of this model. */
module Store {
  import opened Common
  import opened ProductModel
  import opened UserModel

  datatype CustomerInfo = CustomerInfo(
    fullName: string, email: string, address: string, apartment: string,
    city: string, state: string, pinCode: string)

  /** The product snapshot embedded in an order. The image is absent when
      the request body carried none. */
  datatype OrderLine = OrderLine(
    productId: Id, name: string, price: int,
    color: string, size: string, quantity: int, image: Option<string>)

  datatype Order = Order(
    id: Id, userId: Id, orderNumber: string, customerInfo: CustomerInfo,
    product: OrderLine, totalAmount: int, status: string)

  /** The committed contents of the database; `nextId` stands for ObjectId
      freshness: every id in use is below it. */
  datatype State = State(
    products: map<Id, Product>,
    users: map<Id, User>,
    orders: map<Id, Order>,
    nextId: nat)

  predicate StoredProduct(p: Product)
  {
    ValidProduct(p) && Normalized(p)
  }

  predicate StoredUser(u: User)
  {
    ValidUser(u) && Balanced(u)
  }

  /** Every id in use is below `nextId`, so `nextId` is fresh. */
  ghost predicate IdsFresh(s: State)
  {
    && (forall id :: id in s.products ==> id < s.nextId)
    && (forall id :: id in s.users ==> id < s.nextId)
    && (forall id :: id in s.orders ==> id < s.nextId)
  }

  /** Every product passes its schema, so no inventory is negative. */
  ghost predicate ProductsStored(products: map<Id, Product>)
  {
    forall id :: id in products ==> StoredProduct(products[id])
  }

  /** Every user passes its schema and its wallet agrees with its ledger. */
  ghost predicate UsersStored(users: map<Id, User>)
  {
    forall id :: id in users ==> StoredUser(users[id])
  }

  /** Emails are stored as the setters leave them. */
  ghost predicate EmailsNormalized(users: map<Id, User>)
  {
    forall id :: id in users ==> NormalizedEmail(users[id].email)
  }

  /** An email the model's `lowercase` and `trim` setters leave unchanged. */
  ghost predicate NormalizedEmail(email: string)
  {
    email == NormalizeEmail(email)
  }

  /** No two users share an email (the unique index). */
  ghost predicate EmailsDistinct(users: map<Id, User>)
  {
    forall a, b :: a in users && b in users && users[a].email == users[b].email ==> a == b
  }

  /** Emails are stored normalized and are unique. */
  ghost predicate EmailsUnique(users: map<Id, User>)
  {
    EmailsNormalized(users) && EmailsDistinct(users)
  }

  /** Each order sits under its own id. */
  ghost predicate OrdersKeyed(orders: map<Id, Order>)
  {
    forall id :: id in orders ==> orders[id].id == id
  }

  /** The invariant of every committed state. */
  ghost predicate Consistent(s: State)
  {
    IdsFresh(s) && ProductsStored(s.products) && UsersStored(s.users)
    && EmailsUnique(s.users) && OrdersKeyed(s.orders)
  }

  /** The database connection the route handlers act on. */
  class Database {
    var products: map<Id, Product>
    var users: map<Id, User>
    var orders: map<Id, Order>
    var nextId: nat

    function Contents(): State
      reads this
    {
      State(products, users, orders, nextId)
    }

    ghost predicate Valid()
      reads this
    {
      Consistent(Contents())
    }

    /** A database seeded with a catalog (catalog management is not part of
        this model), and no users or orders. */
    constructor (catalog: seq<Product>)
      requires forall i :: 0 <= i < |catalog| ==> StoredProduct(catalog[i])
      ensures Valid()
      ensures products == map i | 0 <= i < |catalog| :: catalog[i]
      ensures users == map[] && orders == map[] && nextId == |catalog|
    {
      products := map i | 0 <= i < |catalog| :: catalog[i];
      users := map[];
      orders := map[];
      nextId := |catalog|;
    }
  }
}
