/** The order routes (backend/src/routes/order.routes.ts): placing an order,
    which checks stock and funds, records the order and, on a "success"
    status, decrements the stock and debits the wallet in one commit; and the
    owner-checked order lookup. */
module OrderRoutes {
  import opened Common
  import opened ProductModel
  import opened UserModel
  import opened Store

  /** `totalAmount` after JavaScript's numeric coercion: a number (money is an
      integer here) or NaN, which every `<` comparison answers with false. */
  datatype Amount = Num(value: int) | NaN

  /** The request body of `POST /orders`; the product part is flattened. A
      JSON body leaves out a property whose value is `undefined`, so the
      image may be absent. */
  datatype OrderRequest = OrderRequest(
    customerInfo: CustomerInfo,
    productId: Id, color: string, size: string, quantity: int, image: Option<string>,
    totalAmount: Amount, status: string, orderNumber: string)

  datatype PlaceResponse =
    | Created(order: Order, inventory: int, userBalance: int)        // 201
    | Recorded(status: string, order: Order)                          // 200
    | NotFound(message: string)                                       // 404
    | InsufficientInventory(available: int)                           // 400
    | InsufficientBalance(currentBalance: int, requiredAmount: int)   // 400
    | ServerError                                                     // 500

  const ProductNotFound: string := "Product not found"
  const UserNotFound: string := "User not found"
  const SuccessStatus: string := "success"

  function HttpStatus(r: PlaceResponse): int
  {
    match r
    case Created(_, _, _) => 201
    case Recorded(_, _) => 200
    case NotFound(_) => 404
    case InsufficientInventory(_) => 400
    case InsufficientBalance(_, _) => 400
    case ServerError => 500
  }

  /** The order document: name and price from the stored product, the variant,
      quantity and image from the request. */
  function BuildOrder(id: Id, userId: Id, p: Product, req: OrderRequest, amount: int): Order
  {
    Order(id, userId, req.orderNumber, req.customerInfo,
          OrderLine(req.productId, p.name, p.price, req.color, req.size, req.quantity, req.image),
          amount, req.status)
  }

  function PurchaseEntry(p: Product, amount: int, orderId: Id): Transaction
  {
    Transaction(amount, Debit, "Purchase of " + p.name, Some(orderId))
  }

  /** The checks of `POST /orders`, in the handler's order: the product, its
      stock, the user, then the wallet. A NaN total passes the wallet check,
      since `wallet < NaN` is false. */
  function Rejection(s: State, userId: Id, req: OrderRequest): Option<PlaceResponse>
  {
    if req.productId !in s.products then Some(NotFound(ProductNotFound))
    else if s.products[req.productId].inventory < req.quantity
    then Some(InsufficientInventory(s.products[req.productId].inventory))
    else if userId !in s.users then Some(NotFound(UserNotFound))
    else if req.totalAmount.Num? && s.users[userId].wallet < req.totalAmount.value
    then Some(InsufficientBalance(s.users[userId].wallet, req.totalAmount.value))
    else None
  }

  /** The product after the stock decrement. */
  function Reserved(p: Product, quantity: int): Product
  {
    p.(inventory := p.inventory - quantity)
  }

  /** The user after the wallet debit and its ledger entry. */
  function Debited(u: User, entry: Transaction): User
  {
    u.(wallet := u.wallet - entry.amount, transactions := u.transactions + [entry])
  }

  /** The saves of a "success": the product and the user are validated and
      written with the order in one commit; a failing save aborts them all. */
  function Settle(s: State, userId: Id, req: OrderRequest, order: Order): (State, PlaceResponse)
    requires req.productId in s.products && userId in s.users
  {
    var p := s.products[req.productId];
    var entry := PurchaseEntry(p, order.totalAmount, order.id);
    match (Save(Reserved(p, req.quantity)), SaveUser(Debited(s.users[userId], entry), false, 0))
    case (Saved(sp), UserSaved(su)) =>
      (State(s.products[req.productId := sp], s.users[userId := su],
             s.orders[order.id := order], s.nextId + 1),
       Created(order, sp.inventory, su.wallet))
    case _ => (s, ServerError)
  }

  /** What follows the checks: the order is built under a fresh id and saved
      whatever the status; only a "success" goes on to the stock and wallet. */
  function Commit(s: State, userId: Id, req: OrderRequest): (State, PlaceResponse)
    requires req.productId in s.products && userId in s.users
  {
    match req.totalAmount
    case NaN => (s, ServerError)
    case Num(amount) =>
      var order := BuildOrder(s.nextId, userId, s.products[req.productId], req, amount);
      if req.status == SuccessStatus then Settle(s, userId, req, order)
      else (s.(orders := s.orders[order.id := order], nextId := s.nextId + 1), Recorded(req.status, order))
  }

  /** The specification of `POST /orders` on a committed state: the state after
      the commit (or the untouched state after an abort) and the response. */
  function Place(s: State, userId: Id, req: OrderRequest): (State, PlaceResponse)
  {
    match Rejection(s, userId, req)
    case Some(r) => (s, r)
    case None => Commit(s, userId, req)
  }

  /** `POST /orders`, one request at a time: the checks, each of which aborts
      the session with nothing written, then the order's commit. */
  method PlaceOrder(db: Database, userId: Id, req: OrderRequest) returns (resp: PlaceResponse)
    requires db.Valid()
    modifies db
    ensures db.Valid()
    ensures (db.Contents(), resp) == Place(old(db.Contents()), userId, req)
  {
    ghost var before := db.Contents();
    PlacePreservesConsistency(before, userId, req);
    if req.productId !in db.products {
      return NotFound(ProductNotFound);
    }
    var dbProduct := db.products[req.productId];
    if dbProduct.inventory < req.quantity {
      return InsufficientInventory(dbProduct.inventory);
    }
    if userId !in db.users {
      return NotFound(UserNotFound);
    }
    var user := db.users[userId];
    if req.totalAmount.Num? && user.wallet < req.totalAmount.value {
      return InsufficientBalance(user.wallet, req.totalAmount.value);
    }
    resp := CommitOrder(db, userId, req);
  }

  /** The rest of `POST /orders`: the order is built under a fresh id and
      saved whatever the status; only a "success" goes on to the stock and
      the wallet. Notification e-mails after the commit are not part of this
      model. */
  method CommitOrder(db: Database, userId: Id, req: OrderRequest) returns (resp: PlaceResponse)
    requires req.productId in db.products && userId in db.users
    modifies db
    ensures (db.Contents(), resp) == Commit(old(db.Contents()), userId, req)
  {
    if req.totalAmount.NaN? {
      // the order document cannot cast its total when saved; the catch aborts
      return ServerError;
    }
    var order := BuildOrder(db.nextId, userId, db.products[req.productId], req, req.totalAmount.value);
    if req.status == SuccessStatus {
      resp := SettleOrder(db, userId, req, order);
    } else {
      db.orders, db.nextId := db.orders[order.id := order], db.nextId + 1;
      resp := Recorded(req.status, order);
    }
  }

  /** The saves of a "success". The product and user documents are read into
      local copies and changed there; the collections are written only at the
      commit, so an aborted save leaves them as they were. */
  method SettleOrder(db: Database, userId: Id, req: OrderRequest, order: Order) returns (resp: PlaceResponse)
    requires req.productId in db.products && userId in db.users
    modifies db
    ensures (db.Contents(), resp) == Settle(old(db.Contents()), userId, req, order)
  {
    ghost var before := db.Contents();
    var dbProduct := db.products[req.productId];
    var user := db.users[userId];
    var entry := PurchaseEntry(dbProduct, order.totalAmount, order.id);
    dbProduct := Reserved(dbProduct, req.quantity);
    user := Debited(user, entry);
    var productSave := Save(dbProduct);
    var userSave := SaveUser(user, false, 0);
    if productSave.Rejected? || userSave.UserRejected? {
      SettleWhenRejected(before, userId, req, order);
      return ServerError;
    }
    SettleWhenSaved(before, userId, req, order, productSave.product, userSave.user);
    db.products := db.products[req.productId := productSave.product];
    db.users := db.users[userId := userSave.user];
    db.orders, db.nextId := db.orders[order.id := order], db.nextId + 1;
    resp := Created(order, productSave.product.inventory, userSave.user.wallet);
  }

  lemma SettleWhenSaved(s: State, userId: Id, req: OrderRequest, order: Order, sp: Product, su: User)
    requires req.productId in s.products && userId in s.users
    requires Save(Reserved(s.products[req.productId], req.quantity)) == Saved(sp)
    requires SaveUser(Debited(s.users[userId], PurchaseEntry(s.products[req.productId], order.totalAmount, order.id)), false, 0)
             == UserSaved(su)
    ensures Settle(s, userId, req, order) ==
      (State(s.products[req.productId := sp], s.users[userId := su], s.orders[order.id := order], s.nextId + 1),
       Created(order, sp.inventory, su.wallet))
  {
  }

  lemma SettleWhenRejected(s: State, userId: Id, req: OrderRequest, order: Order)
    requires req.productId in s.products && userId in s.users
    requires Save(Reserved(s.products[req.productId], req.quantity)).Rejected?
             || SaveUser(Debited(s.users[userId], PurchaseEntry(s.products[req.productId], order.totalAmount, order.id)), false, 0).UserRejected?
    ensures Settle(s, userId, req, order) == (s, ServerError)
  {
  }

  /** The purchase entry is a valid ledger entry: its description is never empty. */
  lemma PurchaseEntryValid(p: Product, amount: int, orderId: Id)
    ensures ValidTransaction(PurchaseEntry(p, amount, orderId))
    ensures PurchaseEntry(p, amount, orderId).kind == Debit
  {
    assert PurchaseEntry(p, amount, orderId).description[0] == 'P';
  }

  /** On a stored product and user whose checks passed, both saves of a
      "success" go through unchanged. */
  lemma {:induction false} SettleSaves(s: State, userId: Id, req: OrderRequest, order: Order)
    requires ProductsStored(s.products) && UsersStored(s.users)
    requires req.productId in s.products && userId in s.users
    requires s.products[req.productId].inventory >= req.quantity
    ensures var p := s.products[req.productId];
            var u' := Debited(s.users[userId], PurchaseEntry(p, order.totalAmount, order.id));
            Settle(s, userId, req, order) ==
              (State(s.products[req.productId := Reserved(p, req.quantity)], s.users[userId := u'],
                     s.orders[order.id := order], s.nextId + 1),
               Created(order, p.inventory - req.quantity, u'.wallet))
  {
    var p := s.products[req.productId];
    var entry := PurchaseEntry(p, order.totalAmount, order.id);
    assert StoredProduct(p);
    ReserveStillSaves(p, req.quantity);
    assert StoredUser(s.users[userId]);
    PurchaseEntryValid(p, order.totalAmount, order.id);
    var u' := Debited(s.users[userId], entry);
    assert forall i :: 0 <= i < |u'.transactions| ==> ValidTransaction(u'.transactions[i]);
    assert SaveUser(u', false, 0) == UserSaved(u');
  }

  /** A debited user stays a stored user: its entry is valid and its wallet
      still agrees with its ledger. */
  lemma {:induction false} DebitedStored(u: User, p: Product, amount: int, orderId: Id)
    requires StoredUser(u)
    ensures StoredUser(Debited(u, PurchaseEntry(p, amount, orderId)))
  {
    PurchaseEntryValid(p, amount, orderId);
    DebitKeepsBalance(u, amount, "Purchase of " + p.name, orderId);
    var u' := Debited(u, PurchaseEntry(p, amount, orderId));
    assert forall i :: 0 <= i < |u'.transactions| ==> ValidTransaction(u'.transactions[i]);
  }

  /** A placement that records an order keeps the ids fresh and every order
      under its own id; any other outcome leaves the state as it was. */
  lemma {:induction false} PlaceKeepsIds(s: State, userId: Id, req: OrderRequest)
    requires IdsFresh(s) && OrdersKeyed(s.orders)
    ensures IdsFresh(Place(s, userId, req).0) && OrdersKeyed(Place(s, userId, req).0.orders)
  {
  }

  /** The catalog stays valid: a success's decrement is bounded by the stock check. */
  lemma {:induction false} PlaceKeepsProducts(s: State, userId: Id, req: OrderRequest)
    requires ProductsStored(s.products) && UsersStored(s.users)
    ensures ProductsStored(Place(s, userId, req).0.products)
  {
    if Rejection(s, userId, req).None? && req.totalAmount.Num? && req.status == SuccessStatus {
      var p := s.products[req.productId];
      SettleSaves(s, userId, req, BuildOrder(s.nextId, userId, p, req, req.totalAmount.value));
      assert StoredProduct(p);
      assert StoredProduct(Reserved(p, req.quantity));
    }
  }

  /** Replacing a stored user by another stored user with the same email
      keeps the registry valid and its emails unique. */
  lemma {:induction false} ReplaceUserKeepsRegistry(users: map<Id, User>, userId: Id, u': User)
    requires UsersStored(users) && EmailsUnique(users)
    requires userId in users && StoredUser(u') && u'.email == users[userId].email
    ensures UsersStored(users[userId := u']) && EmailsUnique(users[userId := u'])
  {
    ReplaceUserKeepsStored(users, userId, u');
    ReplaceUserKeepsNormalized(users, userId, u');
    ReplaceUserKeepsDistinct(users, userId, u');
  }

  lemma {:induction false} ReplaceUserKeepsStored(users: map<Id, User>, userId: Id, u': User)
    requires UsersStored(users) && StoredUser(u')
    ensures UsersStored(users[userId := u'])
  {
    var users' := users[userId := u'];
    forall id | id in users'
      ensures StoredUser(users'[id])
    {
      if id != userId {
        assert users'[id] == users[id];
      }
    }
  }

  lemma {:induction false} ReplaceUserKeepsNormalized(users: map<Id, User>, userId: Id, u': User)
    requires EmailsNormalized(users)
    requires userId in users && u'.email == users[userId].email
    ensures EmailsNormalized(users[userId := u'])
  {
    var users' := users[userId := u'];
    assert forall id :: id in users' ==> id in users && users'[id].email == users[id].email;
  }

  lemma {:induction false} ReplaceUserKeepsDistinct(users: map<Id, User>, userId: Id, u': User)
    requires EmailsDistinct(users)
    requires userId in users && u'.email == users[userId].email
    ensures EmailsDistinct(users[userId := u'])
  {
    var users' := users[userId := u'];
    forall a, b | a in users' && b in users' && users'[a].email == users'[b].email
      ensures a == b
    {
      assert users'[a].email == users[a].email;
      assert users'[b].email == users[b].email;
    }
  }

  /** Users stay valid and balanced, and emails stay unique: a success only
      debits the buyer and appends its ledger entry. */
  lemma {:induction false} PlaceKeepsUsers(s: State, userId: Id, req: OrderRequest)
    requires ProductsStored(s.products) && UsersStored(s.users) && EmailsUnique(s.users)
    ensures UsersStored(Place(s, userId, req).0.users) && EmailsUnique(Place(s, userId, req).0.users)
  {
    if Rejection(s, userId, req).None? && req.totalAmount.Num? && req.status == SuccessStatus {
      var p := s.products[req.productId];
      var u := s.users[userId];
      var order := BuildOrder(s.nextId, userId, p, req, req.totalAmount.value);
      SettleSaves(s, userId, req, order);
      assert StoredUser(u);
      DebitedStored(u, p, order.totalAmount, order.id);
      var u' := Debited(u, PurchaseEntry(p, order.totalAmount, order.id));
      ReplaceUserKeepsRegistry(s.users, userId, u');
      assert Place(s, userId, req).0.users == s.users[userId := u'];
    } else {
      assert Place(s, userId, req).0.users == s.users;
    }
  }

  /** Every committed state stays consistent: stock never goes negative,
      wallets keep agreeing with their ledgers, emails stay unique and ids
      stay fresh. */
  lemma {:induction false} PlacePreservesConsistency(s: State, userId: Id, req: OrderRequest)
    requires Consistent(s)
    ensures Consistent(Place(s, userId, req).0)
  {
    PlaceKeepsIds(s, userId, req);
    PlaceKeepsProducts(s, userId, req);
    PlaceKeepsUsers(s, userId, req);
  }

  /** With a consistent store the only server error is a non-numeric total:
      the product and user saves of a success never fail validation. */
  lemma PlaceServerErrorOnlyForNaN(s: State, userId: Id, req: OrderRequest)
    requires Consistent(s)
    ensures Place(s, userId, req).1 == ServerError ==> req.totalAmount == NaN
  {
    if Rejection(s, userId, req).None? && req.totalAmount.Num? && req.status == SuccessStatus {
      var p := s.products[req.productId];
      SettleSaves(s, userId, req, BuildOrder(s.nextId, userId, p, req, req.totalAmount.value));
    }
  }

  /** An unknown product is reported before the user is looked up; an unknown
      user after the stock check. Neither writes anything. */
  lemma PlaceUnknownIds(s: State, userId: Id, req: OrderRequest)
    ensures req.productId !in s.products ==> Place(s, userId, req) == (s, NotFound(ProductNotFound))
    ensures (req.productId in s.products && s.products[req.productId].inventory >= req.quantity
             && userId !in s.users) ==> Place(s, userId, req) == (s, NotFound(UserNotFound))
    ensures HttpStatus(Place(s, userId, req).1) == 404 <==>
            (req.productId !in s.products
             || (s.products[req.productId].inventory >= req.quantity && userId !in s.users))
  {
  }

  /** Too little stock is a 400 carrying the current stock, and nothing is
      written; asking for exactly the stock passes this check. */
  lemma PlaceInsufficientInventory(s: State, userId: Id, req: OrderRequest)
    requires req.productId in s.products
    ensures Place(s, userId, req).1.InsufficientInventory? <==>
            s.products[req.productId].inventory < req.quantity
    ensures s.products[req.productId].inventory < req.quantity ==>
            Place(s, userId, req) == (s, InsufficientInventory(s.products[req.productId].inventory))
  {
  }

  /** Too small a wallet is a 400 carrying the balance and the required amount,
      and nothing is written; a wallet equal to the total passes and, on a
      success, ends at 0. */
  lemma PlaceInsufficientBalance(s: State, userId: Id, req: OrderRequest)
    requires ProductsStored(s.products) && UsersStored(s.users)
    requires req.productId in s.products && s.products[req.productId].inventory >= req.quantity
    requires userId in s.users && req.totalAmount.Num?
    ensures Place(s, userId, req).1.InsufficientBalance? <==> s.users[userId].wallet < req.totalAmount.value
    ensures s.users[userId].wallet < req.totalAmount.value ==>
            Place(s, userId, req) ==
              (s, InsufficientBalance(s.users[userId].wallet, req.totalAmount.value))
    ensures s.users[userId].wallet == req.totalAmount.value && req.status == SuccessStatus ==>
            Place(s, userId, req).0.users[userId].wallet == 0
  {
    if s.users[userId].wallet >= req.totalAmount.value && req.status == SuccessStatus {
      var p := s.products[req.productId];
      SettleSaves(s, userId, req, BuildOrder(s.nextId, userId, p, req, req.totalAmount.value));
    }
  }

  /** Every failure writes nothing at all. */
  lemma PlaceFailureWritesNothing(s: State, userId: Id, req: OrderRequest)
    ensures var (s', r) := Place(s, userId, req);
            !(r.Created? || r.Recorded?) ==> s' == s
  {
  }

  /** A recorded order carries a snapshot: name and price from the stored
      product, colour, size, quantity and image from the request, under a
      fresh id, with the requested status and total. */
  lemma PlaceSnapshot(s: State, userId: Id, req: OrderRequest)
    requires IdsFresh(s)
    ensures var (s', r) := Place(s, userId, req);
            (r.Created? || r.Recorded?) ==>
              && req.productId in s.products && req.totalAmount.Num?
              && r.order.id == s.nextId && r.order.id !in s.orders
              && s'.orders == s.orders[r.order.id := r.order]
              && r.order.userId == userId
              && r.order.product == OrderLine(req.productId, s.products[req.productId].name,
                                              s.products[req.productId].price, req.color,
                                              req.size, req.quantity, req.image)
              && r.order.totalAmount == req.totalAmount.value
              && r.order.status == req.status
  {
  }

  /** A "success" placement that passes the checks commits all four effects
      together: the stock drops by the quantity, the wallet by the total, one
      debit entry referencing the new order is appended after the unchanged
      earlier entries, and exactly one order is saved; the answer is 201. */
  lemma PlaceSuccess(s: State, userId: Id, req: OrderRequest)
    requires ProductsStored(s.products) && UsersStored(s.users) && IdsFresh(s)
    requires req.status == SuccessStatus
    requires req.productId in s.products && s.products[req.productId].inventory >= req.quantity
    requires userId in s.users && req.totalAmount.Num?
    requires s.users[userId].wallet >= req.totalAmount.value
    ensures var (s', r) := Place(s, userId, req);
            var p := s.products[req.productId];
            var u := s.users[userId];
            var amount := req.totalAmount.value;
            && r.Created? && HttpStatus(r) == 201
            && s'.products == s.products[req.productId := p.(inventory := p.inventory - req.quantity)]
            && s'.products[req.productId].inventory >= 0
            && s'.users == s.users[userId := u.(wallet := u.wallet - amount,
                 transactions := u.transactions
                   + [Transaction(amount, Debit, "Purchase of " + p.name, Some(r.order.id))])]
            && s'.users[userId].wallet >= 0
            && s'.orders == s.orders[r.order.id := r.order] && r.order.id !in s.orders
            && r.inventory == s'.products[req.productId].inventory
            && r.userBalance == s'.users[userId].wallet
  {
    var p := s.products[req.productId];
    SettleSaves(s, userId, req, BuildOrder(s.nextId, userId, p, req, req.totalAmount.value));
  }

  /** Any other status still passes the checks first, then records exactly one
      order with that status and leaves every product and user as it was; the
      answer is 200. */
  lemma PlaceNonSuccess(s: State, userId: Id, req: OrderRequest)
    requires req.status != SuccessStatus
    ensures var (s', r) := Place(s, userId, req);
            && s'.products == s.products && s'.users == s.users
            && (r.Recorded? <==>
                 (req.productId in s.products && s.products[req.productId].inventory >= req.quantity
                  && userId in s.users && req.totalAmount.Num?
                  && s.users[userId].wallet >= req.totalAmount.value))
            && (r.Recorded? ==> HttpStatus(r) == 200 && r.status == req.status
                                && r.order.status == req.status
                                && s'.orders == s.orders[s.nextId := r.order])
  {
  }

  /** One step of a sequence of placements: who asks, and what. */
  datatype Attempt = Attempt(userId: Id, req: OrderRequest)

  /** Placements served one after another. */
  function Run(s: State, attempts: seq<Attempt>): State
    decreases |attempts|
  {
    if attempts == [] then s
    else Run(Place(s, attempts[0].userId, attempts[0].req).0, attempts[1..])
  }

  /** Starting from a consistent store (every user created by signup with 2000
      and an empty ledger is balanced), any sequence of placements keeps every
      wallet equal to 2000 plus credits minus debits, and every stock at or
      above 0. */
  lemma {:induction false} RunPreservesConsistency(s: State, attempts: seq<Attempt>)
    requires Consistent(s)
    ensures Consistent(Run(s, attempts))
    ensures forall id :: id in Run(s, attempts).users ==> Balanced(Run(s, attempts).users[id])
    ensures forall id :: id in Run(s, attempts).products ==> Run(s, attempts).products[id].inventory >= 0
    decreases |attempts|
  {
    if attempts != [] {
      PlacePreservesConsistency(s, attempts[0].userId, attempts[0].req);
      RunPreservesConsistency(Place(s, attempts[0].userId, attempts[0].req).0, attempts[1..]);
    }
  }

  /** Placements whose status is not "success", however many, never change a
      product or a user. */
  lemma {:induction false} FailedStatusesNeverMutate(s: State, attempts: seq<Attempt>)
    requires forall i :: 0 <= i < |attempts| ==> attempts[i].req.status != SuccessStatus
    ensures Run(s, attempts).products == s.products && Run(s, attempts).users == s.users
    decreases |attempts|
  {
    if attempts != [] {
      PlaceNonSuccess(s, attempts[0].userId, attempts[0].req);
      FailedStatusesNeverMutate(Place(s, attempts[0].userId, attempts[0].req).0, attempts[1..]);
    }
  }

  datatype LookupResponse =
    | Found(order: Order)       // 200
    | OrderNotFound             // 404 "Order not found"
    | Forbidden                 // 403 "Not authorized to access this order"

  /** `GET /orders/:id`: a missing order is 404 before ownership is compared,
      another user's order is 403, and the owner gets the stored order. */
  function GetOrder(orders: map<Id, Order>, orderId: Id, callerId: Id): (r: LookupResponse)
    ensures r == OrderNotFound <==> orderId !in orders
    ensures r == Forbidden <==> orderId in orders && orders[orderId].userId != callerId
    ensures r.Found? <==> orderId in orders && orders[orderId].userId == callerId
    ensures r.Found? ==> r.order == orders[orderId]
  {
    if orderId !in orders then OrderNotFound
    else if orders[orderId].userId != callerId then Forbidden
    else Found(orders[orderId])
  }

  /** The owner can read back the order a placement recorded, unchanged. */
  lemma PlacedOrderIsReadable(s: State, userId: Id, req: OrderRequest)
    requires IdsFresh(s)
    ensures var (s', r) := Place(s, userId, req);
            (r.Created? || r.Recorded?) ==> GetOrder(s'.orders, r.order.id, userId) == Found(r.order)
  {
    PlaceSnapshot(s, userId, req);
  }
}
