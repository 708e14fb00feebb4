/**
  The backend as a whole: the three collections, the routes that change them,
  and the properties that hold across every route: historical orders only
  ever change in their status, user emails stay unique, and a request that
  fails the admin guard changes nothing.
 */
module Server {
  import opened Wrappers
  import opened Http
  import opened Entities
  import opened Auth
  import opened Accounts
  import opened Catalog
  import opened Orders

  /**
    The foreign collaborators: token verification and signing, password hashing
    and comparison, and the id the store assigns to the document a request creates.
   */
  datatype Env = Env(verify: Verifier, sign: Signer, hash: Hasher, compare: Comparer, freshId: Id)

  /** The users, products and orders collections. */
  datatype Store = Store(users: seq<User>, catalog: map<Id, Product>, orders: map<Id, Order>)

  /** The routes that read or change the collections, with the inputs each handler reads. */
  datatype Request =
    | SignupRoute(signup: SignupRequest)
    | SigninRoute(signin: SigninRequest)
    | MeRoute(header: Option<string>)
    | CreateProductRoute(header: Option<string>, form: ProductForm, upload: Upload)
    | UpdateProductRoute(header: Option<string>, id: Id, form: ProductForm, upload: Upload, existingImage: Option<string>)
    | DeleteProductRoute(header: Option<string>, id: Id)
    | CreateOrderRoute(order: OrderRequest)
    | UpdateStatusRoute(header: Option<string>, id: Id, status: Option<string>)

  /** The routes mounted behind `requireAuth, requireAdmin`. */
  predicate IsAdminRoute(req: Request) {
    req.CreateProductRoute? || req.UpdateProductRoute? || req.DeleteProductRoute? || req.UpdateStatusRoute?
  }

  /** The JSON body a route answers with. */
  datatype Reply =
    | Authenticated(auth: AuthReply)
    | Profile(user: SafeUser)
    | ProductBody(product: Product)
    | Deleted
    | OrderBody(order: Order)
    | Failed(error: HttpError)

  function Answer<T>(r: Result<T, HttpError>, body: T -> Reply): Reply {
    match r
    case Ok(v) => body(v)
    case Err(e) => Failed(e)
  }

  /**
    One request against the store: the reply and the store afterwards. Each
    route writes only its own collection: users change only on signup, the
    catalog only on the admin product routes, orders only on order creation and
    the status update; signin and `me` change nothing, and neither does any
    request that fails.
   */
  function Handle(store: Store, req: Request, env: Env): (r: (Reply, Store))
    ensures !req.SignupRoute? ==> r.1.users == store.users
    ensures !(req.CreateProductRoute? || req.UpdateProductRoute? || req.DeleteProductRoute?) ==> r.1.catalog == store.catalog
    ensures !(req.CreateOrderRoute? || req.UpdateStatusRoute?) ==> r.1.orders == store.orders
    ensures r.0.Failed? ==> r.1 == store
  {
    match req
    case SignupRoute(signup) =>
      var (r, users) := Signup(signup, store.users, env.freshId, env.hash, env.sign);
      (Answer(r, a => Authenticated(a)), store.(users := users))
    case SigninRoute(signin) =>
      (Answer(Signin(signin, store.users, env.compare, env.sign), a => Authenticated(a)), store)
    case MeRoute(header) =>
      (Answer(Me(header, env.verify, store.users), u => Profile(u)), store)
    case CreateProductRoute(header, form, upload) =>
      var (r, catalog) := CreateProduct(header, env.verify, form, upload, store.catalog, env.freshId);
      (Answer(r, p => ProductBody(p)), store.(catalog := catalog))
    case UpdateProductRoute(header, id, form, upload, existingImage) =>
      var (r, catalog) := UpdateProduct(header, env.verify, id, form, upload, existingImage, store.catalog);
      (Answer(r, p => ProductBody(p)), store.(catalog := catalog))
    case DeleteProductRoute(header, id) =>
      var (r, catalog) := DeleteProduct(header, env.verify, id, store.catalog);
      (Answer(r, _ => Deleted), store.(catalog := catalog))
    case CreateOrderRoute(order) =>
      var (r, orders) := CreateOrder(order, store.catalog, store.orders, env.freshId);
      (Answer(r, o => OrderBody(o)), store.(orders := orders))
    case UpdateStatusRoute(header, id, status) =>
      var (r, orders) := UpdateStatus(header, env.verify, id, status, store.orders);
      (Answer(r, o => OrderBody(o)), store.(orders := orders))
  }

  /**
    Orders are snapshots: whatever the request (a product edit or deletion
    included), every existing order is still there afterwards and differs at
    most in its status. Only order creation and the status update touch the
    orders collection at all.
   */
  lemma OrderHistoryPreserved(store: Store, req: Request, env: Env)
    requires env.freshId !in store.orders
    ensures var after := Handle(store, req, env).1;
      forall id :: id in store.orders ==> id in after.orders && SameExceptStatus(store.orders[id], after.orders[id])
    ensures !req.CreateOrderRoute? && !req.UpdateStatusRoute? ==> Handle(store, req, env).1.orders == store.orders
  {
  }

  /** No route breaks the uniqueness of user emails, and no route removes or edits a user. */
  lemma UsersInvariant(store: Store, req: Request, env: Env)
    requires UniqueEmails(store.users)
    ensures var after := Handle(store, req, env).1;
      UniqueEmails(after.users) && |store.users| <= |after.users| && after.users[..|store.users|] == store.users
  {
  }

  /**
    With a fresh id for new documents, a product survives every request other
    than an update or deletion of that very product, and is then unchanged.
   */
  lemma ProductsPreserved(store: Store, req: Request, env: Env, id: Id)
    requires env.freshId !in store.catalog && id in store.catalog
    requires !(req.UpdateProductRoute? && req.id == id) && !(req.DeleteProductRoute? && req.id == id)
    ensures var after := Handle(store, req, env).1;
      id in after.catalog && after.catalog[id] == store.catalog[id]
  {
  }

  /** With a fresh id for new documents, user ids stay unique. */
  lemma UserIdsStayUnique(store: Store, req: Request, env: Env)
    requires UniqueIds(store.users) && forall k :: 0 <= k < |store.users| ==> store.users[k].id != env.freshId
    ensures UniqueIds(Handle(store, req, env).1.users)
  {
  }

  /** An admin route whose guard fails answers with the guard's error and leaves the store as it was. */
  lemma GuardFailureChangesNothing(store: Store, req: Request, env: Env)
    requires IsAdminRoute(req) && AdminGuard(req.header, env.verify).Err?
    ensures Handle(store, req, env) == (Failed(AdminGuard(req.header, env.verify).error), store)
  {
  }

  /** A customer's valid token is refused with 403 on every admin route, and the store is left as it was. */
  lemma CustomerCannotAdminister(store: Store, req: Request, env: Env, token: string)
    requires IsAdminRoute(req) && req.header == Some(BearerPrefix + token)
    requires token != "" && env.verify(token).Some? && env.verify(token).value.role == RoleName(Customer)
    ensures Handle(store, req, env) == (Failed(AdminOnly), store)
  {
  }
}
