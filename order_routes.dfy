/** The /orders router: each endpoint's middleware chain and controller function, and a
    request served end to end through them. */
module OrderRoutes {
  import opened Wrappers
  import opened OrderModel
  import opened Messages
  import opened Database
  import opened AuthMiddleware
  import opened OrderSpec
  import opened OrderController

  datatype Middleware = Authenticate | RequireRole(roles: seq<Role>)

  /** The exported controller functions of the order controller. */
  datatype Handler =
    | MyOrdersHandler | CreateOrderHandler | UnassignedOrdersHandler | AcceptOrderHandler
    | UpdateOrderStatusHandler | OrderByIdHandler | AllOrdersHandler
    | CustomerOrdersHandler | DeliveryPartnerOrdersHandler

  /** GET /my-orders, POST /, GET /unassigned, PATCH /:orderId/accept. */
  datatype Endpoint = GetMyOrders | PostOrder | GetUnassigned | PatchAccept(orderId: OrderId)

  function Chain(e: Endpoint): (r: seq<Middleware>)
    ensures |r| >= 1 && r[0] == Authenticate
    ensures e.GetMyOrders? <==> |r| == 1
    ensures !e.GetMyOrders? ==> |r| == 2 && r[1].RequireRole? && |r[1].roles| == 1
  {
    match e
    case GetMyOrders => [Authenticate]
    case PostOrder => [Authenticate, RequireRole([Customer])]
    case GetUnassigned => [Authenticate, RequireRole([DeliveryPartner])]
    case PatchAccept(_) => [Authenticate, RequireRole([DeliveryPartner])]
  }

  function HandlerOf(e: Endpoint): (h: Handler)
    ensures h in {MyOrdersHandler, CreateOrderHandler, UnassignedOrdersHandler, AcceptOrderHandler}
  {
    match e
    case GetMyOrders => MyOrdersHandler
    case PostOrder => CreateOrderHandler
    case GetUnassigned => UnassignedOrdersHandler
    case PatchAccept(_) => AcceptOrderHandler
  }

  /** An HTTP request: endpoint, Authorization header, body fields. */
  datatype Request = Request(
    endpoint: Endpoint,
    authorization: Option<string>,
    products: Option<seq<RequestItem>>,
    status: string)

  /** Express runs the middleware in order; each either answers or calls next(). A role gate
      reached before authentication reads an undefined req.userData and throws (500). */
  function RunChain(chain: seq<Middleware>, header: Option<string>, verify: string -> Option<Decoded>, user: Option<Claims>): (r: Result<Claims>)
    ensures r.Err? ==> r.failure in {Unauthorized, Forbidden, ServerError}
    ensures r.Ok? && chain != [] && chain[0] == Authenticate ==> AuthMiddleware.Authenticate(header, verify).Ok?
    ensures r.Ok? ==> user.Some? || Authenticate in chain
    decreases |chain|
  {
    if chain == [] then (if user.Some? then Ok(user.value) else Err(ServerError))
    else
      match chain[0]
      case Authenticate =>
        (match AuthMiddleware.Authenticate(header, verify)
         case Err(f) => Err(f)
         case Ok(c) => RunChain(chain[1..], header, verify, Some(c)))
      case RequireRole(roles) =>
        if user.None? then Err(ServerError)
        else
          match RoleGate(roles, user.value)
          case Err(f) => Err(f)
          case Ok(c) => RunChain(chain[1..], header, verify, Some(c))
  }

  datatype Reply = One(order: Order) | Many(orders: seq<Order>)

  datatype Served = Served(db: Db, response: Result<Reply>, emitted: seq<Event>)

  function Lift(s: StepResult): Served {
    match s.response
    case Ok(o) => Served(s.db, Ok(One(o)), s.emitted)
    case Err(f) => Served(s.db, Err(f), s.emitted)
  }

  /** Runs one controller function for an authenticated caller. */
  function Dispatch(db: Db, h: Handler, caller: Claims, orderId: OrderId, req: Request): Served {
    match h
    case MyOrdersHandler => Served(db, Ok(Many(OrderController.GetMyOrders(db, caller))), [])
    case CreateOrderHandler => Lift(CreateStep(db, caller, req.products))
    case UnassignedOrdersHandler => Served(db, Ok(Many(GetUnassignedOrders(db))), [])
    case AcceptOrderHandler => Lift(AcceptStep(db, caller, orderId))
    case UpdateOrderStatusHandler => Lift(UpdateStep(db, caller, orderId, req.status))
    case OrderByIdHandler =>
      (match GetOrderById(db, orderId)
       case Ok(o) => Served(db, Ok(One(o)), [])
       case Err(f) => Served(db, Err(f), []))
    case AllOrdersHandler => Served(db, Ok(Many(GetAllOrders(db))), [])
    case CustomerOrdersHandler => Served(db, Ok(Many(GetCustomerOrders(db, caller))), [])
    case DeliveryPartnerOrdersHandler => Served(db, Ok(Many(GetDeliveryPartnerOrders(db, caller))), [])
  }

  /** A request served by the router: the chain, then the endpoint's controller function. */
  function Serve(db: Db, req: Request, verify: string -> Option<Decoded>): (s: Served)
    ensures s.response.Ok? ==> AuthMiddleware.Authenticate(req.authorization, verify).Ok?
    ensures s.response.Err? ==> s.db == db && s.emitted == []
  {
    match RunChain(Chain(req.endpoint), req.authorization, verify, None)
    case Err(f) => Served(db, Err(f), [])
    case Ok(c) =>
      Dispatch(db, HandlerOf(req.endpoint), c, if req.endpoint.PatchAccept? then req.endpoint.orderId else 0, req)
  }

  /** Every route authenticates first. */
  lemma AuthenticatesFirst(e: Endpoint)
    ensures |Chain(e)| >= 1 && Chain(e)[0] == Authenticate
  {
  }

  /** Only getMyOrders, createOrder, getUnassignedOrders and acceptOrder are reachable. */
  lemma ReachableHandlers(e: Endpoint)
    ensures HandlerOf(e) in {MyOrdersHandler, CreateOrderHandler, UnassignedOrdersHandler, AcceptOrderHandler}
  {
  }

  /** A request that fails authentication is answered 401 and changes nothing. */
  lemma UnauthenticatedRejected(db: Db, req: Request, verify: string -> Option<Decoded>)
    requires AuthMiddleware.Authenticate(req.authorization, verify).Err?
    ensures Serve(db, req, verify) == Served(db, Err(Unauthorized), [])
  {
  }

  /** For an authenticated caller, the chain answers 403 exactly when the endpoint's role gate
      does not list the caller's role: POST / admits customers, GET /unassigned and
      PATCH /:orderId/accept admit delivery partners, GET /my-orders admits every role. */
  lemma {:induction false} GateByRole(e: Endpoint, header: Option<string>, verify: string -> Option<Decoded>)
    requires AuthMiddleware.Authenticate(header, verify).Ok?
    ensures var c := AuthMiddleware.Authenticate(header, verify).value;
      var r := RunChain(Chain(e), header, verify, None);
      && (r.Ok? ==> r.value == c)
      && (r.Err? ==> r.failure == Forbidden)
      && (e.GetMyOrders? ==> r.Ok?)
      && (e.PostOrder? ==> (r.Ok? <==> c.role == Customer))
      && (e.GetUnassigned? || e.PatchAccept? ==> (r.Ok? <==> c.role == DeliveryPartner))
  {
    var c := AuthMiddleware.Authenticate(header, verify).value;
    var chain := Chain(e);
    assert RunChain(chain, header, verify, None) == RunChain(chain[1..], header, verify, Some(c));
    if e.GetMyOrders? {
      assert chain[1..] == [];
    } else {
      var roles := chain[1].roles;
      assert chain[1..] == [RequireRole(roles)];
      assert [RequireRole(roles)][1..] == [];
      assert RunChain([], header, verify, Some(c)) == Ok(c);
      assert RunChain([RequireRole(roles)], header, verify, Some(c)) ==
        if c.role in roles then Ok(c) else Err(Forbidden);
    }
  }

  /** A forbidden request changes nothing and emits nothing. */
  lemma ForbiddenChangesNothing(db: Db, req: Request, verify: string -> Option<Decoded>)
    requires Serve(db, req, verify).response == Err(Forbidden)
    ensures Serve(db, req, verify).db == db && Serve(db, req, verify).emitted == []
  {
    if RunChain(Chain(req.endpoint), req.authorization, verify, None).Ok? {
      var c := RunChain(Chain(req.endpoint), req.authorization, verify, None).value;
      if req.endpoint.PostOrder? {
        assert CreateStep(db, c, req.products).response != Err(Forbidden);
      }
    }
  }

  /** A customer's POST / is exactly createOrder for that customer. */
  lemma CustomerPostIsCreate(db: Db, req: Request, verify: string -> Option<Decoded>)
    requires req.endpoint.PostOrder?
    requires AuthMiddleware.Authenticate(req.authorization, verify).Ok?
    requires AuthMiddleware.Authenticate(req.authorization, verify).value.role == Customer
    ensures Serve(db, req, verify) == Lift(CreateStep(db, AuthMiddleware.Authenticate(req.authorization, verify).value, req.products))
  {
    GateByRole(req.endpoint, req.authorization, verify);
  }

  /** A delivery partner's PATCH /:orderId/accept is exactly acceptOrder for that partner. */
  lemma PartnerPatchIsAccept(db: Db, req: Request, verify: string -> Option<Decoded>)
    requires req.endpoint.PatchAccept?
    requires AuthMiddleware.Authenticate(req.authorization, verify).Ok?
    requires AuthMiddleware.Authenticate(req.authorization, verify).value.role == DeliveryPartner
    ensures Serve(db, req, verify) == Lift(AcceptStep(db, AuthMiddleware.Authenticate(req.authorization, verify).value, req.endpoint.orderId))
  {
    GateByRole(req.endpoint, req.authorization, verify);
  }
}
