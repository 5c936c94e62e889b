# Quick-commerce order lifecycle in Dafny

This project models the order lifecycle of a quick-commerce app. Customers place orders from a cart. Delivery partners claim pending orders and report progress. An admin watches everything. The model covers:

- the Express/MongoDB server: the order schema, the order controller, the authentication and role middleware, the `/orders` router, product seeding and the admin snapshot;
- the React dashboards: the list and cart updates they make from HTTP replies and socket.io messages.

Layout, one module per source file:

| file | module | models |
|---|---|---|
| wrappers.dfy | Wrappers | Option, Result and the HTTP failures (400, 401, 403, 404, 500) |
| order_model.dfy | OrderModel | server/models/order.js, plus the Product and User records |
| messages.dfy | Messages | the `io.emit` messages and their JSON payloads |
| database.dfy | Database | the collections as a `Db` snapshot; `Order.find` with and without `sort({createdAt: -1})`; the `Store` class holding the collections |
| auth_middleware.dfy | AuthMiddleware | server/middleware/authMiddleware.js |
| order_spec.dfy | OrderSpec | reference semantics of the order controller's writes, each `save`/`findOneAndUpdate` one atomic step, and traces of steps |
| order_controller.dfy | OrderController | server/controllers/orderController.js: the writes as methods on `Store`, the queries as functions |
| order_routes.dfy | OrderRoutes | server/routes/orders.js: middleware chains, handlers, a request served end to end |
| product_controller.dfy | ProductController | server/controllers/productController.js |
| admin_controller.dfy | AdminController | server/controllers/adminController.js |
| client_lists.dfy | ClientLists | the `map`/`filter` updates the dashboards share |
| customer_dashboard.dfy | CustomerDashboard | client/src/pages/customerDashboard.jsx |
| delivery_dashboard.dfy | DeliveryDashboard | client/src/pages/DeliveryDashboard.jsx |
| admin_dashboard.dfy | AdminDashboard | client/src/pages/AdminDashboard.jsx |

Modelling choices:

- **Ids and time.** ObjectIds and timestamps come from one counter, `clock`. An order's id is its `createdAt`. So "sorted by createdAt, newest first" is "sorted by id, descending". A find without a sort is modelled in insertion order, which is ascending id; MongoDB itself leaves that order unspecified (see Left out).
- **Money.** Prices are integer cents: Fresh Apples 250, Whole Milk 300, Sourdough Bread 450.
- **NaN totals.** A missing item quantity makes `product.price * item.quantity` NaN. The pricing loop carries that as `None`. Mongoose refuses to cast NaN to the required `totalPrice`, so `save` throws and the client gets 500 with nothing stored. One consequence: the schema's default quantity of 1 (`OrderModel.NewItem`) never applies on this path.
- **Events.** Each emit is appended to a ghost log, `Store.events`.
- **Store invariant.** `Database.Inv` says records sit under their own id and ids and timestamps are issued by the clock. It also says an order has a delivery partner exactly when it is no longer pending. Every write path keeps it.

Behaviour of the order lifecycle worth knowing:

- There is no transition table. `updateOrderStatus` only checks that the new status is one of `picked_up`, `on_the_way`, `delivered` and that the caller is the assignee. So `delivered` can go back to `picked_up`, and the same status can be set twice.
- A lost claim answers 404 ("not found or already accepted"); there is no separate conflict outcome.
- Every emit is a global `io.emit`; no message goes to a per-order room.
- Nothing ever sets `cancelled`.

## Model

| member | source | states |
|---|---|---|
| OrderModel.ParseStatus | server/models/order.js:22-26 | a string names an enum member exactly when it is that member's spelling; the six statuses are the only values |
| OrderModel.NewItem | server/models/order.js:12-21 | an item's quantity defaults to 1 when absent, else is the given quantity |
| OrderModel.NewOrder | server/models/order.js:3-31 | a new document has status `pending` and no delivery partner, so it satisfies partner-iff-pending; customer and totalPrice are required arguments |
| OrderModel.WithoutPassword | server/controllers/adminController.js:11 | a user selected with `-password` keeps id, username, email and role and has no password field |
| Database.Select | server/controllers/orderController.js:80 | `Order.find(q)` returns no more entries than ids issued by the clock, and only stored orders that match q (each once: see SelectSorted) |
| Database.Listing | server/controllers/productController.js:13 | `Product.find({})` returns no more entries than ids issued, and only products of the catalog |
| Database.SelectSound | server/controllers/orderController.js:13 | everything `Order.find(q)` returns is a stored order that matches q |
| Database.SelectComplete | server/controllers/orderController.js:15 | every stored order that matches q is returned |
| Database.SelectSorted | server/controllers/orderController.js:195-198 | with `sort({createdAt: -1})` the result is strictly newest first; without it, in ascending id, the order the model gives an unsorted find |
| Database.SelectSpec | server/controllers/orderController.js:195-198 | over a valid store, find returns exactly the matching orders, each once, in the stated order |
| Database.ListingSpec | server/controllers/productController.js:13 | `Product.find({})` lists exactly the catalog's products, each once, in strictly increasing id |
| AuthMiddleware.Split | server/middleware/authMiddleware.js:11 | `split(" ")` yields at least one piece and no piece contains the separator |
| AuthMiddleware.JoinSplit | server/middleware/authMiddleware.js:11 | the modelled `split(" ")` is undone by `join(" ")`: no character is lost or invented |
| AuthMiddleware.BearerToken | server/middleware/authMiddleware.js:11 | the token is the second space-separated piece of the header: the text after "Bearer " up to the next space |
| AuthMiddleware.BearerTokenExample | server/middleware/authMiddleware.js:11 | "Bearer abc" yields the token "abc" |
| AuthMiddleware.Authenticate | server/middleware/authMiddleware.js:3-20 | 401 for a missing header, a header not starting with "Bearer ", or a token verify rejects; otherwise next() runs and userData is exactly {userId, role} of the decoded token |
| AuthMiddleware.RoleGate | server/middleware/authMiddleware.js:22-29 | next() runs exactly when the caller's role is in the list; otherwise 403 |
| OrderSpec.Price | server/controllers/orderController.js:36-48 | the pricing loop either stops at an item whose product is not in the catalog or yields one detail per item |
| OrderSpec.PriceMissing | server/controllers/orderController.js:40-45 | pricing stops exactly when some product id is not in the catalog, and reports the first such id even after valid items |
| OrderSpec.PricePriced | server/controllers/orderController.js:36-48 | when all products resolve, the details are the items in request order with their quantities; the total is NaN exactly when a quantity is missing, else the sum of price × quantity |
| OrderSpec.MissingPropagates | server/controllers/orderController.js:42-45 | once the loop stops at an unknown product, the remaining items cannot change the outcome |
| OrderSpec.CreateStep | server/controllers/orderController.js:27-71 | 400 exactly for a missing or empty product list; the only errors are 400, 404 and 500; every error leaves the store unchanged with no event; success inserts one pending order with no partner, customer = caller, a fresh id, and then emits new_order carrying that order |
| OrderSpec.CreatePricing | server/controllers/orderController.js:36-57 | 404 exactly when some product is unknown, with nothing saved; success stores totalPrice = Σ price × quantity and the items in request order |
| OrderSpec.AcceptStep | server/controllers/orderController.js:89-110 | succeeds exactly when the order exists and is pending; then it sets only deliveryPartner = caller, status = accepted and updatedAt, and emits order_status_update then {orderId}; otherwise 404, no change, no event |
| OrderSpec.UpdateStep | server/controllers/orderController.js:117-142 | 400 exactly for a status outside {picked_up, on_the_way, delivered}; success exactly when the caller is the order's partner, whatever the current status; only status and updatedAt change; otherwise (unknown id or another partner's order) 404, with no change and no event |
| OrderSpec.StepPreservesInv | server/controllers/orderController.js:50-131 | every write path keeps the store invariant, including "deliveryPartner is null iff status is pending" |
| OrderSpec.NeverPendingAgain | server/controllers/orderController.js:94-131 | no write returns an order that has left pending to pending |
| OrderSpec.AcceptNeverAgain | server/controllers/orderController.js:94-102 | once an order has left pending, every later accept of it answers 404 |
| OrderSpec.AtMostOneAccept | server/controllers/orderController.js:94-102 | of any two accepts of the same order in a sequence of writes, at most one succeeds |
| OrderSpec.FirstAcceptWins | server/controllers/orderController.js:94-102 | in any sequence of writes, the first accept of a pending order succeeds and records its caller as the partner: no create or status update in between can take the order out of pending |
| OrderSpec.ExactlyOneAccept | server/controllers/orderController.js:94-102 | exactly one claim per pending order: the first accept wins and every later accept of it in the run fails |
| OrderSpec.TwoPartnersRace | server/controllers/orderController.js:94-102 | two partners claiming a pending order in turn: the first wins and is recorded as partner, the second gets 404 |
| OrderController.PriceCart | server/controllers/orderController.js:36-48 | the loop computes exactly the pricing of the whole cart, stopping at the first unknown product |
| OrderController.CreateOrder | server/controllers/orderController.js:27-71 | the store, response and event log after the call are those of CreateStep; the invariant is kept |
| OrderController.AcceptOrder | server/controllers/orderController.js:89-115 | a single conditional update whose outcome is AcceptStep; the invariant is kept |
| OrderController.UpdateOrderStatus | server/controllers/orderController.js:117-147 | a single conditional update keyed on the assignee whose outcome is UpdateStep; the invariant is kept |
| OrderController.GetMyOrders | server/controllers/orderController.js:7-25 | filters by customer for customers and by partner for delivery partners (the queries of getCustomerOrders and getDeliveryPartnerOrders); [] for any other role |
| OrderController.GetCustomerOrders | server/controllers/orderController.js:149-160 | every returned order belongs to the caller as customer, and every such stored order is returned |
| OrderController.GetDeliveryPartnerOrders | server/controllers/orderController.js:162-173 | every returned order is assigned to the caller, and every such stored order is returned |
| OrderController.GetUnassignedOrders | server/controllers/orderController.js:78-87 | every returned order is pending, and every stored pending order is returned |
| OrderController.GetAllOrders | server/controllers/orderController.js:193-203 | every returned order is stored, and every stored order is returned |
| OrderController.GetOrderById | server/controllers/orderController.js:175-191 | the stored order for a known id, 404 otherwise |
| OrderController.MyOrdersSpec | server/controllers/orderController.js:12-18 | my-orders is exactly the caller's orders as customer or as assigned partner, each once, newest first |
| OrderController.UnassignedSpec | server/controllers/orderController.js:78-87 | the unassigned list is exactly the pending orders, which are exactly the orders with no partner; the model lists them in ascending id |
| OrderController.AllOrdersSpec | server/controllers/orderController.js:193-203 | getAllOrders returns every order once, newest first |
| OrderRoutes.Chain | server/routes/orders.js:7-10 | every chain starts with authMiddleware; GET /my-orders has nothing else, every other route exactly one role gate |
| OrderRoutes.HandlerOf | server/routes/orders.js:7-10 | each endpoint dispatches to getMyOrders, createOrder, getUnassignedOrders or acceptOrder |
| OrderRoutes.RunChain | server/middleware/authMiddleware.js:3-29 | the middleware either answers 401, 403 or (a gate before authentication) 500, or hands on claims; a chain that starts with authMiddleware passes only when the token is accepted |
| OrderRoutes.Serve | server/routes/orders.js:7-10 | a request gets an answer other than an error only after authentication succeeds, and every error answer leaves the collections and the event log untouched |
| OrderRoutes.AuthenticatesFirst | server/routes/orders.js:7-10 | every route runs authentication before anything else |
| OrderRoutes.ReachableHandlers | server/routes/orders.js:2-10 | only getMyOrders, createOrder, getUnassignedOrders and acceptOrder are routed; updateOrderStatus, getOrderById, getAllOrders, getCustomerOrders and getDeliveryPartnerOrders are not |
| OrderRoutes.UnauthenticatedRejected | server/routes/orders.js:7-10 | a request that fails authentication gets 401 on every route, with no change and no event |
| OrderRoutes.GateByRole | server/routes/orders.js:7-10 | an authenticated caller passes the chain of POST / exactly as customer, of GET /unassigned and PATCH /:orderId/accept exactly as delivery partner, of GET /my-orders always; a refusal is 403 |
| OrderRoutes.ForbiddenChangesNothing | server/middleware/authMiddleware.js:22-29 | a 403 answer changes no collection and emits nothing |
| OrderRoutes.CustomerPostIsCreate | server/routes/orders.js:8 | a customer's POST / is exactly createOrder for that customer |
| OrderRoutes.PartnerPatchIsAccept | server/routes/orders.js:10 | a delivery partner's PATCH /:orderId/accept is exactly acceptOrder for that partner and id |
| ProductController.Seeded | server/controllers/productController.js:5-12 | an empty catalog gets exactly Fresh Apples 250, Whole Milk 300 and Sourdough Bread 450 under fresh ids; a non-empty catalog is left unchanged |
| ProductController.SeededIdempotent | server/controllers/productController.js:5-12 | after seeding the catalog is non-empty, so a second call inserts nothing |
| ProductController.ListingAfterSeeding | server/controllers/productController.js:13-14 | the listing is the whole catalog after seeding and is never empty |
| ProductController.GetProducts | server/controllers/productController.js:3-19 | the store after the call is the seeded one and the reply lists it; no event is emitted |
| AdminController.DeliveryPartners | server/controllers/adminController.js:11 | the returned users are exactly the users with role delivery_partner, stripped of the password |
| AdminController.GetSystemStats | server/controllers/adminController.js:4-16 | only admins may call it (server/routes/admin.js:6); a function of the snapshot, so it changes nothing; the partners are DeliveryPartners(users) |
| AdminController.StatsOrders | server/controllers/adminController.js:6-9 | the snapshot lists every order once, newest first |
| ClientLists.ReplaceById | client/src/pages/customerDashboard.jsx:43-48 | order_status_update replaces exactly the entries whose _id matches and keeps the length and every other entry |
| ClientLists.ReplaceKeepsIds | client/src/pages/AdminDashboard.jsx:19-23 | replacing keeps every position's id; an update for an unlisted id is dropped, not inserted |
| ClientLists.ReplaceIdempotent | client/src/pages/AdminDashboard.jsx:19-23 | receiving the same update twice has the effect of receiving it once |
| ClientLists.Without | client/src/pages/DeliveryDashboard.jsx:56 | the filter keeps exactly the entries whose _id differs from the given value; an undefined value is never equal |
| ClientLists.WithoutConcat | client/src/pages/DeliveryDashboard.jsx:56 | filtering keeps relative order: it distributes over concatenation |
| ClientLists.WithoutAbsent | client/src/pages/DeliveryDashboard.jsx:42 | filtering out an id nobody has, or undefined, changes nothing |
| CustomerDashboard.Increment | client/src/pages/customerDashboard.jsx:60-62 | the map raises by one the quantity of the entries for that product and leaves the others as they were |
| CustomerDashboard.AddToCart | client/src/pages/customerDashboard.jsx:57-66 | a product already in the cart has its entry incremented and the length is unchanged; a new product is appended as {productId, name, quantity: 1} |
| CustomerDashboard.AddKeepsDistinct | client/src/pages/customerDashboard.jsx:57-66 | the cart's product ids stay pairwise distinct |
| CustomerDashboard.IncrementTotal | client/src/pages/customerDashboard.jsx:60-62 | incrementing a product that occurs once raises the total quantity by exactly one |
| CustomerDashboard.AddRaisesTotal | client/src/pages/customerDashboard.jsx:57-66 | every add raises the cart's total quantity by exactly one |
| CustomerDashboard.OrderPayload | client/src/pages/customerDashboard.jsx:71 | the payload is the cart projected to {productId, quantity}, in cart order |
| CustomerDashboard.PayloadIsPriceable | client/src/pages/customerDashboard.jsx:71-72 | a payload from a non-empty cart is never refused as empty and never prices to NaN: the server creates the order or answers 404 |
| CustomerDashboard.Lower | client/src/pages/customerDashboard.jsx:137 | lower-casing keeps the length and maps each ASCII capital to its small letter |
| CustomerDashboard.StatusColor | client/src/pages/customerDashboard.jsx:136-143 | the badge is one of the four styles: green exactly for "delivered", yellow exactly for "pending", red exactly for "canceled", after lower-casing; grey otherwise |
| CustomerDashboard.StatusColorIgnoresCase | client/src/pages/customerDashboard.jsx:136-143 | the badge of a status equals the badge of its lower-cased form |
| CustomerDashboard.StatusColorOfEnum | client/src/pages/customerDashboard.jsx:136-143 | delivered is green, pending yellow, and every other enum status grey, including `cancelled`, because the switch spells "canceled" |
| CustomerDashboard.Dashboard.Fetch | client/src/pages/customerDashboard.jsx:15-29 | a successful fetch replaces products and orders; a failed one keeps them and sets the error |
| CustomerDashboard.Dashboard.HandleAddToCart | client/src/pages/customerDashboard.jsx:57-66 | the cart becomes AddToCart of the old cart, stays distinct, and its total quantity rises by one |
| CustomerDashboard.Dashboard.HandlePlaceOrder | client/src/pages/customerDashboard.jsx:68-81 | an empty cart sets the error and sends nothing; otherwise the payload is sent, and on success the order is prepended, the cart emptied and the error cleared; on failure only the error changes |
| CustomerDashboard.Dashboard.OnOrderStatusUpdate | client/src/pages/customerDashboard.jsx:43-49 | the orders become ReplaceById of the old orders |
| DeliveryDashboard.AcceptedFilterAsWritten | client/src/pages/DeliveryDashboard.jsx:41-43 | the handler as written keeps the entries whose _id differs from the payload's _id |
| DeliveryDashboard.AcceptedFilterAsWrittenRemovesNothing | server/controllers/orderController.js:108 | after a successful accept the server sends {orderId}; the handler as written then removes nothing |
| DeliveryDashboard.AcceptedFilter | client/src/pages/DeliveryDashboard.jsx:41-43 | the corrected handler, reading orderId, keeps exactly the entries of other orders |
| DeliveryDashboard.AcceptedFilterRemovesClaimed | client/src/pages/DeliveryDashboard.jsx:41-43 | with the server's payload, the corrected handler removes exactly the claimed order and keeps the rest in order |
| DeliveryDashboard.Dashboard.Fetch | client/src/pages/DeliveryDashboard.jsx:16-33 | a fetch replaces both lists with the server's replies and clears the error; a failed fetch keeps them and sets the error |
| DeliveryDashboard.Dashboard.OnNewOrder | client/src/pages/DeliveryDashboard.jsx:37-39 | new_order prepends the order and leaves the rest of the list unchanged |
| DeliveryDashboard.Dashboard.OnOrderAccepted | client/src/pages/DeliveryDashboard.jsx:41-43 | the unassigned list becomes AcceptedFilter of the old list |
| DeliveryDashboard.Dashboard.HandleAcceptOrder | client/src/pages/DeliveryDashboard.jsx:52-62 | a successful accept removes every entry with that id from the unassigned list and appends the accepted order to myOrders; a failed one leaves both lists and sets the error |
| AdminDashboard.Dashboard.OnNewOrder | client/src/pages/AdminDashboard.jsx:16-18 | new_order prepends the order |
| AdminDashboard.Dashboard.OnOrderStatusUpdate | client/src/pages/AdminDashboard.jsx:19-23 | replaces matching entries in place; the length and the id at every position are preserved |
| AdminDashboard.Dashboard.Fetch | client/src/pages/AdminDashboard.jsx:32-47 | a fetch sets orders and deliveryPartners from the reply's fields; a failed fetch keeps them and sets the error |

## Left out

- Socket and server wiring (server/server.js, client/src/api/socketService.js) is not modelled. Emits are appended to a ghost log. The `join_order_room` registry and the customer dashboard's room joins (client/src/pages/customerDashboard.jsx:37-41) are socket.io's own, and no emit targets a room.
- Concurrency and interleavings are not modelled. Each `save` and each `findOneAndUpdate` is one atomic step. Race-freedom of claims is proved over sequences of steps. Delivery timing and async fan-out are not modelled.
- Floating-point prices are not modelled. Prices and totals are integer cents.
- Mongoose `populate` joins are not modelled. They only attach usernames and emails to replies and events.
- Timestamps are a single counter, so ties cannot occur. `updatedAt` advances on every write.
- The catch-all 500 paths are left out: a database outage, or an order id that is not a valid ObjectId. The NaN total refused by `save` is modelled.
- Malformed request bodies are not modelled: `products` not an array, or non-numeric quantities. Quantities are integers or absent.
- jwt.verify is the partial function parameter `verify`. A decoded token that lacks `userId` or `role` is not modelled.
- server/controllers/authController.js is not part of this model: registration and login are bcrypt and jwt calls. Users are a read-only collection here.
- client/src/context/AuthContext.jsx, client/src/App.jsx, LoginPage.jsx and RegisterPage.jsx are not part of this model. They are token storage, routing and forms.
- UI-only state is not modelled: the `loading` flags, socket handler registration and cleanup, and the style objects.
- server/routes/admin.js is carried as the precondition `caller.role == Admin` on AdminController.GetSystemStats. Its chain is the same authMiddleware and roleMiddleware pair that OrderRoutes models.
- Database.Select: a find without a sort (`Order.find({status: 'pending'})`, `Product.find({})`, `User.find`) is modelled in insertion order, which is ascending id. MongoDB does not specify natural order, so the ordering clauses of OrderController.UnassignedSpec, Database.SelectSorted (without a sort) and the order of Database.Listing describe the model, not a promise of the program. Their membership clauses hold either way.
- CustomerDashboard.Lower: lower-cases ASCII letters only. JavaScript's full Unicode case mapping is not modelled.
- DeliveryDashboard.Dashboard.OnOrderAccepted: uses the corrected filter. The as-written handler is AcceptedFilterAsWritten (see Findings).

## Findings

| source | as written | input that shows it | evidently intended | confidence | as-written member | corrected member |
|---|---|---|---|---|---|---|
| client/src/pages/DeliveryDashboard.jsx:42 | the order_accepted handler filters on `acceptedOrder._id`, but the server emits `{ orderId }` (server/controllers/orderController.js:108), which has no `_id` | partner P2 lists pending order 7; partner P1 accepts order 7; P2 receives `{ orderId: 7 }` and keeps order 7 listed | remove the claimed order from every other partner's unassigned list | high; not executed | DeliveryDashboard.AcceptedFilterAsWrittenRemovesNothing | DeliveryDashboard.AcceptedFilter |
