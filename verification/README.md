# Order management API — a Dafny model of its core

This project models the core of a small order-management HTTP API written in
TypeScript on Fastify and Zod. Clients create, fetch, search and update orders
held in process memory. The model covers three parts:

- **The order service** (`DummyOrdersService`). The store is a sequence of
  orders in insertion order. `createOrder` appends a pending order.
  `getOrder` returns the projection of the first order with an id, or throws
  `NotFound`. `updateOrder` looks the order up (`NotFound` first), then walks
  the keys of the update object. Any key other than `status` throws
  `BadRequest` before anything is written. `status` is taken only while the
  order is still `pending`, and is silently ignored otherwise.
  `searchOrders` filters on an optional customer id and status, counts the
  matches and returns the slice `[offset, offset + limit)`. Each operation is
  a pure function from the store to its result (and the new store when it
  writes); a thrown error is a `Failure`. `getOrder` and `searchOrders` return
  no store, so they cannot change it, and a failed update returns no store
  either, so nothing it drafted is written.
- **The request schemas** declared with the order types. Each endpoint's Zod
  schema is an explicit validation function that returns the typed request
  or the list of issues. Whether a string is a UUID is the parameter
  `isUuid`.
- **The error handler** of the Fastify server and its four named errors. It
  classifies a thrown value three ways: a Zod error becomes 400 with its
  issues; an error with a truthy status code and code is answered with them;
  anything else becomes the 500 `INTERNAL_SERVER_ERROR`.

Modules: `Results` (Option/Result), `OrderTypes` (the order entity and request
shapes), `Schemas` (request validation), `Fastify` (named errors and the error
handler), `JsArrays` (JavaScript's `filter` and `slice`) and `OrdersService`
(the store and its four operations).

Details of the code the model keeps:

- The search's customer-id filter is applied only when the value is truthy
  (`service.ts:78`). An empty customer id therefore filters nothing
  (`OrdersService.EmptyCustomerFilterIgnored`).
- The update schema (`types.ts:29-31`) declares only `status`, restricted to
  `cancelled`. Zod's handling of undeclared keys is not modelled, so the
  validated request carries only `status`.
- The catch-all branch of the error handler returns a new `InternalError`
  rather than sending a reply. The framework then answers with that error's
  500 status and code, which is what the model states.

## Model

| member | source | states |
|---|---|---|
| OrderTypes.ParseStatus | exercise2/src/domain/orders/types.ts:10-15 | a wire string is read as a status exactly when it is the name of one of the enum members, and then as that member |
| OrderTypes.ExactlyFourStatuses | exercise2/src/domain/orders/types.ts:10-15 | the accepted status names are exactly `pending`, `shipped`, `delivered`, `cancelled`, and distinct members have distinct names |
| OrderTypes.StatusNameRoundTrip | exercise2/src/domain/orders/types.ts:10-15 | reading back the name of a status yields that status |
| OrderTypes.ProjectRoundTrip | exercise2/src/domain/orders/service.ts:99-106 | the response projection keeps all four fields: it is invertible, so two different orders never share a projection |
| Schemas.ValidateCreate | exercise2/src/domain/orders/types.ts:17-19 | a create body is accepted exactly when `customerId` is present, a string and a UUID; the request then carries that string; otherwise there is one issue, about `customerId` |
| Schemas.CreateRoundTrip | exercise2/src/domain/orders/types.ts:17-19 | a create request with a UUID customer id, written out as a body, validates back to itself |
| Schemas.ValidateOrderParams | exercise2/src/domain/orders/types.ts:35-37 | the get/update path parameters are accepted exactly when `orderId` is a UUID string, which the request then carries; otherwise one issue about `orderId` |
| Schemas.ValidateUpdate | exercise2/src/domain/orders/types.ts:29-31 | an update body is accepted exactly when `status` is the string `cancelled`, and the request then asks for `Cancelled`; otherwise one issue about `status` |
| Schemas.OnlyCancelAccepted | exercise2/src/domain/orders/types.ts:29-31 | of the four status names, only `cancelled` is accepted in an update body |
| Schemas.ValidateSearch | exercise2/src/domain/orders/types.ts:54-59 | a query is accepted exactly when the optional customer id is a UUID, the optional status is an enum name, offset is an integer >= 0 and limit an integer >= 1 (each when present); absent offset/limit become 0/10 and present values are kept; a rejected query has a non-empty issue list naming only the four fields |
| Schemas.SearchIssuesNameViolations | exercise2/src/domain/orders/types.ts:54-59 | a rejected query's issue list names a field if and only if that field breaks its constraint: all violations are reported together |
| Schemas.EmptySearchDefaults | exercise2/src/domain/orders/types.ts:57-58 | an empty query validates to no filters, offset 0 and limit 10 |
| Schemas.SearchRoundTrip | exercise2/src/domain/orders/types.ts:54-59 | every search request that meets the schema (offset >= 0, limit >= 1, UUID customer id), written out as a query, validates back to itself |
| Fastify.HandleError | exercise2/src/lib/fastify.ts:36-55 | a Zod error is answered 400 `BAD_REQUEST` with its issues; otherwise an error with a truthy status and code is answered with that status, code and message and without issues; anything else gets 500 `INTERNAL_SERVER_ERROR`; issues appear only for Zod errors |
| Fastify.Raise | exercise2/src/lib/fastify.ts:136-150 | an instance of a named error is not a validation error, carries a truthy status and code (so the handler's second branch answers it), and has the error's fixed message |
| Fastify.ValidationCheckedFirst | exercise2/src/lib/fastify.ts:37-44 | a Zod error is answered as the bad-request error with its issues even when it carries a status and a code of its own |
| Fastify.UnknownErrorIsInternal | exercise2/src/lib/fastify.ts:46-54 | an error lacking a status or a code, or whose status is 0 or code is empty, gets the internal error's 500 status and code |
| Fastify.RaisedErrorReply | exercise2/src/lib/fastify.ts:136-150 | each named error is answered with its own status, code and message and no issues: 401 `UNAUTHORIZED`, 404 `NOT_FOUND`, 400 `BAD_REQUEST`, 500 `INTERNAL_SERVER_ERROR` |
| Fastify.NamedErrorsDistinct | exercise2/src/lib/fastify.ts:136-150 | the four named errors have pairwise different codes and statuses, all in the 4xx–5xx range |
| Fastify.ReplyStatusIsNamed | exercise2/src/lib/fastify.ts:36-55 | a Zod error, a named error or an error without status/code is answered with the status and code of one of the four named errors |
| JsArrays.Filter | exercise2/src/domain/orders/service.ts:77-85 | the filtered array is no longer than the input, every element passes the predicate, and an element is in the result exactly when it is in the input and passes |
| JsArrays.FilterAppend | exercise2/src/domain/orders/service.ts:77-85 | filtering a concatenation is the concatenation of the filtered parts, so kept elements stay in input order |
| JsArrays.FilterCount | exercise2/src/domain/orders/service.ts:87 | the length of the filtered array is the number of input positions whose element passes |
| JsArrays.Slice | exercise2/src/domain/orders/service.ts:88 | `slice` never returns more elements than the array has, and every element it returns comes from the array; which elements it returns is stated by `JsArrays.SliceWindow` |
| JsArrays.SliceWindow | exercise2/src/domain/orders/service.ts:88 | for offset, limit >= 0, `slice(offset, offset + limit)` has `min(limit, max(0, n - offset))` elements, the k-th being element `offset + k` |
| JsArrays.SliceFromEnd | exercise2/src/domain/orders/service.ts:88 | a negative start counts from the end of the array |
| OrdersService.FindIndex | exercise2/src/domain/orders/service.ts:46-50 | the lookup is absent exactly when no stored order has the id, and otherwise is the position of the first order with the id |
| OrdersService.CreateOrder | exercise2/src/domain/orders/service.ts:21-32 | the store grows by exactly one order at the end, all earlier orders stay, and the new order has the generated id, the given customer, the given time and status pending; the reply is the new id |
| OrdersService.CreateKeepsIdsUnique | exercise2/src/domain/orders/service.ts:24-31 | with an id not already stored, creating keeps all stored ids distinct |
| OrdersService.GetOrder | exercise2/src/domain/orders/service.ts:34-40 | fails exactly when no order has the id, and then with `NotFound`; otherwise returns the projection of the first order with the id |
| OrdersService.GetStored | exercise2/src/domain/orders/service.ts:34-40 | in a store with unique ids, every stored order is returned by looking up its own id |
| OrdersService.GetAfterCreate | exercise2/src/domain/orders/service.ts:21-40 | after creating with a fresh id, getting the returned id yields that id, the given customer, status pending and the creation time |
| OrdersService.WalkKeys | exercise2/src/domain/orders/service.ts:56-67 | walking the update keys fails exactly when some key is not `status`, and then with `BadRequest`; otherwise the draft takes the last requested status if the original order is pending and is otherwise unchanged |
| OrdersService.UpdateOrder | exercise2/src/domain/orders/service.ts:42-72 | `NotFound` exactly when no order has the id, whatever the update; `BadRequest` exactly when the order exists and the update has another key, with no new store; on success the store keeps its length and only the first order with the id is replaced, by itself with the status the pending rule gives, whose projection is returned |
| OrdersService.UpdateChangesOnlyStatus | exercise2/src/domain/orders/service.ts:52-71 | a successful update keeps the order's id, customer and creation time, the store length, and every other order |
| OrdersService.UpdateFollowsPendingRule | exercise2/src/domain/orders/service.ts:58-62 | a validated update of an existing order always succeeds; the new status is the requested one if the order was pending and the old one otherwise |
| OrdersService.NonPendingUpdateIsNoOp | exercise2/src/domain/orders/service.ts:58-62 | a successful update of an order that is no longer pending leaves the whole store unchanged and returns the order as it was |
| OrdersService.UpdateIdempotent | exercise2/src/domain/orders/service.ts:46-71 | applying the same update a second time returns the same result and the same store as the first application |
| OrdersService.UpdateKeepsIdsUnique | exercise2/src/domain/orders/service.ts:52-69 | an update keeps all stored ids distinct |
| OrdersService.LeftPendingIsFinal | exercise2/src/domain/orders/service.ts:58-62 | an order that has left `pending` is unchanged by any sequence of update calls |
| OrdersService.UpdateErrorReplies | exercise2/src/domain/orders/service.ts:46-66 | a failed update is answered 404 exactly when the id is unknown and 400 exactly when the order exists and the update has another key, in both cases without issues |
| OrdersService.Selects | exercise2/src/domain/orders/service.ts:77-85 | with no filters every order passes; an order that passes has the filter's status and, when the customer filter is a non-empty string, that customer; an order that equals every given filter passes |
| OrdersService.MatchingCount | exercise2/src/domain/orders/service.ts:77-87 | the number of matches equals the number of store positions whose order passes both filters |
| OrdersService.PageFacts | exercise2/src/domain/orders/service.ts:77-88 | every order on the page is stored and passes the filters; for offset, limit >= 0 the page is the window of the matches starting at the offset |
| OrdersService.ProjectAll | exercise2/src/domain/orders/service.ts:108-115 | each search result is the projection of the order at the same position, and gives that order back |
| OrdersService.SearchOrders | exercise2/src/domain/orders/service.ts:74-96 | offset and limit are echoed; total counts the store positions passing both filters; every returned order is stored and passes the filters; for offset, limit >= 0 there are `min(limit, max(0, total - offset))` results, the k-th being the projection of match `offset + k` in store order |
| OrdersService.EmptyCustomerFilterIgnored | exercise2/src/domain/orders/service.ts:78-80 | searching with an empty customer id gives the same answer as searching without one |
| OrdersService.SearchAfterCreate | exercise2/src/domain/orders/service.ts:21-95 | a created order that passes a search's filters raises that search's total by one, and is the last result of any page reaching the end of the matches |
| OrdersService.SearchIgnoresExcludedCreate | exercise2/src/domain/orders/service.ts:21-95 | creating an order that a search's filters exclude leaves that search's answer unchanged |

## Left out

- UUID generation and `new Date()` are the parameters `newId` and `now` of `OrdersService.CreateOrder`. The code never checks that a generated id is fresh. Lemmas that need a fresh id take it as a precondition.
- The UUID format itself is the parameter `isUuid`, not the regular expression Zod uses.
- Zod's own parsing behaviour is not modelled. This covers coercing query strings to numbers (numeric fields arrive as `Num`), bodies that are not objects, what happens to undeclared keys, and the wording and paths of issues.
- Schemas.ValidateSearch: the issue kinds are a simplified classification of Zod's issue codes. Non-finite numbers and `NaN` are not modelled.
- Fastify.HandleError: the message of the catch-all 500 reply is left unspecified (`None`). That message comes from the error library's formatting and the framework's default handler, which are not modelled.
- Fastify.HandleError: the model does not check whether the status code an error carries is a valid HTTP status. The framework's reaction to an invalid one is not modelled.
- Response serialisation is not modelled. This includes the response schemas' UUID checks on outgoing ids and `errorHandlerSchemas`.
- OrdersService.UpdateOrder: the value of a `status` key is always an `OrderStatus`. A call that bypasses the types with another value is not modelled.
- JavaScript numbers are doubles. Offsets, limits and counts are unbounded integers here.
- The seed data (one pending order, then one delivered order, with random ids and dates) is not modelled. Every lemma holds for an arbitrary starting store.
- The `async` operations have no awaits on shared state. Each one is modelled as a single atomic step, and concurrency is out of scope.
- The `Unauthorized` error is raised per request by the basic-auth gate that the server bootstrap installs. The gate is not modelled; only the error's code and status are.
- Route binding, success status codes, server creation, Swagger/OpenAPI, the health check, `runServer`, environment configuration and the test runner configuration are framework glue and are not part of this model.
