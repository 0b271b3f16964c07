/** The in-memory order service: a store of orders in insertion order and the
    create, get, update and search operations on it. Each operation is one
    atomic step: it takes the store and returns its result together with the
    new store when it writes. Id generation and the clock are parameters. */
module OrdersService {
  import opened Results
  import opened OrderTypes
  import Fastify
  import JsArrays

  /** The orders, oldest first. */
  type Store = seq<Order>

  /** No two stored orders share an id. */
  predicate UniqueIds(store: Store)
  {
    forall i, j :: 0 <= i < j < |store| ==> store[i].orderId != store[j].orderId
  }

  /** Some stored order has the id. */
  predicate Contains(store: Store, id: string)
  {
    exists i :: 0 <= i < |store| && store[i].orderId == id
  }

  /** Position `i` holds the first order with the id. */
  predicate FirstWithId(store: Store, id: string, i: int)
  {
    && 0 <= i < |store|
    && store[i].orderId == id
    && forall j :: 0 <= j < i ==> store[j].orderId != id
  }

  /** Dropping the head shifts every later position down by one. */
  lemma TailShift<T>(s: seq<T>)
    requires |s| > 0
    ensures forall j :: 1 <= j < |s| ==> s[j] == s[1..][j - 1]
  {
  }

  /** `findIndex` by id, with `None` for -1. */
  function FindIndex(store: Store, id: string): (r: Option<nat>)
    ensures r.None? <==> !Contains(store, id)
    ensures r.Some? ==> FirstWithId(store, id, r.value)
  {
    if |store| == 0 then None
    else if store[0].orderId == id then Some(0)
    else
      TailShift(store);
      match FindIndex(store[1..], id)
      case None => None
      case Some(k) => Some(k + 1)
  }

  // ---------------------------------------------------------------- create

  /** `createOrder`: appends a pending order with the generated id `newId`
      and the creation time `now`, and answers with that id. */
  function CreateOrder(store: Store, req: CreateOrderRequest, newId: string, now: Timestamp)
    : (r: (OrderCreatedResponse, Store))
    ensures r.0.orderId == newId
    ensures |r.1| == |store| + 1 && r.1[..|store|] == store
    ensures r.1[|store|].orderId == newId && r.1[|store|].customerId == req.customerId
    ensures r.1[|store|].createdAt == now && r.1[|store|].status == Pending
  {
    (OrderCreatedResponse(newId), store + [Order(newId, req.customerId, now, Pending)])
  }

  /** A fresh id keeps the ids of the store unique. */
  lemma CreateKeepsIdsUnique(store: Store, req: CreateOrderRequest, newId: string, now: Timestamp)
    requires UniqueIds(store) && !Contains(store, newId)
    ensures UniqueIds(CreateOrder(store, req, newId, now).1)
  {
    var s := CreateOrder(store, req, newId, now).1;
    forall i, j | 0 <= i < j < |s|
      ensures s[i].orderId != s[j].orderId
    {
      if j == |store| {
        assert s[i] == store[i];
      } else {
        assert s[i] == store[i] && s[j] == store[j];
      }
    }
  }

  // ---------------------------------------------------------------- get

  /** `getOrder`: the projection of the first order with the id, or
      `NotFound`. The store is only read. */
  function GetOrder(store: Store, id: string): (r: Result<OrderView, Fastify.NamedError>)
    ensures r.Failure? <==> !Contains(store, id)
    ensures r.Failure? ==> r.error == Fastify.NotFound
    ensures r.Success? ==> exists i :: FirstWithId(store, id, i) && r.value == Project(store[i])
  {
    match FindIndex(store, id)
    case None => Failure(Fastify.NotFound)
    case Some(i) => Success(Project(store[i]))
  }

  /** In a store with unique ids, every stored order is found by its id. */
  lemma GetStored(store: Store, i: int)
    requires UniqueIds(store) && 0 <= i < |store|
    ensures GetOrder(store, store[i].orderId) == Success(Project(store[i]))
  {
    var id := store[i].orderId;
    var k := FindIndex(store, id).value;
    assert store[k].orderId == store[i].orderId;
    assert k == i;
  }

  /** A created order is immediately found, pending, under the id returned. */
  lemma GetAfterCreate(store: Store, req: CreateOrderRequest, newId: string, now: Timestamp)
    requires !Contains(store, newId)
    ensures var (created, store') := CreateOrder(store, req, newId, now);
      GetOrder(store', created.orderId) == Success(OrderView(newId, req.customerId, Pending, now))
  {
    var store' := CreateOrder(store, req, newId, now).1;
    assert Contains(store', newId) by {
      assert store'[|store|].orderId == newId;
    }
    assert forall j :: 0 <= j < |store| ==> store'[j] == store[j];
    var k := FindIndex(store', newId).value;
    assert k == |store|;
  }

  // ---------------------------------------------------------------- update

  /** A property name other than `status`. */
  type ForeignKey = k: string | k != "status" witness "createdAt"

  /** One property of an update object: the `status`, or any other. */
  datatype UpdateField = StatusField(status: OrderStatus) | OtherField(key: ForeignKey)

  /** The properties of an update object, in enumeration order. */
  type Update = seq<UpdateField>

  /** The update object a validated request body is. */
  function UpdateOf(req: UpdateOrderRequest): Update
  {
    [StatusField(req.status)]
  }

  /** The update names some property other than `status`. */
  predicate HasForeignKey(keys: Update)
  {
    exists i :: 0 <= i < |keys| && keys[i].OtherField?
  }

  /** The status the update asks for: its last `status` property, if any. */
  function LastRequested(keys: Update): Option<OrderStatus>
    decreases |keys|
  {
    if |keys| == 0 then None
    else if keys[|keys| - 1].StatusField? then Some(keys[|keys| - 1].status)
    else LastRequested(keys[..|keys| - 1])
  }

  /** The last requested status, seen from the front of the update. */
  lemma {:induction false} LastRequestedFront(keys: Update)
    requires |keys| > 0
    ensures LastRequested(keys) ==
      if LastRequested(keys[1..]).Some? then LastRequested(keys[1..])
      else if keys[0].StatusField? then Some(keys[0].status)
      else None
    decreases |keys|
  {
    if |keys| > 1 && !keys[|keys| - 1].StatusField? {
      var init := keys[..|keys| - 1];
      assert init[1..] == keys[1..][..|keys[1..]| - 1];
      LastRequestedFront(init);
    }
  }

  /** The status rule: only a pending order takes the requested status. */
  function Gate(current: OrderStatus, requested: OrderStatus): OrderStatus
  {
    if current == Pending then requested else current
  }

  /** The status an order ends with after an update without foreign keys. */
  function UpdatedStatus(current: OrderStatus, keys: Update): OrderStatus
  {
    match LastRequested(keys)
    case None => current
    case Some(s) => Gate(current, s)
  }

  /** The `for (let key in update)` loop: copies requested statuses onto the
      draft while the original order is pending, and throws `BadRequest` at
      the first other property. */
  function WalkKeys(original: Order, draft: Order, keys: Update): (r: Result<Order, Fastify.NamedError>)
    ensures r.Failure? <==> HasForeignKey(keys)
    ensures r.Failure? ==> r.error == Fastify.BadRequest
    ensures r.Success? && original.status == Pending && LastRequested(keys).Some? ==>
      r.value == draft.(status := LastRequested(keys).value)
    ensures r.Success? && !(original.status == Pending && LastRequested(keys).Some?) ==>
      r.value == draft
    decreases |keys|
  {
    if |keys| == 0 then Success(draft)
    else
      LastRequestedFront(keys);
      TailShift(keys);
      match keys[0]
      case OtherField(_) => Failure(Fastify.BadRequest)
      case StatusField(s) =>
        WalkKeys(original, if original.status == Pending then draft.(status := s) else draft, keys[1..])
  }

  /** `updateOrder`: `NotFound` for an unknown id whatever the update holds;
      `BadRequest` for an update with a property other than `status`, with
      the store left as it was; otherwise the first order with the id gets the
      status the pending rule allows and is returned. */
  function UpdateOrder(store: Store, id: string, keys: Update)
    : (r: Result<(OrderView, Store), Fastify.NamedError>)
    ensures r.Failure? ==> r.error == Fastify.NotFound || r.error == Fastify.BadRequest
    ensures r == Failure(Fastify.NotFound) <==> !Contains(store, id)
    ensures r == Failure(Fastify.BadRequest) <==> Contains(store, id) && HasForeignKey(keys)
    ensures r.Success? ==> |r.value.1| == |store|
    ensures r.Success? ==> forall i :: FirstWithId(store, id, i) ==>
      && r.value.1 == store[i := store[i].(status := UpdatedStatus(store[i].status, keys))]
      && r.value.0 == Project(r.value.1[i])
  {
    match FindIndex(store, id)
    case None => Failure(Fastify.NotFound)
    case Some(i) =>
      match WalkKeys(store[i], store[i], keys)
      case Failure(e) => Failure(e)
      case Success(updated) => Success((Project(updated), store[i := updated]))
  }

  /** A successful update changes nothing but the status of the one order
      found: ids, customers and creation times stay, and so do all other
      orders. */
  lemma UpdateChangesOnlyStatus(store: Store, id: string, keys: Update, i: int)
    requires FirstWithId(store, id, i)
    requires UpdateOrder(store, id, keys).Success?
    ensures var store' := UpdateOrder(store, id, keys).value.1;
      && |store'| == |store|
      && store'[i].orderId == id
      && store'[i].customerId == store[i].customerId
      && store'[i].createdAt == store[i].createdAt
      && (forall j :: 0 <= j < |store| && j != i ==> store'[j] == store[j])
  {
  }

  /** With a validated body the new status is `cancelled` for a pending
      order and the old status otherwise; no error is raised for a
      non-pending order. */
  lemma UpdateFollowsPendingRule(store: Store, id: string, req: UpdateOrderRequest, i: int)
    requires FirstWithId(store, id, i)
    ensures UpdateOrder(store, id, UpdateOf(req)).Success?
    ensures var (view, store') := UpdateOrder(store, id, UpdateOf(req)).value;
      && view.status == (if store[i].status == Pending then req.status else store[i].status)
      && store'[i].status == view.status
  {
    assert UpdateOf(req)[..0] == [];
    assert !HasForeignKey(UpdateOf(req));
  }

  /** Updating an order that is no longer pending leaves the store as it was. */
  lemma NonPendingUpdateIsNoOp(store: Store, id: string, keys: Update, i: int)
    requires FirstWithId(store, id, i) && store[i].status != Pending
    requires UpdateOrder(store, id, keys).Success?
    ensures UpdateOrder(store, id, keys).value.1 == store
    ensures UpdateOrder(store, id, keys).value.0 == Project(store[i])
  {
    var store' := UpdateOrder(store, id, keys).value.1;
    assert store' == store[i := store[i]];
  }

  /** Stores with the same ids at the same positions find an id at the same place. */
  lemma {:induction false} FindIndexDependsOnIdsOnly(a: Store, b: Store, id: string)
    requires |a| == |b|
    requires forall j :: 0 <= j < |a| ==> a[j].orderId == b[j].orderId
    ensures FindIndex(a, id) == FindIndex(b, id)
    decreases |a|
  {
    if |a| > 0 && a[0].orderId != id {
      FindIndexDependsOnIdsOnly(a[1..], b[1..], id);
    }
  }

  /** Applying the same update twice gives the same result as applying it once. */
  lemma UpdateIdempotent(store: Store, id: string, keys: Update)
    requires UpdateOrder(store, id, keys).Success?
    ensures var store' := UpdateOrder(store, id, keys).value.1;
      UpdateOrder(store', id, keys) == UpdateOrder(store, id, keys)
  {
    var (view, store') := UpdateOrder(store, id, keys).value;
    var i := FindIndex(store, id).value;
    FindIndexDependsOnIdsOnly(store, store', id);
    var once := UpdatedStatus(store[i].status, keys);
    assert UpdatedStatus(once, keys) == once;
    assert store'[i := store'[i].(status := UpdatedStatus(store'[i].status, keys))] == store';
  }

  /** An update keeps the ids of the store unique. */
  lemma UpdateKeepsIdsUnique(store: Store, id: string, keys: Update)
    requires UniqueIds(store)
    requires UpdateOrder(store, id, keys).Success?
    ensures UniqueIds(UpdateOrder(store, id, keys).value.1)
  {
    var store' := UpdateOrder(store, id, keys).value.1;
    assert forall j :: 0 <= j < |store| ==> store'[j].orderId == store[j].orderId;
  }

  /** A sequence of service calls, one update each; failed calls write nothing. */
  function ApplyUpdates(store: Store, calls: seq<(string, Update)>): (r: Store)
    ensures |r| == |store|
    ensures forall j :: 0 <= j < |store| ==> r[j].orderId == store[j].orderId
    decreases |calls|
  {
    if |calls| == 0 then store
    else
      var next := match UpdateOrder(store, calls[0].0, calls[0].1)
        case Success((_, s)) => s
        case Failure(_) => store;
      ApplyUpdates(next, calls[1..])
  }

  /** The status gate is one-way: once an order has left `pending`, no
      sequence of updates changes it at all. */
  lemma {:induction false} LeftPendingIsFinal(store: Store, calls: seq<(string, Update)>, i: int)
    requires 0 <= i < |store| && store[i].status != Pending
    ensures ApplyUpdates(store, calls)[i] == store[i]
    decreases |calls|
  {
    if |calls| > 0 {
      var (id, keys) := calls[0];
      var r := UpdateOrder(store, id, keys);
      var next := if r.Success? then r.value.1 else store;
      if r.Success? {
        var k := FindIndex(store, id).value;
        if k == i {
          NonPendingUpdateIsNoOp(store, id, keys, i);
        }
        assert next[i] == store[i];
      }
      LeftPendingIsFinal(next, calls[1..], i);
    }
  }

  /** The service's errors reach the caller as 404 and 400 replies. */
  lemma UpdateErrorReplies(store: Store, id: string, keys: Update)
    requires UpdateOrder(store, id, keys).Failure?
    ensures var reply := Fastify.HandleError(Fastify.Raise(UpdateOrder(store, id, keys).error));
      && (reply.statusCode == 404 <==> !Contains(store, id))
      && (reply.statusCode == 400 <==> Contains(store, id) && HasForeignKey(keys))
      && reply.issues.None?
  {
    Fastify.RaisedErrorReply(UpdateOrder(store, id, keys).error);
  }

  // ---------------------------------------------------------------- search

  /** The search filter: a truthy `customerId` must match exactly and a
      `status` must match; an empty `customerId` filters nothing. */
  function Selects(req: SearchOrderRequest, customerId: string, status: OrderStatus): (b: bool)
    ensures req.customerId.None? && req.status.None? ==> b
    ensures b && req.customerId.Some? && req.customerId.value != "" ==> customerId == req.customerId.value
    ensures b && req.status.Some? ==> status == req.status.value
    ensures ((req.customerId.None? || customerId == req.customerId.value)
             && (req.status.None? || status == req.status.value)) ==> b
  {
    && (req.customerId.None? || req.customerId.value == "" || customerId == req.customerId.value)
    && (req.status.None? || status == req.status.value)
  }

  function Matcher(req: SearchOrderRequest): Order -> bool
  {
    (o: Order) => Selects(req, o.customerId, o.status)
  }

  /** The orders that pass the filter, in store order. */
  function Matching(store: Store, req: SearchOrderRequest): seq<Order>
  {
    JsArrays.Filter(store, Matcher(req))
  }

  /** The number of matches counts the positions of the store whose order
      passes the filter. */
  lemma MatchingCount(store: Store, req: SearchOrderRequest)
    ensures |Matching(store, req)| == |set i: nat | i < |store| && Selects(req, store[i].customerId, store[i].status)|
  {
    JsArrays.FilterCount(store, Matcher(req));
    assert JsArrays.KeptIndices(store, Matcher(req))
        == set i: nat | i < |store| && Selects(req, store[i].customerId, store[i].status);
  }

  /** The slice of the matches a search returns. */
  function Page(store: Store, req: SearchOrderRequest): seq<Order>
  {
    JsArrays.Slice(Matching(store, req), req.offset, req.offset + req.limit)
  }

  /** The page holds stored orders that pass the filter; with a non-negative
      offset and limit it is the window of the matches at that offset. */
  lemma PageFacts(store: Store, req: SearchOrderRequest)
    ensures forall x | x in Page(store, req) :: x in store && Selects(req, x.customerId, x.status)
    ensures req.offset >= 0 && req.limit >= 0 ==>
      |Page(store, req)| == JsArrays.Min(req.limit, JsArrays.Max(0, |Matching(store, req)| - req.offset))
    ensures req.offset >= 0 && req.limit >= 0 ==>
      forall k :: 0 <= k < |Page(store, req)| ==> Page(store, req)[k] == Matching(store, req)[req.offset + k]
  {
    var results := Matching(store, req);
    forall x | x in Page(store, req)
      ensures x in store && Selects(req, x.customerId, x.status)
    {
      assert x in results;
      assert Matcher(req)(x);
    }
    if req.offset >= 0 && req.limit >= 0 {
      JsArrays.SliceWindow(results, req.offset, req.limit);
    }
  }

  /** The response shape of each order of a page. */
  function ProjectAll(page: seq<Order>): (views: seq<OrderView>)
    ensures |views| == |page|
    ensures forall k :: 0 <= k < |page| ==> views[k] == Project(page[k]) && Unproject(views[k]) == page[k]
  {
    seq(|page|, k requires 0 <= k < |page| => Project(page[k]))
  }

  /** `searchOrders`: filters, counts the matches, and returns the page
      `[offset, offset + limit)` of them, echoing offset and limit. */
  function SearchOrders(store: Store, req: SearchOrderRequest): (r: SearchOrderResults)
    ensures r.offset == req.offset && r.limit == req.limit
    ensures r.total == |Matching(store, req)|
    ensures r.total == |set i: nat | i < |store| && Selects(req, store[i].customerId, store[i].status)|
    ensures forall k :: 0 <= k < |r.data| ==> Selects(req, r.data[k].customerId, r.data[k].status)
    ensures forall k :: 0 <= k < |r.data| ==> Unproject(r.data[k]) in store
    ensures req.offset >= 0 && req.limit >= 0 ==>
      |r.data| == JsArrays.Min(req.limit, JsArrays.Max(0, r.total - req.offset))
    ensures req.offset >= 0 && req.limit >= 0 ==>
      forall k :: 0 <= k < |r.data| ==> r.data[k] == Project(Matching(store, req)[req.offset + k])
  {
    var page := Page(store, req);
    MatchingCount(store, req);
    PageFacts(store, req);
    SearchOrderResults(ProjectAll(page), |Matching(store, req)|, req.offset, req.limit)
  }

  /** An empty `customerId` filter is no filter (it is falsy). */
  lemma EmptyCustomerFilterIgnored(store: Store, req: SearchOrderRequest)
    ensures SearchOrders(store, req.(customerId := Some(""))) == SearchOrders(store, req.(customerId := None))
  {
    JsArrays.FilterCongruent(store, Matcher(req.(customerId := Some(""))), Matcher(req.(customerId := None)));
  }

  /** A created order is counted by every search it passes, and is the last
      result of a page that reaches the end of the matches. */
  lemma SearchAfterCreate(store: Store, req: CreateOrderRequest, newId: string, now: Timestamp,
                          search: SearchOrderRequest)
    requires Selects(search, req.customerId, Pending)
    ensures var store' := CreateOrder(store, req, newId, now).1;
      var before := SearchOrders(store, search);
      var after := SearchOrders(store', search);
      && after.total == before.total + 1
      && (0 <= search.offset <= before.total && search.limit > before.total - search.offset ==>
            after.data[|after.data| - 1] == OrderView(newId, req.customerId, Pending, now))
  {
    var o := Order(newId, req.customerId, now, Pending);
    var store' := CreateOrder(store, req, newId, now).1;
    assert store' == store + [o];
    JsArrays.FilterAppend(store, [o], Matcher(search));
    assert JsArrays.Filter([o], Matcher(search)) == [o] + JsArrays.Filter([], Matcher(search));
    assert Matching(store', search) == Matching(store, search) + [o];
  }

  /** A search whose filters exclude a created order does not see it. */
  lemma SearchIgnoresExcludedCreate(store: Store, req: CreateOrderRequest, newId: string, now: Timestamp,
                                    search: SearchOrderRequest)
    requires !Selects(search, req.customerId, Pending)
    ensures SearchOrders(CreateOrder(store, req, newId, now).1, search) == SearchOrders(store, search)
  {
    var o := Order(newId, req.customerId, now, Pending);
    var store' := CreateOrder(store, req, newId, now).1;
    assert store' == store + [o];
    JsArrays.FilterAppend(store, [o], Matcher(search));
    assert JsArrays.Filter([o], Matcher(search)) == [] + JsArrays.Filter([], Matcher(search));
    assert Matching(store', search) == Matching(store, search);
  }
}
