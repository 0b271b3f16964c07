/** The request schemas declared next to the order types: what the validator
    accepts for each endpoint, the defaults it fills in and the issues it
    reports. The UUID format test is a parameter `isUuid`. */
module Schemas {
  import opened Results
  import opened OrderTypes

  /** A raw JSON/query value, reduced to what the schemas distinguish. A
      numeric field is expected as `Num`, carrying the number it coerces to. */
  datatype Raw = Str(s: string) | Num(n: real) | Other

  /** A raw object: a JSON body, a query string or path parameters. */
  type Fields = map<string, Raw>

  /** What went wrong with one field. */
  datatype IssueKind =
    | Required          // the field is absent
    | InvalidType       // the field has the wrong JSON type
    | InvalidUuid       // a string that is not a UUID
    | InvalidEnumValue  // a value outside the allowed enum members
    | NotInteger        // a number with a fractional part
    | TooSmall(minimum: int)

  /** One entry of the issue list a validation failure carries. */
  datatype Issue = Issue(field: string, kind: IssueKind)

  /** Default `offset` of a search. */
  const DefaultOffset: int := 0
  /** Default `limit` of a search. */
  const DefaultLimit: int := 10

  predicate IsInteger(n: real)
  {
    n == n.Floor as real
  }

  /** The field is present and is a UUID string. */
  predicate UuidOk(input: Fields, key: string, isUuid: string -> bool)
  {
    key in input && input[key].Str? && isUuid(input[key].s)
  }

  /** The field is absent, or present and a UUID string. */
  predicate OptionalUuidOk(input: Fields, key: string, isUuid: string -> bool)
  {
    key !in input || UuidOk(input, key, isUuid)
  }

  /** The field is absent, or present and one of the four status names. */
  predicate OptionalStatusOk(input: Fields, key: string)
  {
    key !in input || (input[key].Str? && ParseStatus(input[key].s).Some?)
  }

  /** The field is absent, or present and an integer no smaller than `minimum`. */
  predicate OptionalIntOk(input: Fields, key: string, minimum: int)
  {
    key !in input || (input[key].Num? && IsInteger(input[key].n) && input[key].n >= minimum as real)
  }

  /** `z.string().uuid()` on one field. */
  function UuidField(input: Fields, key: string, isUuid: string -> bool): (r: Result<string, seq<Issue>>)
    ensures r.Success? <==> UuidOk(input, key, isUuid)
    ensures r.Failure? ==> |r.error| > 0 && forall i :: 0 <= i < |r.error| ==> r.error[i].field == key
  {
    if key !in input then Failure([Issue(key, Required)])
    else match input[key]
      case Str(s) => if isUuid(s) then Success(s) else Failure([Issue(key, InvalidUuid)])
      case _ => Failure([Issue(key, InvalidType)])
  }

  /** `z.string().uuid().optional()` on one field. */
  function OptionalUuidField(input: Fields, key: string, isUuid: string -> bool): (r: Result<Option<string>, seq<Issue>>)
    ensures r.Success? <==> OptionalUuidOk(input, key, isUuid)
    ensures r.Failure? ==> |r.error| > 0 && forall i :: 0 <= i < |r.error| ==> r.error[i].field == key
  {
    if key !in input then Success(None)
    else match UuidField(input, key, isUuid)
      case Success(s) => Success(Some(s))
      case Failure(issues) => Failure(issues)
  }

  /** `z.nativeEnum(OrderStatus).optional()` on one field. Numbers are of an
      admissible type for a native enum, so they fail as enum values. */
  function OptionalStatusField(input: Fields, key: string): (r: Result<Option<OrderStatus>, seq<Issue>>)
    ensures r.Success? <==> OptionalStatusOk(input, key)
    ensures r.Failure? ==> |r.error| > 0 && forall i :: 0 <= i < |r.error| ==> r.error[i].field == key
  {
    if key !in input then Success(None)
    else match input[key]
      case Str(s) =>
        (match ParseStatus(s)
         case Some(st) => Success(Some(st))
         case None => Failure([Issue(key, InvalidEnumValue)]))
      case Num(_) => Failure([Issue(key, InvalidEnumValue)])
      case Other => Failure([Issue(key, InvalidType)])
  }

  /** `z.coerce.number().int().min(minimum).default(default)` on one field.
      Both number checks run, so a negative fraction reports two issues. */
  function OptionalIntField(input: Fields, key: string, minimum: int, default: int): (r: Result<int, seq<Issue>>)
    ensures r.Success? <==> OptionalIntOk(input, key, minimum)
    ensures r.Failure? ==> |r.error| > 0 && forall i :: 0 <= i < |r.error| ==> r.error[i].field == key
  {
    if key !in input then Success(default)
    else match input[key]
      case Num(n) =>
        var issues := (if IsInteger(n) then [] else [Issue(key, NotInteger)])
          + (if n >= minimum as real then [] else [Issue(key, TooSmall(minimum))]);
        if issues == [] then Success(n.Floor) else Failure(issues)
      case _ => Failure([Issue(key, InvalidType)])
  }

  /** Some issue in the list is about `field`. */
  predicate Reports(issues: seq<Issue>, field: string)
  {
    exists i :: 0 <= i < |issues| && issues[i].field == field
  }

  /** An issue list reports a field exactly when one of its parts does. */
  lemma ReportsConcat(a: seq<Issue>, b: seq<Issue>, field: string)
    ensures Reports(a + b, field) <==> Reports(a, field) || Reports(b, field)
  {
    if Reports(a + b, field) {
      var i :| 0 <= i < |a + b| && (a + b)[i].field == field;
      if i >= |a| {
        assert b[i - |a|].field == field;
      }
    }
    if Reports(a, field) {
      var i :| 0 <= i < |a| && a[i].field == field;
      assert (a + b)[i].field == field;
    }
    if Reports(b, field) {
      var i :| 0 <= i < |b| && b[i].field == field;
      assert (a + b)[|a| + i].field == field;
    }
  }

  /** The issues of a failed field check name that field and no other. */
  lemma ReportsField<T>(r: Result<T, seq<Issue>>, key: string, field: string)
    requires r.Failure? ==> |r.error| > 0 && forall i :: 0 <= i < |r.error| ==> r.error[i].field == key
    ensures Reports(IssuesOf(r), field) <==> r.Failure? && field == key
  {
    if r.Failure? && field == key {
      assert r.error[0].field == field;
    }
  }

  /** The issues of a field result, empty on success. */
  function IssuesOf<T>(r: Result<T, seq<Issue>>): seq<Issue>
  {
    match r
    case Success(_) => []
    case Failure(issues) => issues
  }

  /** The create body (`createOrderRequestSchema`): a UUID `customerId`. */
  function ValidateCreate(body: Fields, isUuid: string -> bool): (r: Result<CreateOrderRequest, seq<Issue>>)
    ensures r.Success? <==> UuidOk(body, "customerId", isUuid)
    ensures r.Success? ==> r.value.customerId == body["customerId"].s
    ensures r.Failure? ==> |r.error| == 1 && r.error[0].field == "customerId"
  {
    match UuidField(body, "customerId", isUuid)
    case Success(c) => Success(CreateOrderRequest(c))
    case Failure(issues) => Failure(issues)
  }

  /** The path parameters of get and update (`getOrderRequestSchema`): a UUID `orderId`. */
  function ValidateOrderParams(params: Fields, isUuid: string -> bool): (r: Result<GetOrderRequest, seq<Issue>>)
    ensures r.Success? <==> UuidOk(params, "orderId", isUuid)
    ensures r.Success? ==> r.value.orderId == params["orderId"].s
    ensures r.Failure? ==> |r.error| == 1 && r.error[0].field == "orderId"
  {
    match UuidField(params, "orderId", isUuid)
    case Success(id) => Success(GetOrderRequest(id))
    case Failure(issues) => Failure(issues)
  }

  /** The update body (`updateOrderRequestSchema`): `status` must be the
      literal `cancelled`; no other status can be requested by a caller. */
  function ValidateUpdate(body: Fields): (r: Result<UpdateOrderRequest, seq<Issue>>)
    ensures r.Success? <==> "status" in body && body["status"] == Str("cancelled")
    ensures r.Success? ==> r.value.status == Cancelled
    ensures r.Failure? ==> |r.error| == 1 && r.error[0].field == "status"
  {
    if "status" !in body then Failure([Issue("status", Required)])
    else match body["status"]
      case Str(s) => if s == "cancelled" then Success(UpdateOrderRequest(Cancelled)) else Failure([Issue("status", InvalidEnumValue)])
      case _ => Failure([Issue("status", InvalidType)])
  }

  /** The search query (`searchOrderRequestSchema`). Every field is checked and
      the issues of all fields are reported together, in declaration order. */
  function ValidateSearch(query: Fields, isUuid: string -> bool): (r: Result<SearchOrderRequest, seq<Issue>>)
    ensures r.Success? <==>
      && OptionalUuidOk(query, "customerId", isUuid)
      && OptionalStatusOk(query, "status")
      && OptionalIntOk(query, "offset", 0)
      && OptionalIntOk(query, "limit", 1)
    ensures r.Success? ==> r.value.offset >= 0 && r.value.limit >= 1
    ensures r.Success? && "offset" !in query ==> r.value.offset == DefaultOffset
    ensures r.Success? && "limit" !in query ==> r.value.limit == DefaultLimit
    ensures r.Success? && "offset" in query ==> r.value.offset as real == query["offset"].n
    ensures r.Success? && "limit" in query ==> r.value.limit as real == query["limit"].n
    ensures r.Success? ==> (r.value.customerId.None? <==> "customerId" !in query)
    ensures r.Success? && r.value.customerId.Some? ==> r.value.customerId.value == query["customerId"].s
    ensures r.Success? ==> (r.value.status.None? <==> "status" !in query)
    ensures r.Success? && r.value.status.Some? ==> StatusName(r.value.status.value) == query["status"].s
    ensures r.Failure? ==> |r.error| > 0
    ensures r.Failure? ==> forall i :: 0 <= i < |r.error| ==>
      r.error[i].field in ["customerId", "status", "offset", "limit"]
  {
    var c := OptionalUuidField(query, "customerId", isUuid);
    var s := OptionalStatusField(query, "status");
    var o := OptionalIntField(query, "offset", 0, DefaultOffset);
    var l := OptionalIntField(query, "limit", 1, DefaultLimit);
    if c.Success? && s.Success? && o.Success? && l.Success? then
      Success(SearchOrderRequest(c.value, s.value, o.value, l.value))
    else
      Failure(IssuesOf(c) + IssuesOf(s) + IssuesOf(o) + IssuesOf(l))
  }

  /** A failed search validation reports a field exactly when that field
      breaks its constraint: every violation is reported, and nothing else. */
  lemma SearchIssuesNameViolations(query: Fields, isUuid: string -> bool, field: string)
    requires ValidateSearch(query, isUuid).Failure?
    ensures field == "customerId" ==>
      (!OptionalUuidOk(query, field, isUuid) <==> Reports(ValidateSearch(query, isUuid).error, field))
    ensures field == "status" ==>
      (!OptionalStatusOk(query, field) <==> Reports(ValidateSearch(query, isUuid).error, field))
    ensures field == "offset" ==>
      (!OptionalIntOk(query, field, 0) <==> Reports(ValidateSearch(query, isUuid).error, field))
    ensures field == "limit" ==>
      (!OptionalIntOk(query, field, 1) <==> Reports(ValidateSearch(query, isUuid).error, field))
  {
    var c := OptionalUuidField(query, "customerId", isUuid);
    var s := OptionalStatusField(query, "status");
    var o := OptionalIntField(query, "offset", 0, DefaultOffset);
    var l := OptionalIntField(query, "limit", 1, DefaultLimit);
    assert ValidateSearch(query, isUuid).error == IssuesOf(c) + IssuesOf(s) + IssuesOf(o) + IssuesOf(l);
    ReportsField(c, "customerId", field);
    ReportsField(s, "status", field);
    ReportsField(o, "offset", field);
    ReportsField(l, "limit", field);
    ReportsConcat(IssuesOf(c), IssuesOf(s), field);
    ReportsConcat(IssuesOf(c) + IssuesOf(s), IssuesOf(o), field);
    ReportsConcat(IssuesOf(c) + IssuesOf(s) + IssuesOf(o), IssuesOf(l), field);
  }

  /** An empty query validates to the defaults `{offset: 0, limit: 10}`. */
  lemma EmptySearchDefaults(isUuid: string -> bool)
    ensures ValidateSearch(map[], isUuid) == Success(SearchOrderRequest(None, None, 0, 10))
  {
  }

  /** Only `cancelled` is accepted as a requested status. */
  lemma OnlyCancelAccepted(s: OrderStatus)
    ensures ValidateUpdate(map["status" := Str(StatusName(s))]).Success? <==> s == Cancelled
  {
  }

  /** Writes a typed search request back as a raw query. */
  function RenderSearch(req: SearchOrderRequest): Fields
  {
    var q: Fields := map["offset" := Num(req.offset as real), "limit" := Num(req.limit as real)];
    var q := if req.customerId.Some? then q["customerId" := Str(req.customerId.value)] else q;
    if req.status.Some? then q["status" := Str(StatusName(req.status.value))] else q
  }

  /** A search request that meets the schema survives rendering and validation unchanged. */
  lemma SearchRoundTrip(req: SearchOrderRequest, isUuid: string -> bool)
    requires req.offset >= 0 && req.limit >= 1
    requires req.customerId.Some? ==> isUuid(req.customerId.value)
    ensures ValidateSearch(RenderSearch(req), isUuid) == Success(req)
  {
    var q := RenderSearch(req);
    assert (req.offset as real).Floor == req.offset;
    assert (req.limit as real).Floor == req.limit;
    if req.status.Some? {
      StatusNameRoundTrip(req.status.value);
    }
  }

  /** A create request with a UUID customer id survives rendering and validation. */
  lemma CreateRoundTrip(req: CreateOrderRequest, isUuid: string -> bool)
    requires isUuid(req.customerId)
    ensures ValidateCreate(map["customerId" := Str(req.customerId)], isUuid) == Success(req)
  {
  }
}
