/** The specification cache (`BaseAPI`): a request specification per thread
    and six response specifications, each built from the configuration on
    first use, returned unchanged afterwards, and dropped by `resetSpecs`.

    The RestAssured builders become plain records. The thread-local request
    slot becomes a map keyed by an explicit context id. A configuration value
    that is missing or unparsable makes the getter fail, as the exception
    from ConfigManager would, and then nothing is cached. */
module BaseApi {
  import opened Wrappers
  import opened ConfigManager

  datatype ContentType = Json

  /** What `RequestSpecBuilder.build()` is given in `getRequestSpec`. */
  datatype RequestSpec = RequestSpec(
    baseUri: string,
    contentType: ContentType,
    connectionTimeout: int32,   // "http.connection.timeout"
    socketTimeout: int32,       // "http.socket.timeout"
    logAll: bool)

  /** Builds a request specification, reading the configuration in the
      order the builder chain does: base URL, connection timeout, read
      timeout, request logging. The first failing read is the error. */
  function BuildRequestSpec(src: Sources): Result<RequestSpec, ConfigError> {
    var baseUri :- GetProperty(src, Key(BaseUrl));
    var connection :- GetNumber(src, Key(ConnectionTimeout));
    var socket :- GetNumber(src, Key(ReadTimeout));
    var logAll :- GetFlag(src, Key(RequestLogging));
    Success(RequestSpec(baseUri, Json, connection, socket, logAll))
  }

  /** A built request specification carries the configured base URL, JSON,
      both configured timeouts, and full logging exactly when request
      logging is enabled; it fails exactly when one of the four getters does. */
  lemma RequestSpecFromConfig(src: Sources)
    ensures BuildRequestSpec(src).Success? <==>
      && Get(src, BaseUrl).Success? && Get(src, ConnectionTimeout).Success?
      && Get(src, ReadTimeout).Success? && Get(src, RequestLogging).Success?
    ensures BuildRequestSpec(src).Success? ==>
      var spec := BuildRequestSpec(src).value;
      && TextValue(spec.baseUri) == Get(src, BaseUrl).value
      && spec.contentType == Json
      && NumberValue(spec.connectionTimeout) == Get(src, ConnectionTimeout).value
      && NumberValue(spec.socketTimeout) == Get(src, ReadTimeout).value
      && FlagValue(spec.logAll) == Get(src, RequestLogging).value
  {
  }

  /** A missing base URL is reported before anything else is read. */
  lemma MissingBaseUrlFirst(src: Sources)
    requires Key(BaseUrl) !in Effective(src)
    ensures BuildRequestSpec(src) == Failure(MissingKey("base.url"))
  {
  }

  // ---------------------------------------------------------------------
  // Response specifications
  // ---------------------------------------------------------------------

  /** The six cached response specifications. */
  datatype ResponseSlot = Ok200 | Created201 | NoContent204 | BadRequest400 | Unauthorized401 | NotFound404

  function StatusCode(slot: ResponseSlot): int {
    match slot
    case Ok200 => 200
    case Created201 => 201
    case NoContent204 => 204
    case BadRequest400 => 400
    case Unauthorized401 => 401
    case NotFound404 => 404
  }

  /** `expectResponseTime(lessThan(3000L))`: the bound in milliseconds. */
  const ResponseTimeLimit := 3000

  /** What `ResponseSpecBuilder.build()` is given. */
  datatype ResponseSpec = ResponseSpec(
    statusCode: int,
    contentType: Option<ContentType>,
    responseTimeBelow: int,
    logAll: bool)

  /** Builds the specification of a slot; only the logging flag is read
      from the configuration. The 204 specification expects no content type. */
  function BuildResponseSpec(slot: ResponseSlot, src: Sources): Result<ResponseSpec, ConfigError> {
    var logAll :- GetFlag(src, Key(ResponseLogging));
    var contentType := if slot == NoContent204 then None else Some(Json);
    Success(ResponseSpec(StatusCode(slot), contentType, ResponseTimeLimit, logAll))
  }

  /** What a cached specification of a slot expects. */
  predicate Expects(slot: ResponseSlot, spec: ResponseSpec) {
    && spec.statusCode == StatusCode(slot)
    && spec.responseTimeBelow == ResponseTimeLimit
    && (spec.contentType == Some(Json) <==> slot != NoContent204)
    && (spec.contentType.None? <==> slot == NoContent204)
  }

  /** Every built response specification expects its slot's status, a
      response within 3000 ms, and JSON except for 204; it logs exactly when
      response logging is enabled and fails only when that key is missing. */
  lemma ResponseSpecFromConfig(slot: ResponseSlot, src: Sources)
    ensures BuildResponseSpec(slot, src).Success? <==> Key(ResponseLogging) in Effective(src)
    ensures BuildResponseSpec(slot, src).Success? ==>
      var spec := BuildResponseSpec(slot, src).value;
      Expects(slot, spec) && FlagValue(spec.logAll) == Get(src, ResponseLogging).value
    ensures BuildResponseSpec(slot, src).Failure? ==>
      BuildResponseSpec(slot, src).error == MissingKey(Key(ResponseLogging))
  {
  }

  /** No two slots expect the same status. */
  lemma StatusCodesDistinct(a: ResponseSlot, b: ResponseSlot)
    ensures StatusCode(a) == StatusCode(b) <==> a == b
  {
  }

  // ---------------------------------------------------------------------
  // Derived request specifications (not cached)
  // ---------------------------------------------------------------------

  /** What `with().spec(base)` builds on: a fresh specification that takes
      over the base's settings, plus the headers and path parameters that
      `.header(..)`, `.headers(..)` or `.pathParams(..)` add to it. */
  datatype DerivedSpec = DerivedSpec(
    baseUri: string,
    contentType: ContentType,
    connectionTimeout: int32,
    socketTimeout: int32,
    logAll: bool,
    headers: map<string, string>,
    pathParams: map<string, string>)

  /** `with().spec(base)`: the base's settings, nothing added yet. */
  function Inherit(base: RequestSpec): DerivedSpec {
    DerivedSpec(base.baseUri, base.contentType, base.connectionTimeout, base.socketTimeout, base.logAll, map[], map[])
  }

  /** The settings a derived specification sends, apart from what was added. */
  function Settings(d: DerivedSpec): RequestSpec {
    RequestSpec(d.baseUri, d.contentType, d.connectionTimeout, d.socketTimeout, d.logAll)
  }

  /** `.header(name, value)` */
  function WithHeader(d: DerivedSpec, name: string, value: string): DerivedSpec {
    d.(headers := d.headers[name := value])
  }

  /** `.headers(map)` */
  function WithHeaderMap(d: DerivedSpec, headers: map<string, string>): DerivedSpec {
    d.(headers := d.headers + headers)
  }

  /** `.pathParams(map)` */
  function WithPathParamMap(d: DerivedSpec, pathParams: map<string, string>): DerivedSpec {
    d.(pathParams := d.pathParams + pathParams)
  }

  /** The base specification with one added header. */
  function CustomHeader(base: RequestSpec, name: string, value: string): DerivedSpec {
    WithHeader(Inherit(base), name, value)
  }

  /** The base specification with every header of the map added. */
  function AddHeaders(base: RequestSpec, headers: map<string, string>): DerivedSpec {
    WithHeaderMap(Inherit(base), headers)
  }

  /** The base specification with every path parameter of the map added. */
  function AddPathParams(base: RequestSpec, pathParams: map<string, string>): DerivedSpec {
    WithPathParamMap(Inherit(base), pathParams)
  }

  /** Merging a base into a fresh specification loses none of its settings:
      `Settings` reads back exactly the base. */
  lemma InheritRoundTrip(base: RequestSpec)
    ensures Settings(Inherit(base)) == base
  {
  }

  /** Adding headers or path parameters never changes the base URL, the
      content type, the timeouts or logging; each derivation sends exactly
      what it was given, and nothing of the other kind. */
  lemma DerivedKeepsBase(base: RequestSpec, name: string, value: string,
                         headers: map<string, string>, pathParams: map<string, string>)
    ensures Settings(CustomHeader(base, name, value)) == base
    ensures Settings(AddHeaders(base, headers)) == base
    ensures Settings(AddPathParams(base, pathParams)) == base
    ensures CustomHeader(base, name, value).headers == map[name := value]
    ensures AddHeaders(base, headers).headers == headers
    ensures AddPathParams(base, pathParams).pathParams == pathParams
    ensures CustomHeader(base, name, value).pathParams == map[] && AddHeaders(base, headers).pathParams == map[]
    ensures AddPathParams(base, pathParams).headers == map[]
  {
    InheritRoundTrip(base);
    assert map[] + headers == headers;
    assert map[] + pathParams == pathParams;
  }

  /** A single custom header is the one-entry case of a header map. */
  lemma CustomHeaderIsOneHeader(base: RequestSpec, name: string, value: string)
    ensures CustomHeader(base, name, value) == AddHeaders(base, map[name := value])
  {
    assert map[] + map[name := value] == map[][name := value];
  }

  // ---------------------------------------------------------------------
  // The cache
  // ---------------------------------------------------------------------

  /** Stands for the thread whose thread-local slot is used. */
  type ContextId = nat

  class SpecCache {
    var requestSpecs: map<ContextId, RequestSpec>
    var okSpec: Option<ResponseSpec>
    var createdSpec: Option<ResponseSpec>
    var noContentSpec: Option<ResponseSpec>
    var badRequestSpec: Option<ResponseSpec>
    var unauthorizedSpec: Option<ResponseSpec>
    var notFoundSpec: Option<ResponseSpec>

    /** The field that caches a slot. */
    function Cached(slot: ResponseSlot): Option<ResponseSpec>
      reads this`okSpec, this`createdSpec, this`noContentSpec
      reads this`badRequestSpec, this`unauthorizedSpec, this`notFoundSpec
    {
      match slot
      case Ok200 => okSpec
      case Created201 => createdSpec
      case NoContent204 => noContentSpec
      case BadRequest400 => badRequestSpec
      case Unauthorized401 => unauthorizedSpec
      case NotFound404 => notFoundSpec
    }

    /** Every cached response specification is the one of its own slot. */
    ghost predicate Valid()
      reads this`okSpec, this`createdSpec, this`noContentSpec
      reads this`badRequestSpec, this`unauthorizedSpec, this`notFoundSpec
    {
      forall slot :: Cached(slot).Some? ==> Expects(slot, Cached(slot).value)
    }

    /** The state of the static fields when the class is loaded. */
    constructor ()
      ensures requestSpecs == map[]
      ensures forall slot :: Cached(slot) == None
      ensures Valid()
    {
      requestSpecs := map[];
      okSpec, createdSpec, noContentSpec := None, None, None;
      badRequestSpec, unauthorizedSpec, notFoundSpec := None, None, None;
    }

    /** `getRequestSpec()`: builds and stores the spec of this context only
        when it has none; otherwise returns the stored one, whatever the
        configuration now says. */
    method GetRequestSpec(ctx: ContextId, src: Sources) returns (r: Result<RequestSpec, ConfigError>)
      requires Valid()
      modifies this
      ensures Valid()
      ensures ctx in old(requestSpecs) ==> r == Success(old(requestSpecs)[ctx]) && requestSpecs == old(requestSpecs)
      ensures ctx !in old(requestSpecs) ==> r == BuildRequestSpec(src)
      ensures ctx !in old(requestSpecs) && r.Success? ==> requestSpecs == old(requestSpecs)[ctx := r.value]
      ensures ctx !in old(requestSpecs) && r.Failure? ==> requestSpecs == old(requestSpecs)
      ensures forall slot :: Cached(slot) == old(Cached(slot))
    {
      if ctx !in requestSpecs {
        var built := BuildRequestSpec(src);
        if built.Failure? {
          return built;
        }
        requestSpecs := requestSpecs[ctx := built.value];
      }
      r := Success(requestSpecs[ctx]);
    }

    /** The shared body of the six response getters: builds and stores the
        slot's spec only when the slot is empty. */
    method GetResponseSpec(slot: ResponseSlot, src: Sources) returns (r: Result<ResponseSpec, ConfigError>)
      requires Valid()
      modifies this
      ensures Valid()
      ensures r.Success? ==> Expects(slot, r.value)
      ensures old(Cached(slot)).Some? ==> r == Success(old(Cached(slot)).value) && Cached(slot) == old(Cached(slot))
      ensures old(Cached(slot)).None? ==> r == BuildResponseSpec(slot, src)
      ensures old(Cached(slot)).None? ==> Cached(slot) == if r.Success? then Some(r.value) else None
      ensures forall other :: other != slot ==> Cached(other) == old(Cached(other))
      ensures requestSpecs == old(requestSpecs)
    {
      var cached := Cached(slot);
      if cached.Some? {
        assert Expects(slot, cached.value);
        return Success(cached.value);
      }
      r := BuildResponseSpec(slot, src);
      if r.Success? {
        ResponseSpecFromConfig(slot, src);
        match slot {
          case Ok200 => okSpec := Some(r.value);
          case Created201 => createdSpec := Some(r.value);
          case NoContent204 => noContentSpec := Some(r.value);
          case BadRequest400 => badRequestSpec := Some(r.value);
          case Unauthorized401 => unauthorizedSpec := Some(r.value);
          case NotFound404 => notFoundSpec := Some(r.value);
        }
        assert Cached(slot) == Some(r.value);
        forall other ensures Cached(other).Some? ==> Expects(other, Cached(other).value) {
          if other != slot {
            assert Cached(other) == old(Cached(other));
          }
        }
      }
    }

    /** `getOkResponseSpec()` */
    method GetOkResponseSpec(src: Sources) returns (r: Result<ResponseSpec, ConfigError>)
      requires Valid()
      modifies this
      ensures Valid()
      ensures old(okSpec).Some? ==> r == Success(old(okSpec).value) && okSpec == old(okSpec)
      ensures old(okSpec).None? ==> r == BuildResponseSpec(Ok200, src)
      ensures old(okSpec).None? ==> okSpec == if r.Success? then Some(r.value) else None
      ensures r.Success? ==> Expects(Ok200, r.value)
      ensures forall other :: other != Ok200 ==> Cached(other) == old(Cached(other))
      ensures requestSpecs == old(requestSpecs)
    {
      r := GetResponseSpec(Ok200, src);
    }

    /** `getCreatedResponseSpec()` */
    method GetCreatedResponseSpec(src: Sources) returns (r: Result<ResponseSpec, ConfigError>)
      requires Valid()
      modifies this
      ensures Valid()
      ensures old(createdSpec).Some? ==> r == Success(old(createdSpec).value) && createdSpec == old(createdSpec)
      ensures old(createdSpec).None? ==> r == BuildResponseSpec(Created201, src)
      ensures old(createdSpec).None? ==> createdSpec == if r.Success? then Some(r.value) else None
      ensures r.Success? ==> Expects(Created201, r.value)
      ensures forall other :: other != Created201 ==> Cached(other) == old(Cached(other))
      ensures requestSpecs == old(requestSpecs)
    {
      r := GetResponseSpec(Created201, src);
    }

    /** `getNoContentResponseSpec()` */
    method GetNoContentResponseSpec(src: Sources) returns (r: Result<ResponseSpec, ConfigError>)
      requires Valid()
      modifies this
      ensures Valid()
      ensures old(noContentSpec).Some? ==> r == Success(old(noContentSpec).value) && noContentSpec == old(noContentSpec)
      ensures old(noContentSpec).None? ==> r == BuildResponseSpec(NoContent204, src)
      ensures old(noContentSpec).None? ==> noContentSpec == if r.Success? then Some(r.value) else None
      ensures r.Success? ==> Expects(NoContent204, r.value)
      ensures forall other :: other != NoContent204 ==> Cached(other) == old(Cached(other))
      ensures requestSpecs == old(requestSpecs)
    {
      r := GetResponseSpec(NoContent204, src);
    }

    /** `getBadRequestResponseSpec()` */
    method GetBadRequestResponseSpec(src: Sources) returns (r: Result<ResponseSpec, ConfigError>)
      requires Valid()
      modifies this
      ensures Valid()
      ensures old(badRequestSpec).Some? ==> r == Success(old(badRequestSpec).value) && badRequestSpec == old(badRequestSpec)
      ensures old(badRequestSpec).None? ==> r == BuildResponseSpec(BadRequest400, src)
      ensures old(badRequestSpec).None? ==> badRequestSpec == if r.Success? then Some(r.value) else None
      ensures r.Success? ==> Expects(BadRequest400, r.value)
      ensures forall other :: other != BadRequest400 ==> Cached(other) == old(Cached(other))
      ensures requestSpecs == old(requestSpecs)
    {
      r := GetResponseSpec(BadRequest400, src);
    }

    /** `getUnauthorizedResponseSpec()` */
    method GetUnauthorizedResponseSpec(src: Sources) returns (r: Result<ResponseSpec, ConfigError>)
      requires Valid()
      modifies this
      ensures Valid()
      ensures old(unauthorizedSpec).Some? ==> r == Success(old(unauthorizedSpec).value) && unauthorizedSpec == old(unauthorizedSpec)
      ensures old(unauthorizedSpec).None? ==> r == BuildResponseSpec(Unauthorized401, src)
      ensures old(unauthorizedSpec).None? ==> unauthorizedSpec == if r.Success? then Some(r.value) else None
      ensures r.Success? ==> Expects(Unauthorized401, r.value)
      ensures forall other :: other != Unauthorized401 ==> Cached(other) == old(Cached(other))
      ensures requestSpecs == old(requestSpecs)
    {
      r := GetResponseSpec(Unauthorized401, src);
    }

    /** `getNotFoundResponseSpec()` */
    method GetNotFoundResponseSpec(src: Sources) returns (r: Result<ResponseSpec, ConfigError>)
      requires Valid()
      modifies this
      ensures Valid()
      ensures old(notFoundSpec).Some? ==> r == Success(old(notFoundSpec).value) && notFoundSpec == old(notFoundSpec)
      ensures old(notFoundSpec).None? ==> r == BuildResponseSpec(NotFound404, src)
      ensures old(notFoundSpec).None? ==> notFoundSpec == if r.Success? then Some(r.value) else None
      ensures r.Success? ==> Expects(NotFound404, r.value)
      ensures forall other :: other != NotFound404 ==> Cached(other) == old(Cached(other))
      ensures requestSpecs == old(requestSpecs)
    {
      r := GetResponseSpec(NotFound404, src);
    }

    /** `resetSpecs()`: removes the calling context's request spec (as
        `ThreadLocal.remove()` does) and empties all six response slots. */
    method ResetSpecs(ctx: ContextId)
      modifies this
      ensures Valid()
      ensures requestSpecs == old(requestSpecs) - {ctx}
      ensures forall slot :: Cached(slot) == None
    {
      requestSpecs := requestSpecs - {ctx};
      okSpec, createdSpec, noContentSpec := None, None, None;
      badRequestSpec, unauthorizedSpec, notFoundSpec := None, None, None;
    }

    /** `getCustomHeaderRequestSpec(name, value)`: the context's spec plus one
        header; the stored spec itself is only ever created, never altered. */
    method GetCustomHeaderRequestSpec(ctx: ContextId, src: Sources, name: string, value: string)
      returns (r: Result<DerivedSpec, ConfigError>)
      requires Valid()
      modifies this
      ensures Valid()
      ensures ctx in old(requestSpecs) ==> r == Success(CustomHeader(old(requestSpecs)[ctx], name, value))
      ensures r.Success? ==> ctx in requestSpecs && r.value == CustomHeader(requestSpecs[ctx], name, value)
      ensures r.Failure? ==> ctx !in old(requestSpecs) && BuildRequestSpec(src).Failure? && r.error == BuildRequestSpec(src).error
      ensures ctx in old(requestSpecs) ==> requestSpecs == old(requestSpecs)
      ensures ctx !in old(requestSpecs) ==>
        var b := BuildRequestSpec(src);
        && requestSpecs == (if b.Success? then old(requestSpecs)[ctx := b.value] else old(requestSpecs))
        && (b.Success? ==> r == Success(CustomHeader(b.value, name, value)))
      ensures forall slot :: Cached(slot) == old(Cached(slot))
    {
      var base :- GetRequestSpec(ctx, src);
      r := Success(CustomHeader(base, name, value));
    }

    /** `withHeaders(headers)`: the context's spec plus every header of the map. */
    method WithHeaders(ctx: ContextId, src: Sources, headers: map<string, string>)
      returns (r: Result<DerivedSpec, ConfigError>)
      requires Valid()
      modifies this
      ensures Valid()
      ensures ctx in old(requestSpecs) ==> r == Success(AddHeaders(old(requestSpecs)[ctx], headers))
      ensures r.Success? ==> ctx in requestSpecs && r.value == AddHeaders(requestSpecs[ctx], headers)
      ensures r.Failure? ==> ctx !in old(requestSpecs) && BuildRequestSpec(src).Failure? && r.error == BuildRequestSpec(src).error
      ensures ctx in old(requestSpecs) ==> requestSpecs == old(requestSpecs)
      ensures ctx !in old(requestSpecs) ==>
        var b := BuildRequestSpec(src);
        && requestSpecs == (if b.Success? then old(requestSpecs)[ctx := b.value] else old(requestSpecs))
        && (b.Success? ==> r == Success(AddHeaders(b.value, headers)))
      ensures forall slot :: Cached(slot) == old(Cached(slot))
    {
      var base :- GetRequestSpec(ctx, src);
      r := Success(AddHeaders(base, headers));
    }

    /** `withPathParams(pathParams)`: the context's spec plus every path
        parameter of the map. */
    method WithPathParams(ctx: ContextId, src: Sources, pathParams: map<string, string>)
      returns (r: Result<DerivedSpec, ConfigError>)
      requires Valid()
      modifies this
      ensures Valid()
      ensures ctx in old(requestSpecs) ==> r == Success(AddPathParams(old(requestSpecs)[ctx], pathParams))
      ensures r.Success? ==> ctx in requestSpecs && r.value == AddPathParams(requestSpecs[ctx], pathParams)
      ensures r.Failure? ==> ctx !in old(requestSpecs) && BuildRequestSpec(src).Failure? && r.error == BuildRequestSpec(src).error
      ensures ctx in old(requestSpecs) ==> requestSpecs == old(requestSpecs)
      ensures ctx !in old(requestSpecs) ==>
        var b := BuildRequestSpec(src);
        && requestSpecs == (if b.Success? then old(requestSpecs)[ctx := b.value] else old(requestSpecs))
        && (b.Success? ==> r == Success(AddPathParams(b.value, pathParams)))
      ensures forall slot :: Cached(slot) == old(Cached(slot))
    {
      var base :- GetRequestSpec(ctx, src);
      r := Success(AddPathParams(base, pathParams));
    }
  }

  // ---------------------------------------------------------------------
  // Sequences of calls
  // ---------------------------------------------------------------------

  /** A request spec, once built, is returned again even after the
      configuration changes, until `resetSpecs`; the next call then builds
      from the configuration current at that time. */
  method StaleUntilReset(cache: SpecCache, ctx: ContextId, before: Sources, after: Sources)
    returns (first: Result<RequestSpec, ConfigError>, second: Result<RequestSpec, ConfigError>,
             third: Result<RequestSpec, ConfigError>)
    requires cache.Valid() && ctx !in cache.requestSpecs
    modifies cache
    ensures first == BuildRequestSpec(before)
    ensures first.Success? ==> second == first
    ensures first.Failure? ==> second == BuildRequestSpec(after)
    ensures third == BuildRequestSpec(after)
  {
    first := cache.GetRequestSpec(ctx, before);
    second := cache.GetRequestSpec(ctx, after);
    cache.ResetSpecs(ctx);
    third := cache.GetRequestSpec(ctx, after);
  }

  /** Each context builds its own request spec: filling one does not fill,
      change or reuse another's. */
  method ContextsIndependent(cache: SpecCache, a: ContextId, b: ContextId, srcA: Sources, srcB: Sources)
    returns (ra: Result<RequestSpec, ConfigError>, rb: Result<RequestSpec, ConfigError>)
    requires cache.Valid() && a != b && a !in cache.requestSpecs && b !in cache.requestSpecs
    modifies cache
    ensures ra == BuildRequestSpec(srcA) && rb == BuildRequestSpec(srcB)
  {
    ra := cache.GetRequestSpec(a, srcA);
    rb := cache.GetRequestSpec(b, srcB);
  }

  /** The same response spec comes back on every call until `resetSpecs`,
      and `resetSpecs` twice leaves what `resetSpecs` once does. */
  method ResponseSpecMemoised(cache: SpecCache, ctx: ContextId, src1: Sources, src2: Sources, src3: Sources)
    returns (first: Result<ResponseSpec, ConfigError>, second: Result<ResponseSpec, ConfigError>,
             third: Result<ResponseSpec, ConfigError>)
    requires cache.Valid() && cache.notFoundSpec.None?
    modifies cache
    ensures first == BuildResponseSpec(NotFound404, src1)
    ensures first.Success? ==> second == first
    ensures third == BuildResponseSpec(NotFound404, src3)
    ensures cache.Cached(NotFound404) == if third.Success? then Some(third.value) else None
    ensures forall slot :: slot != NotFound404 ==> cache.Cached(slot) == None
  {
    first := cache.GetNotFoundResponseSpec(src1);
    second := cache.GetNotFoundResponseSpec(src2);
    cache.ResetSpecs(ctx);
    cache.ResetSpecs(ctx);
    assert cache.Cached(NotFound404) == None;
    third := cache.GetNotFoundResponseSpec(src3);
  }
}
