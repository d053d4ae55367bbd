/** The endpoint catalog (`APIResources`): an immutable table from endpoint
    constants to URL templates, path-parameter substitution (`withParams`)
    and query-string construction (`withQueryParams`). */
module ApiResources {
  import opened PlaceholderRegex
  import opened PathTemplates

  datatype Endpoint =
    // Products
    | CreateProduct | GetAllProducts | GetProductById | GetProductBySlug
    | UpdateProduct | DeleteProduct | GetProductsPaginated
    | GetRelatedById | GetRelatedBySlug
    // Categories
    | GetAllCategories | GetCategoryById | CreateCategory | UpdateCategory | DeleteCategory
    // Users
    | GetAllUsers | GetUserById | CreateUser | UpdateUser | DeleteUser
    // Authentication
    | Login | RefreshToken | Profile
    // Files
    | UploadFile | GetFile

  /** `getResource()`: the raw template each constant was declared with.
      Every template is an absolute path. */
  function Resource(e: Endpoint): (r: string)
    ensures |r| > 1 && r[0] == '/'
  {
    match e
    case CreateProduct => "/products"
    case GetAllProducts => "/products"
    case GetProductById => "/products/{id}"
    case GetProductBySlug => "/products/slug/{slug}"
    case UpdateProduct => "/products/{id}"
    case DeleteProduct => "/products/{id}"
    case GetProductsPaginated => "/products?offset={offset}&limit={limit}"
    case GetRelatedById => "/products/{id}/related"
    case GetRelatedBySlug => "/products/slug/{slug}/related"
    case GetAllCategories => "/categories"
    case GetCategoryById => "/categories/{id}"
    case CreateCategory => "/categories"
    case UpdateCategory => "/categories/{id}"
    case DeleteCategory => "/categories/{id}"
    case GetAllUsers => "/users"
    case GetUserById => "/users/{id}"
    case CreateUser => "/users"
    case UpdateUser => "/users/{id}"
    case DeleteUser => "/users/{id}"
    case Login => "/auth/login"
    case RefreshToken => "/auth/refresh-token"
    case Profile => "/auth/profile"
    case UploadFile => "/files/upload"
    case GetFile => "/files/{id}"
  }

  /** Characters that `replaceFirst` would interpret in a replacement. */
  predicate SafeReplacement(p: string) {
    '$' !in p && '\\' !in p
  }

  /** `withParams(params...)`: each parameter in turn replaces the first
      remaining placeholder match of the template. */
  method WithParams(e: Endpoint, params: seq<string>) returns (formatted: string)
    requires forall k :: 0 <= k < |params| ==> SafeReplacement(params[k])
    ensures formatted == Substitute(Resource(e), params)
  {
    formatted := Resource(e);
    for i := 0 to |params|
      invariant Substitute(formatted, params[i..]) == Substitute(Resource(e), params)
    {
      assert params[i..][1..] == params[i + 1..];
      formatted := ReplaceFirst(formatted, params[i]);
    }
    assert params[|params|..] == [];
  }

  /** q1 + "&" + q2 + "&" + ... + "&" + qk */
  function Joined(qs: seq<string>): string
    decreases |qs|
  {
    if qs == [] then ""
    else if |qs| == 1 then qs[0]
    else Joined(qs[..|qs| - 1]) + "&" + qs[|qs| - 1]
  }

  /** What `withQueryParams` returns: the raw template, and when there is at
      least one parameter a `?` followed by the parameters joined by `&`. */
  function WithQuery(path: string, qs: seq<string>): string {
    if qs == [] then path else path + "?" + Joined(qs)
  }

  /** One more parameter extends the joined prefix by a separator and itself. */
  lemma JoinedStep(qs: seq<string>, i: nat)
    requires i < |qs|
    ensures Joined(qs[..i + 1]) == if i == 0 then qs[0] else Joined(qs[..i]) + "&" + qs[i]
  {
    assert qs[..i + 1][..i] == qs[..i];
  }

  /** `withQueryParams(queryParams...)`, appending to a string builder. */
  method WithQueryParams(e: Endpoint, queryParams: seq<string>) returns (r: string)
    ensures r == WithQuery(Resource(e), queryParams)
  {
    var sb := Resource(e);
    var n := |queryParams|;
    if n > 0 {
      sb := sb + "?";
      ghost var head := sb;
      for i := 0 to n
        invariant sb == head + Joined(queryParams[..i]) + (if 0 < i < n then "&" else "")
      {
        JoinedStep(queryParams, i);
        sb := sb + queryParams[i];
        if i < n - 1 {
          sb := sb + "&";
        }
      }
      assert queryParams[..n] == queryParams;
    }
    r := sb;
  }

  // ---------------------------------------------------------------------
  // Splitting a query string back into its parameters
  // ---------------------------------------------------------------------

  function LastIndexOf(s: string, c: char): (k: nat)
    requires c in s
    ensures k < |s| && s[k] == c
    ensures forall m :: k < m < |s| ==> s[m] != c
    decreases |s|
  {
    if s[|s| - 1] == c then |s| - 1
    else
      assert c in s[..|s| - 1] by {
        var m :| 0 <= m < |s| && s[m] == c;
        assert s[..|s| - 1][m] == c;
      }
      LastIndexOf(s[..|s| - 1], c)
  }

  /** The `&`-separated fields of a query string. */
  function Fields(s: string): seq<string>
    decreases |s|
  {
    if '&' !in s then [s]
    else
      var k := LastIndexOf(s, '&');
      Fields(s[..k]) + [s[k + 1..]]
  }

  lemma {:induction false} LastIndexOfJoin(a: string, b: string)
    requires '&' !in b
    ensures LastIndexOf(a + "&" + b, '&') == |a|
    decreases |b|
  {
    var s := a + "&" + b;
    if b == [] {
      assert s[|s| - 1] == '&';
    } else {
      var b' := b[..|b| - 1];
      assert s[|s| - 1] == b[|b| - 1] && b[|b| - 1] in b;
      assert s[..|s| - 1] == a + "&" + b';
      assert '&' !in b' by {
        forall m | 0 <= m < |b'| ensures b'[m] != '&' {
          assert b'[m] == b[m] && b[m] in b;
        }
      }
      LastIndexOfJoin(a, b');
    }
  }

  /** Splitting the joined parameters at `&` gives back the parameters,
      provided none of them contains `&` itself. */
  lemma {:induction false} FieldsJoined(qs: seq<string>)
    requires qs != []
    requires forall k :: 0 <= k < |qs| ==> '&' !in qs[k]
    ensures Fields(Joined(qs)) == qs
    decreases |qs|
  {
    if |qs| > 1 {
      var init, last := qs[..|qs| - 1], qs[|qs| - 1];
      var s := Joined(init) + "&" + last;
      assert s[|Joined(init)|] == '&';
      LastIndexOfJoin(Joined(init), last);
      assert s[..|Joined(init)|] == Joined(init);
      assert s[|Joined(init)| + 1..] == last;
      FieldsJoined(init);
      assert init + [last] == qs;
    }
  }

  /** The query string can be read back from what withQueryParams returns:
      the raw template, one `?` right after it, and the parameters in order. */
  lemma QueryRoundTrip(path: string, qs: seq<string>)
    requires qs != []
    requires forall k :: 0 <= k < |qs| ==> '&' !in qs[k]
    ensures var r := WithQuery(path, qs);
      |r| > |path| && r[..|path|] == path && r[|path|] == '?' && Fields(r[|path| + 1..]) == qs
  {
    var r := WithQuery(path, qs);
    assert r[..|path|] == path;
    assert r[|path| + 1..] == Joined(qs);
    FieldsJoined(qs);
  }
}
