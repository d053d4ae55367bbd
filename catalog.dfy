/** The endpoint catalog read as templates: each constant's URL template
    split into literal text and named placeholders, what `withParams` makes of
    each, and the documented examples of `withParams` and `withQueryParams`. */
module Catalog {
  import opened PlaceholderRegex
  import opened PathTemplates
  import opened ApiResources

  /** The structure of each template: its literal text and its placeholders. */
  function Pieces(e: Endpoint): seq<Piece> {
    match e
    case CreateProduct => [Literal("/products")]
    case GetAllProducts => [Literal("/products")]
    case GetProductById => [Literal("/products/"), Placeholder("id")]
    case GetProductBySlug => [Literal("/products/slug/"), Placeholder("slug")]
    case UpdateProduct => [Literal("/products/"), Placeholder("id")]
    case DeleteProduct => [Literal("/products/"), Placeholder("id")]
    case GetProductsPaginated =>
      [Literal("/products?offset="), Placeholder("offset"), Literal("&limit="), Placeholder("limit")]
    case GetRelatedById => [Literal("/products/"), Placeholder("id"), Literal("/related")]
    case GetRelatedBySlug => [Literal("/products/slug/"), Placeholder("slug"), Literal("/related")]
    case GetAllCategories => [Literal("/categories")]
    case GetCategoryById => [Literal("/categories/"), Placeholder("id")]
    case CreateCategory => [Literal("/categories")]
    case UpdateCategory => [Literal("/categories/"), Placeholder("id")]
    case DeleteCategory => [Literal("/categories/"), Placeholder("id")]
    case GetAllUsers => [Literal("/users")]
    case GetUserById => [Literal("/users/"), Placeholder("id")]
    case CreateUser => [Literal("/users")]
    case UpdateUser => [Literal("/users/"), Placeholder("id")]
    case DeleteUser => [Literal("/users/"), Placeholder("id")]
    case Login => [Literal("/auth/login")]
    case RefreshToken => [Literal("/auth/refresh-token")]
    case Profile => [Literal("/auth/profile")]
    case UploadFile => [Literal("/files/upload")]
    case GetFile => [Literal("/files/"), Placeholder("id")]
  }

  // ---------------------------------------------------------------------
  // The four template shapes of the catalog, for any text
  // ---------------------------------------------------------------------

  lemma LiteralShape(x: string)
    requires Braceless(x)
    ensures Render([Literal(x)]) == x && WellFormed([Literal(x)])
  {
    assert [Literal(x)][1..] == [];
    assert x + "" == x;
  }

  lemma TrailingShape(x: string, n: string)
    requires Braceless(x) && Braceless(n) && n != [] && '/' !in n
    ensures Render([Literal(x), Placeholder(n)]) == x + "{" + n + "}"
    ensures WellFormed([Literal(x), Placeholder(n)])
  {
    var t := [Literal(x), Placeholder(n)];
    assert t[1..] == [Placeholder(n)];
    assert t[1..][1..] == [];
    assert "{" + n + "}" + "" == "{" + n + "}";
    assert Render(t[1..]) == "{" + n + "}";
    assert WellFormed(t[1..]);
    Regroup3(x, "{", n, "}");
  }

  lemma InnerShape(x: string, n: string, y: string)
    requires Braceless(x) && Braceless(n) && n != [] && '/' !in n
    requires Braceless(y) && y != [] && y[0] == '/'
    ensures Render([Literal(x), Placeholder(n), Literal(y)]) == x + "{" + n + "}" + y
    ensures WellFormed([Literal(x), Placeholder(n), Literal(y)])
  {
    var t := [Literal(x), Placeholder(n), Literal(y)];
    LiteralShape(y);
    assert t[1..][1..] == t[2..] == [Literal(y)];
    assert Render(t[2..]) == y;
    assert Render(t[1..]) == "{" + n + "}" + y;
    Regroup4(x, "{", n, "}", y);
  }

  /** Two placeholders with no slash between them: not well-formed. */
  lemma PairShape(x: string, n: string, y: string, m: string)
    requires '/' !in y && '/' !in m
    ensures Render([Literal(x), Placeholder(n), Literal(y), Placeholder(m)]) == x + "{" + n + "}" + y + "{" + m + "}"
    ensures !WellFormed([Literal(x), Placeholder(n), Literal(y), Placeholder(m)])
  {
    var t := [Literal(x), Placeholder(n), Literal(y), Placeholder(m)];
    var u := [Literal(y), Placeholder(m)];
    assert t[1..][1..] == u;
    assert u[1..] == [Placeholder(m)] && u[1..][1..] == [];
    assert Render(u[1..]) == "{" + m + "}" + "";
    assert "{" + m + "}" + "" == "{" + m + "}";
    var r := Render(u);
    Regroup3(y, "{", m, "}");
    assert r == y + "{" + m + "}";
    assert Render(t[1..]) == "{" + n + "}" + r;
    Regroup4("{" + n + "}", y, "{", m, "}");
    Regroup7(x, "{", n, "}", y, "{", m, "}");
    var k := |y| + |m| + 1;
    forall i | 0 <= i < k ensures r[i] != '/' {
      if i < |y| {
        assert r[i] == y[i] && y[i] in y;
      } else if i > |y| {
        assert r[i] == m[i - |y| - 1] && m[i - |y| - 1] in m;
      }
    }
    CloseBeforeSlash(r, k);
  }

  // ---------------------------------------------------------------------
  // Each template of the catalog
  // ---------------------------------------------------------------------

  lemma ProductsShape()
    ensures Render([Literal("/products")]) == "/products"
    ensures WellFormed([Literal("/products")])
  {
    LiteralShape("/products");
  }

  lemma CreateProductTemplate()
    ensures Render(Pieces(CreateProduct)) == Resource(CreateProduct) && WellFormed(Pieces(CreateProduct))
  {
    assert Resource(CreateProduct) == "/products";
    assert Pieces(CreateProduct) == [Literal("/products")];
    ProductsShape();
  }

  lemma GetAllProductsTemplate()
    ensures Render(Pieces(GetAllProducts)) == Resource(GetAllProducts) && WellFormed(Pieces(GetAllProducts))
  {
    assert Resource(GetAllProducts) == "/products";
    assert Pieces(GetAllProducts) == [Literal("/products")];
    ProductsShape();
  }

  lemma ProductIdShape()
    ensures Render([Literal("/products/"), Placeholder("id")]) == "/products/" + "{" + "id" + "}"
    ensures WellFormed([Literal("/products/"), Placeholder("id")])
  {
    TrailingShape("/products/", "id");
  }

  lemma GetProductByIdTemplate()
    ensures Render(Pieces(GetProductById)) == Resource(GetProductById) && WellFormed(Pieces(GetProductById))
  {
    assert Resource(GetProductById) == "/products/" + "{" + "id" + "}";
    assert Pieces(GetProductById) == [Literal("/products/"), Placeholder("id")];
    ProductIdShape();
  }

  lemma UpdateProductTemplate()
    ensures Render(Pieces(UpdateProduct)) == Resource(UpdateProduct) && WellFormed(Pieces(UpdateProduct))
  {
    assert Resource(UpdateProduct) == "/products/" + "{" + "id" + "}";
    assert Pieces(UpdateProduct) == [Literal("/products/"), Placeholder("id")];
    ProductIdShape();
  }

  lemma DeleteProductTemplate()
    ensures Render(Pieces(DeleteProduct)) == Resource(DeleteProduct) && WellFormed(Pieces(DeleteProduct))
  {
    assert Resource(DeleteProduct) == "/products/" + "{" + "id" + "}";
    assert Pieces(DeleteProduct) == [Literal("/products/"), Placeholder("id")];
    ProductIdShape();
  }

  lemma ProductSlugShape()
    ensures Render([Literal("/products/slug/"), Placeholder("slug")]) == "/products/slug/" + "{" + "slug" + "}"
    ensures WellFormed([Literal("/products/slug/"), Placeholder("slug")])
  {
    TrailingShape("/products/slug/", "slug");
  }

  lemma GetProductBySlugTemplate()
    ensures Render(Pieces(GetProductBySlug)) == Resource(GetProductBySlug) && WellFormed(Pieces(GetProductBySlug))
  {
    assert Resource(GetProductBySlug) == "/products/slug/" + "{" + "slug" + "}";
    assert Pieces(GetProductBySlug) == [Literal("/products/slug/"), Placeholder("slug")];
    ProductSlugShape();
  }

  lemma PaginatedShape()
    ensures Render([Literal("/products?offset="), Placeholder("offset"), Literal("&limit="), Placeholder("limit")]) == "/products?offset=" + "{" + "offset" + "}" + "&limit=" + "{" + "limit" + "}"
    ensures !WellFormed([Literal("/products?offset="), Placeholder("offset"), Literal("&limit="), Placeholder("limit")])
  {
    PairShape("/products?offset=", "offset", "&limit=", "limit");
  }

  lemma GetProductsPaginatedTemplate()
    ensures Render(Pieces(GetProductsPaginated)) == Resource(GetProductsPaginated) && !WellFormed(Pieces(GetProductsPaginated))
  {
    PaginatedSpelling();
    assert Pieces(GetProductsPaginated) == [Literal("/products?offset="), Placeholder("offset"), Literal("&limit="), Placeholder("limit")];
    PaginatedShape();
  }

  lemma RelatedIdShape()
    ensures Render([Literal("/products/"), Placeholder("id"), Literal("/related")]) == "/products/" + "{" + "id" + "}" + "/related"
    ensures WellFormed([Literal("/products/"), Placeholder("id"), Literal("/related")])
  {
    InnerShape("/products/", "id", "/related");
  }

  lemma GetRelatedByIdTemplate()
    ensures Render(Pieces(GetRelatedById)) == Resource(GetRelatedById) && WellFormed(Pieces(GetRelatedById))
  {
    assert Resource(GetRelatedById) == "/products/" + "{" + "id" + "}" + "/related";
    assert Pieces(GetRelatedById) == [Literal("/products/"), Placeholder("id"), Literal("/related")];
    RelatedIdShape();
  }

  lemma RelatedSlugShape()
    ensures Render([Literal("/products/slug/"), Placeholder("slug"), Literal("/related")]) == "/products/slug/" + "{" + "slug" + "}" + "/related"
    ensures WellFormed([Literal("/products/slug/"), Placeholder("slug"), Literal("/related")])
  {
    InnerShape("/products/slug/", "slug", "/related");
  }

  lemma GetRelatedBySlugTemplate()
    ensures Render(Pieces(GetRelatedBySlug)) == Resource(GetRelatedBySlug) && WellFormed(Pieces(GetRelatedBySlug))
  {
    assert Resource(GetRelatedBySlug) == "/products/slug/" + "{" + "slug" + "}" + "/related";
    assert Pieces(GetRelatedBySlug) == [Literal("/products/slug/"), Placeholder("slug"), Literal("/related")];
    RelatedSlugShape();
  }

  lemma CategoriesShape()
    ensures Render([Literal("/categories")]) == "/categories"
    ensures WellFormed([Literal("/categories")])
  {
    LiteralShape("/categories");
  }

  lemma GetAllCategoriesTemplate()
    ensures Render(Pieces(GetAllCategories)) == Resource(GetAllCategories) && WellFormed(Pieces(GetAllCategories))
  {
    assert Resource(GetAllCategories) == "/categories";
    assert Pieces(GetAllCategories) == [Literal("/categories")];
    CategoriesShape();
  }

  lemma CreateCategoryTemplate()
    ensures Render(Pieces(CreateCategory)) == Resource(CreateCategory) && WellFormed(Pieces(CreateCategory))
  {
    assert Resource(CreateCategory) == "/categories";
    assert Pieces(CreateCategory) == [Literal("/categories")];
    CategoriesShape();
  }

  lemma CategoryIdShape()
    ensures Render([Literal("/categories/"), Placeholder("id")]) == "/categories/" + "{" + "id" + "}"
    ensures WellFormed([Literal("/categories/"), Placeholder("id")])
  {
    TrailingShape("/categories/", "id");
  }

  lemma GetCategoryByIdTemplate()
    ensures Render(Pieces(GetCategoryById)) == Resource(GetCategoryById) && WellFormed(Pieces(GetCategoryById))
  {
    assert Resource(GetCategoryById) == "/categories/" + "{" + "id" + "}";
    assert Pieces(GetCategoryById) == [Literal("/categories/"), Placeholder("id")];
    CategoryIdShape();
  }

  lemma UpdateCategoryTemplate()
    ensures Render(Pieces(UpdateCategory)) == Resource(UpdateCategory) && WellFormed(Pieces(UpdateCategory))
  {
    assert Resource(UpdateCategory) == "/categories/" + "{" + "id" + "}";
    assert Pieces(UpdateCategory) == [Literal("/categories/"), Placeholder("id")];
    CategoryIdShape();
  }

  lemma DeleteCategoryTemplate()
    ensures Render(Pieces(DeleteCategory)) == Resource(DeleteCategory) && WellFormed(Pieces(DeleteCategory))
  {
    assert Resource(DeleteCategory) == "/categories/" + "{" + "id" + "}";
    assert Pieces(DeleteCategory) == [Literal("/categories/"), Placeholder("id")];
    CategoryIdShape();
  }

  lemma UsersShape()
    ensures Render([Literal("/users")]) == "/users"
    ensures WellFormed([Literal("/users")])
  {
    LiteralShape("/users");
  }

  lemma GetAllUsersTemplate()
    ensures Render(Pieces(GetAllUsers)) == Resource(GetAllUsers) && WellFormed(Pieces(GetAllUsers))
  {
    assert Resource(GetAllUsers) == "/users";
    assert Pieces(GetAllUsers) == [Literal("/users")];
    UsersShape();
  }

  lemma CreateUserTemplate()
    ensures Render(Pieces(CreateUser)) == Resource(CreateUser) && WellFormed(Pieces(CreateUser))
  {
    assert Resource(CreateUser) == "/users";
    assert Pieces(CreateUser) == [Literal("/users")];
    UsersShape();
  }

  lemma UserIdShape()
    ensures Render([Literal("/users/"), Placeholder("id")]) == "/users/" + "{" + "id" + "}"
    ensures WellFormed([Literal("/users/"), Placeholder("id")])
  {
    TrailingShape("/users/", "id");
  }

  lemma GetUserByIdTemplate()
    ensures Render(Pieces(GetUserById)) == Resource(GetUserById) && WellFormed(Pieces(GetUserById))
  {
    assert Resource(GetUserById) == "/users/" + "{" + "id" + "}";
    assert Pieces(GetUserById) == [Literal("/users/"), Placeholder("id")];
    UserIdShape();
  }

  lemma UpdateUserTemplate()
    ensures Render(Pieces(UpdateUser)) == Resource(UpdateUser) && WellFormed(Pieces(UpdateUser))
  {
    assert Resource(UpdateUser) == "/users/" + "{" + "id" + "}";
    assert Pieces(UpdateUser) == [Literal("/users/"), Placeholder("id")];
    UserIdShape();
  }

  lemma DeleteUserTemplate()
    ensures Render(Pieces(DeleteUser)) == Resource(DeleteUser) && WellFormed(Pieces(DeleteUser))
  {
    assert Resource(DeleteUser) == "/users/" + "{" + "id" + "}";
    assert Pieces(DeleteUser) == [Literal("/users/"), Placeholder("id")];
    UserIdShape();
  }

  lemma LoginPathShape()
    ensures Render([Literal("/auth/login")]) == "/auth/login"
    ensures WellFormed([Literal("/auth/login")])
  {
    LiteralShape("/auth/login");
  }

  lemma LoginTemplate()
    ensures Render(Pieces(Login)) == Resource(Login) && WellFormed(Pieces(Login))
  {
    assert Resource(Login) == "/auth/login";
    assert Pieces(Login) == [Literal("/auth/login")];
    LoginPathShape();
  }

  lemma RefreshPathShape()
    ensures Render([Literal("/auth/refresh-token")]) == "/auth/refresh-token"
    ensures WellFormed([Literal("/auth/refresh-token")])
  {
    LiteralShape("/auth/refresh-token");
  }

  lemma RefreshTokenTemplate()
    ensures Render(Pieces(RefreshToken)) == Resource(RefreshToken) && WellFormed(Pieces(RefreshToken))
  {
    assert Resource(RefreshToken) == "/auth/refresh-token";
    assert Pieces(RefreshToken) == [Literal("/auth/refresh-token")];
    RefreshPathShape();
  }

  lemma ProfilePathShape()
    ensures Render([Literal("/auth/profile")]) == "/auth/profile"
    ensures WellFormed([Literal("/auth/profile")])
  {
    LiteralShape("/auth/profile");
  }

  lemma ProfileTemplate()
    ensures Render(Pieces(Profile)) == Resource(Profile) && WellFormed(Pieces(Profile))
  {
    assert Resource(Profile) == "/auth/profile";
    assert Pieces(Profile) == [Literal("/auth/profile")];
    ProfilePathShape();
  }

  lemma UploadPathShape()
    ensures Render([Literal("/files/upload")]) == "/files/upload"
    ensures WellFormed([Literal("/files/upload")])
  {
    LiteralShape("/files/upload");
  }

  lemma UploadFileTemplate()
    ensures Render(Pieces(UploadFile)) == Resource(UploadFile) && WellFormed(Pieces(UploadFile))
  {
    assert Resource(UploadFile) == "/files/upload";
    assert Pieces(UploadFile) == [Literal("/files/upload")];
    UploadPathShape();
  }

  lemma FileIdShape()
    ensures Render([Literal("/files/"), Placeholder("id")]) == "/files/" + "{" + "id" + "}"
    ensures WellFormed([Literal("/files/"), Placeholder("id")])
  {
    TrailingShape("/files/", "id");
  }

  lemma GetFileTemplate()
    ensures Render(Pieces(GetFile)) == Resource(GetFile) && WellFormed(Pieces(GetFile))
  {
    assert Resource(GetFile) == "/files/" + "{" + "id" + "}";
    assert Pieces(GetFile) == [Literal("/files/"), Placeholder("id")];
    FileIdShape();
  }

  /** Every template is spelled by its pieces, and every template except the
      paginated one is well-formed: only there do two placeholders share a
      path segment, so that the greedy pattern spans both. */
  lemma CatalogTemplate(e: Endpoint)
    ensures Render(Pieces(e)) == Resource(e)
    ensures WellFormed(Pieces(e)) == (e != GetProductsPaginated)
  {
    match e
    case CreateProduct => CreateProductTemplate();
    case GetAllProducts => GetAllProductsTemplate();
    case GetProductById => GetProductByIdTemplate();
    case GetProductBySlug => GetProductBySlugTemplate();
    case UpdateProduct => UpdateProductTemplate();
    case DeleteProduct => DeleteProductTemplate();
    case GetProductsPaginated => GetProductsPaginatedTemplate();
    case GetRelatedById => GetRelatedByIdTemplate();
    case GetRelatedBySlug => GetRelatedBySlugTemplate();
    case GetAllCategories => GetAllCategoriesTemplate();
    case GetCategoryById => GetCategoryByIdTemplate();
    case CreateCategory => CreateCategoryTemplate();
    case UpdateCategory => UpdateCategoryTemplate();
    case DeleteCategory => DeleteCategoryTemplate();
    case GetAllUsers => GetAllUsersTemplate();
    case GetUserById => GetUserByIdTemplate();
    case CreateUser => CreateUserTemplate();
    case UpdateUser => UpdateUserTemplate();
    case DeleteUser => DeleteUserTemplate();
    case Login => LoginTemplate();
    case RefreshToken => RefreshTokenTemplate();
    case Profile => ProfileTemplate();
    case UploadFile => UploadFileTemplate();
    case GetFile => GetFileTemplate();
  }

  /** withParams with parameters free of braces, on any endpoint but the
      paginated one, fills its placeholders left to right: surplus parameters
      are ignored, and placeholders left without a parameter stay in the
      path verbatim. */
  lemma CatalogSubstitute(e: Endpoint, ps: seq<string>)
    requires e != GetProductsPaginated
    requires forall k :: 0 <= k < |ps| ==> Braceless(ps[k])
    ensures Substitute(Resource(e), ps) == Render(Fill(Pieces(e), ps))
  {
    CatalogTemplate(e);
    SubstituteRender(Pieces(e), ps);
  }

  /** On any endpoint but the paginated one, withParams with at least as
      many parameters as placeholders leaves no brace in the path, and with
      fewer it leaves a placeholder in the path. */
  lemma CatalogResolved(e: Endpoint, ps: seq<string>)
    requires e != GetProductsPaginated
    requires forall k :: 0 <= k < |ps| ==> Braceless(ps[k])
    ensures |ps| >= Placeholders(Pieces(e)) <==> Braceless(Substitute(Resource(e), ps))
  {
    CatalogTemplate(e);
    if |ps| >= Placeholders(Pieces(e)) {
      ResolvedHasNoBraces(Pieces(e), ps);
    } else {
      UnresolvedKeepsBrace(Pieces(e), ps);
    }
  }

  // ---------------------------------------------------------------------
  // The documented examples, and the quirks they show
  // ---------------------------------------------------------------------

  lemma ProductByIdSpelling()
    ensures Resource(GetProductById) == "/products/" + "{" + "id" + "}"
  {
  }

  lemma RelatedByIdSpelling()
    ensures Resource(GetRelatedById) == "/products/" + "{" + "id" + "}" + "/related"
  {
  }

  lemma PaginatedSpelling()
    ensures Resource(GetProductsPaginated) == "/products?offset=" + "{" + "offset" + "}" + "&limit=" + "{" + "limit" + "}"
  {
  }

  /** GET_PRODUCT_BY_ID with "123" is "/products/123", for any identifier. */
  lemma ProductByIdExample(id: string)
    ensures Substitute(Resource(GetProductById), [id]) == "/products/" + id
  {
    ProductByIdSpelling();
    SubstituteTrailing("/products/", "id", id);
  }

  /** Surplus parameters are ignored, provided the ones used bring no `{`
      of their own. */
  lemma SurplusParameterExample(id: string, extra: string)
    requires '{' !in id
    ensures Substitute(Resource(GetProductById), [id, extra]) == "/products/" + id
  {
    var s := Resource(GetProductById);
    ProductByIdExample(id);
    SubstituteOne(s, id);
    assert [id, extra][1..] == [extra];
    NoOpenNoMatch("/products/" + id);
    SubstituteSurplus("/products/" + id, [extra]);
  }

  /** The literal text before the placeholders that a parameter may reopen. */
  lemma PrefixesOpenFree()
    ensures '{' !in "/products/" && '{' !in "/products?offset="
  {
  }

  /** A parameter that itself contains a placeholder is matched again by
      the next iteration: the "surplus" parameter is then used after all. */
  lemma BracedParameterResubstituted(n: string, id: string)
    requires n != [] && '/' !in n
    ensures Substitute(Resource(GetProductById), ["{" + n + "}", id]) == "/products/" + id
  {
    var s, ps := Resource(GetProductById), ["{" + n + "}", id];
    ProductByIdExample(ps[0]);
    SubstituteOne(s, ps[0]);
    assert ps[1..] == [id];
    assert Substitute(s, ps) == Substitute(ReplaceFirst(s, ps[0]), [id]);
    var x := "/products/";
    assert x + ps[0] == x + "{" + n + "}";
    PrefixesOpenFree();
    SubstituteTrailing(x, n, id);
  }

  /** The match stops at the next slash: the text after the placeholder stays. */
  lemma RelatedByIdExample(id: string)
    ensures Substitute(Resource(GetRelatedById), [id]) == "/products/" + id + "/related"
  {
    RelatedByIdSpelling();
    SubstituteInner("/products/", "id", "/related", id);
  }

  /** The paginated template is matched from its first `{` to its last `}`:
      the first parameter replaces "{offset}&limit={limit}" as a whole and
      the limit is silently dropped. */
  lemma PaginatedExample(offset: string, limit: string)
    requires '{' !in offset
    ensures Substitute(Resource(GetProductsPaginated), [offset, limit]) == "/products?offset=" + offset
  {
    PaginatedSpelling();
    SubstituteSpanning("/products?offset=", "offset", "&limit=", "limit", offset, limit);
  }

  /** With a single parameter the paginated template loses both
      placeholders: no `{limit}` is left for a missing limit. */
  lemma PaginatedSingleParameter(offset: string)
    ensures Substitute(Resource(GetProductsPaginated), [offset]) == "/products?offset=" + offset
  {
    var s := Resource(GetProductsPaginated);
    var tail := "{offset}&limit={limit}";
    assert s == "/products?offset=" + tail by { PaginatedSpelling(); }
    assert '{' !in "/products?offset=";
    assert '/' !in tail;
    SubstituteOne(s, offset);
    ReplaceFirstAfterPrefix("/products?offset=", tail, offset);
    ReplaceFirstWhole(tail, offset);
  }

  /** An offset holding a placeholder is matched again, so the limit is
      used after all. */
  lemma PaginatedBracedOffset(n: string, limit: string)
    requires n != [] && '/' !in n
    ensures Substitute(Resource(GetProductsPaginated), ["{" + n + "}", limit]) == "/products?offset=" + limit
  {
    var s, ps := Resource(GetProductsPaginated), ["{" + n + "}", limit];
    PaginatedSingleParameter(ps[0]);
    SubstituteOne(s, ps[0]);
    assert ps[1..] == [limit];
    assert Substitute(s, ps) == Substitute(ReplaceFirst(s, ps[0]), [limit]);
    var x := "/products?offset=";
    assert x + ps[0] == x + "{" + n + "}";
    PrefixesOpenFree();
    SubstituteTrailing(x, n, limit);
  }

  /** The documented example of withQueryParams. */
  lemma QueryExample()
    ensures WithQuery(Resource(GetAllProducts), ["offset=0", "limit=10"]) == "/products?offset=0&limit=10"
  {
    assert ["offset=0", "limit=10"][..1] == ["offset=0"];
  }

  /** A `?` is appended even when the template already holds one. */
  lemma QueryOnPaginatedExample(q: string)
    ensures WithQuery(Resource(GetProductsPaginated), [q]) == "/products?offset={offset}&limit={limit}" + "?" + q
  {
  }
}
