# PlatziFakeStore test harness core, in Dafny

This project models the harness layer of the PlatziFakeStore API test suite and proves properties of it. The layer has four parts:

- **APIResources**: the endpoint catalog. An enum maps each endpoint to a URL template. `withParams` fills path parameters with repeated `replaceFirst("\\{[^/]+}", param)`. `withQueryParams` appends a query string.
- **BaseAPI**: the specification cache. A per-thread request specification and six response specifications (200, 201, 204, 400, 401, 404) are built lazily from the configuration and cached. `resetSpecs` drops them. Three derivations add headers or path parameters.
- **ConfigManager**: configuration lookup. A system property overrides the properties file, and a missing key is an error that names the key. The typed getters use `Integer.parseInt` and `Boolean.parseBoolean`.
- **TokenManager**: the cached access and refresh tokens, and `clearTokens`. The login and refresh design that is commented out in the source is modelled as well, and labelled as such.

Files and modules:

| file | module | contents |
|---|---|---|
| `wrappers.dfy` | `Wrappers` | `Option` and `Result` |
| `placeholder_regex.dfy` | `PlaceholderRegex` | Java's `replaceFirst` with the pattern `\{[^/]+}`: leftmost match, then greedy longest match, which cannot cross a `/` |
| `path_templates.dfy` | `PathTemplates` | Templates as literal pieces and named placeholders, and the theorem that `withParams` with braceless parameters fills a well-formed template left to right |
| `api_resources.dfy` | `ApiResources` | The catalog table, `WithParams` (the source's loop), `WithQueryParams` (the string-builder loop), and reading the query string back |
| `catalog.dfy` | `Catalog` | Every template of the table, checked against the template theory; the documented examples and quirks |
| `config_manager.dfy` | `ConfigManager` | `getProperty`, `parseInt`, `parseBoolean` and the sixteen typed getters |
| `base_api.dfy` | `BaseApi` | Specification records and the `SpecCache` class |
| `token_manager.dfy` | `Auth` | The `TokenManager` class and the commented-out login/refresh steps |

Modelling choices:

- **The regex.** `PlaceholderRegex` states declaratively which match Java's engine reports: no match starts further left, and no longer match starts at the same place. `FirstMatch` finds that match and is proved to meet the statement. `ReplaceFirst` splices the replacement in.
- **Templates.** A template is well-formed when two things hold:
  - its literal text has no braces;
  - after each placeholder, no `}` appears before the next `/`.

  On a well-formed template, and with parameters that contain no braces, `withParams` fills the placeholders in order. Surplus parameters are ignored, and placeholders left without a parameter stay in the path verbatim. A parameter that contains a `{...}` is matched again by the next iteration, so a "surplus" parameter can then be used after all. The paginated template `/products?offset={offset}&limit={limit}` is the only catalog entry that is not well-formed. There the first match runs from `{offset}` to `{limit}`, so `withParams("0", "10")` gives `/products?offset=0`, and so does `withParams("0")`: no `{limit}` is left behind.
- **Threads.** `ThreadLocal` becomes a map from an explicit context id. `resetSpecs(ctx)` removes only that context's entry, as `ThreadLocal.remove()` does.
- **Exceptions.** A configuration exception is a `Failure` result. A getter that fails caches nothing.
- **Behaviour of the code worth knowing.**
  - The 204 specification expects no content type.
  - The response-time bound is the constant 3000 ms, not a configured value.
  - `resetSpecs` clears only the calling thread's request specification.
  - `withParams` never fails on a wrong number of parameters. For parameters without braces, on every template but the paginated one, extra parameters are dropped and missing ones leave their placeholders in the path (see Templates above for the exceptions).
  - A blank property value is returned as it is. Only an absent key is an error, because `getProperty` tests for `null` only.

## Model

| member | source | states |
|---|---|---|
| `ApiResources.Resource` | src/main/java/PlatziFakeStore/base/APIResources.java:12-54 | `getResource()` returns the template each constant was declared with, and every template is an absolute path |
| `ApiResources.WithParams` | src/main/java/PlatziFakeStore/base/APIResources.java:61-67 | The loop's result is `Substitute(template, params)`: each parameter in turn replaces the first remaining placeholder match (loop invariant) |
| `ApiResources.WithQueryParams` | src/main/java/PlatziFakeStore/base/APIResources.java:74-86 | The string-builder loop returns the template unchanged for no parameters, and otherwise the template, `?` and the parameters joined by `&` |
| `ApiResources.QueryRoundTrip` | src/main/java/PlatziFakeStore/base/APIResources.java:74-86 | The result starts with the raw template and one `?`, and splitting the rest at `&` gives the parameters back in order (when none contains `&`) |
| `ApiResources.FieldsJoined` | src/main/java/PlatziFakeStore/base/APIResources.java:78-83 | Splitting the `&`-joined parameters at `&` is the inverse of joining them |
| `PlaceholderRegex.FirstMatch` | src/main/java/PlatziFakeStore/base/APIResources.java:64 | The search finds the leftmost match of `\{[^/]+}` and, at that start, the longest one; it finds none exactly when the pattern does not occur |
| `PlaceholderRegex.FirstMatchUnique` | src/main/java/PlatziFakeStore/base/APIResources.java:64 | The leftmost-longest match is unique |
| `PlaceholderRegex.ReplaceFirst` | src/main/java/PlatziFakeStore/base/APIResources.java:64 | `replaceFirst` returns the string unchanged when nothing matches, and otherwise splices the parameter in place of the leftmost-longest match |
| `PlaceholderRegex.NoOpenNoMatch` | src/main/java/PlatziFakeStore/base/APIResources.java:64 | Text without `{` has no match |
| `PlaceholderRegex.ReplaceFirstAfterPrefix` | src/main/java/PlatziFakeStore/base/APIResources.java:64 | A prefix without `{` does not move the replaced match |
| `PlaceholderRegex.ReplaceFirstWhole` | src/main/java/PlatziFakeStore/base/APIResources.java:64 | A string that runs from `{` to `}` with no `/` is replaced as a whole |
| `PathTemplates.SubstituteNone` | src/main/java/PlatziFakeStore/base/APIResources.java:61-67 | With no parameters, `withParams` returns the template unchanged |
| `PathTemplates.SubstituteSurplus` | src/main/java/PlatziFakeStore/base/APIResources.java:63-65 | Once nothing matches, further parameters change nothing and raise no error |
| `PathTemplates.ReplaceFirstRender` | src/main/java/PlatziFakeStore/base/APIResources.java:64 | One `replaceFirst` on a well-formed template fills exactly its first placeholder |
| `PathTemplates.SubstituteRender` | src/main/java/PlatziFakeStore/base/APIResources.java:61-67 | On a well-formed template and with parameters that contain no braces, `withParams` fills placeholders left to right, ignores surplus parameters and leaves unfilled placeholders verbatim |
| `PathTemplates.FillCount` | src/main/java/PlatziFakeStore/base/APIResources.java:61-67 | `Fill` with k parameters fills min(k, n) of n placeholders, and the other n - k remain (by `SubstituteRender`, this is what `withParams` does on a well-formed template with braceless parameters) |
| `PathTemplates.ResolvedHasNoBraces` | src/main/java/PlatziFakeStore/base/APIResources.java:61-67 | On a well-formed template, with at least as many braceless parameters as placeholders, the result has no braces |
| `PathTemplates.UnresolvedKeepsBrace` | src/main/java/PlatziFakeStore/base/APIResources.java:61-67 | On a well-formed template and with braceless parameters, fewer parameters than placeholders leave a `{` in the result |
| `PathTemplates.SubstituteTrailing` | src/main/java/PlatziFakeStore/base/APIResources.java:61-67 | For a prefix x without `{`, `x{n}` with one parameter p gives `x` + p |
| `PathTemplates.SubstituteInner` | src/main/java/PlatziFakeStore/base/APIResources.java:61-67 | For a prefix x without `{`, `x{n}y`, where y starts with `/`, gives `x` + p + `y`: the match stops at the slash |
| `PathTemplates.SubstituteSpanning` | src/main/java/PlatziFakeStore/base/APIResources.java:61-67 | For a prefix x and a first parameter p both without `{`, `x{n}y{m}` with no slash between the placeholders gives `x` + p: one greedy match swallows both, and the second parameter finds nothing |
| `Catalog.CatalogTemplate` | src/main/java/PlatziFakeStore/base/APIResources.java:12-43 | Every template is spelled by its pieces, and every template except the paginated one is well-formed |
| `Catalog.GetProductsPaginatedTemplate` | src/main/java/PlatziFakeStore/base/APIResources.java:18 | The paginated template is not well-formed: two placeholders share one path segment |
| `Catalog.GetProductByIdTemplate` | src/main/java/PlatziFakeStore/base/APIResources.java:14 | `/products/{id}` is a literal followed by one placeholder, and is well-formed |
| `Catalog.CatalogSubstitute` | src/main/java/PlatziFakeStore/base/APIResources.java:61-67 | For every endpoint except the paginated one, and parameters that contain no braces, `withParams` is "fill the placeholders left to right" |
| `Catalog.CatalogResolved` | src/main/java/PlatziFakeStore/base/APIResources.java:61-67 | For those endpoints and parameters, the path has no braces exactly when there are at least as many parameters as placeholders |
| `Catalog.ProductByIdExample` | src/main/java/PlatziFakeStore/base/APIResources.java:56-67 | For any id without `$` or `\`, `GET_PRODUCT_BY_ID.withParams(id)` is `/products/` + id |
| `Catalog.SurplusParameterExample` | src/main/java/PlatziFakeStore/base/APIResources.java:63-65 | An extra parameter is silently ignored, when the identifier contains no `{` |
| `Catalog.BracedParameterResubstituted` | src/main/java/PlatziFakeStore/base/APIResources.java:63-65 | A first parameter that is itself a placeholder `{n}` is matched again: `GET_PRODUCT_BY_ID.withParams("{n}", id)` is `/products/` + id |
| `Catalog.RelatedByIdExample` | src/main/java/PlatziFakeStore/base/APIResources.java:19 | For any id without `$` or `\`, `GET_RELATED_BY_ID.withParams(id)` is `/products/` + id + `/related`: the match does not cross the slash |
| `Catalog.PaginatedExample` | src/main/java/PlatziFakeStore/base/APIResources.java:18 | For an offset without `{`, `GET_PRODUCTS_PAGINATED.withParams(offset, limit)` is `/products?offset=` + offset, and the limit is dropped |
| `Catalog.PaginatedSingleParameter` | src/main/java/PlatziFakeStore/base/APIResources.java:18 | `GET_PRODUCTS_PAGINATED.withParams(offset)` is `/products?offset=` + offset for any offset without `$` or `\`: the missing limit leaves no placeholder behind |
| `Catalog.PaginatedBracedOffset` | src/main/java/PlatziFakeStore/base/APIResources.java:63-65 | An offset that is itself a placeholder `{n}` is matched again, so `withParams("{n}", limit)` is `/products?offset=` + limit |
| `Catalog.QueryExample` | src/main/java/PlatziFakeStore/base/APIResources.java:69-74 | The documented example: `/products` with `offset=0`, `limit=10` gives `/products?offset=0&limit=10` |
| `Catalog.QueryOnPaginatedExample` | src/main/java/PlatziFakeStore/base/APIResources.java:74-86 | `?` is appended even when the template already contains one |
| `ConfigManager.GetProperty` | src/main/java/PlatziFakeStore/config/ConfigManager.java:102-108 | A lookup succeeds exactly when the key is in the file or among the system properties, and returns the value of the file overridden by the system properties; otherwise it fails naming the key |
| `ConfigManager.SystemOverridesFile` | src/main/java/PlatziFakeStore/config/ConfigManager.java:103 | A system property wins over the file |
| `ConfigManager.FileFallback` | src/main/java/PlatziFakeStore/config/ConfigManager.java:103 | Without a system property, the file value is returned |
| `ConfigManager.BlankValueReturned` | src/main/java/PlatziFakeStore/config/ConfigManager.java:102-108 | A present but blank value is returned, not rejected: only a missing key is an error |
| `ConfigManager.OverrideIsLocal` | src/main/java/PlatziFakeStore/config/ConfigManager.java:102-108 | Setting one system property changes the lookup of that key and of no other |
| `ConfigManager.MessageNamesKey` | src/main/java/PlatziFakeStore/config/ConfigManager.java:104-106 | The missing-key error message ends with the key |
| `ConfigManager.ParseInt` | src/main/java/PlatziFakeStore/config/ConfigManager.java:55-61 | `Integer.parseInt` succeeds only on a numeral, and every failure reports the input string |
| `ConfigManager.NotNumeralRejected` | src/main/java/PlatziFakeStore/config/ConfigManager.java:55-61 | Anything but an optional sign followed by digits is a NumberFormatException |
| `ConfigManager.ParseIntRoundTrip` | src/main/java/PlatziFakeStore/config/ConfigManager.java:55-61 | `parseInt` reads back every 32-bit integer that `Integer.toString` writes |
| `ConfigManager.ParseIntRange` | src/main/java/PlatziFakeStore/config/ConfigManager.java:75-93 | 2147483648 is rejected, while -2147483648 is accepted |
| `ConfigManager.LeadingZeroIgnored` | src/main/java/PlatziFakeStore/config/ConfigManager.java:55-61 | A leading zero changes neither the value nor whether it is accepted |
| `ConfigManager.SameIgnoringCaseLower` | src/main/java/PlatziFakeStore/config/ConfigManager.java:67-73 | The per-character test of `equalsIgnoreCase` is equality of lower cases |
| `ConfigManager.ParseBoolLower` | src/main/java/PlatziFakeStore/config/ConfigManager.java:67-73 | `Boolean.parseBoolean` is true exactly when the value, lower-cased, is `true` |
| `ConfigManager.ParseBoolExamples` | src/main/java/PlatziFakeStore/config/ConfigManager.java:95-97 | `TRUE` and `True` are true; `yes`, `1`, the empty string and `true ` are false |
| `ConfigManager.GetterOutcome` | src/main/java/PlatziFakeStore/config/ConfigManager.java:35-97 | Each getter reads its one key. It fails with that key exactly when the key is absent. A text getter returns the value, and a flag getter never fails otherwise. A number getter returns the parsed value or fails reporting the value |
| `ConfigManager.NumberGetterNeedsNumeral` | src/main/java/PlatziFakeStore/config/ConfigManager.java:55-93 | A number getter that succeeds has read a present decimal numeral |
| `BaseApi.RequestSpecFromConfig` | src/main/java/PlatziFakeStore/base/BaseAPI.java:58-70 | A built request spec has the configured base URL, JSON, and the connection and read timeouts; it logs exactly when request logging is on; it fails exactly when one of those four getters fails |
| `BaseApi.MissingBaseUrlFirst` | src/main/java/PlatziFakeStore/base/BaseAPI.java:58-59 | A missing `base.url` is the error reported, before any other key is read |
| `BaseApi.ResponseSpecFromConfig` | src/main/java/PlatziFakeStore/base/BaseAPI.java:135-243 | Each built response spec expects its slot's status and a response under 3000 ms, and JSON for every slot but 204. It logs exactly when response logging is on, and fails only when `log.response` is missing |
| `BaseApi.StatusCodesDistinct` | src/main/java/PlatziFakeStore/base/BaseAPI.java:135-243 | The six slots expect six different statuses |
| `BaseApi.InheritRoundTrip` | src/main/java/PlatziFakeStore/base/BaseAPI.java:99-100 | `with().spec(base)` takes over every setting of the base: reading the settings back gives the base |
| `BaseApi.DerivedKeepsBase` | src/main/java/PlatziFakeStore/base/BaseAPI.java:98-126 | Each derivation keeps the base URL, content type, timeouts and logging of the cached spec, and adds exactly the given header, headers or path parameters and nothing of the other kind |
| `BaseApi.CustomHeaderIsOneHeader` | src/main/java/PlatziFakeStore/base/BaseAPI.java:98-114 | One custom header is the one-entry case of a header map |
| `BaseApi.SpecCache.constructor` | src/main/java/PlatziFakeStore/base/BaseAPI.java:31-39 | All slots start empty |
| `BaseApi.SpecCache.GetRequestSpec` | src/main/java/PlatziFakeStore/base/BaseAPI.java:55-77 | A context's spec is built only when its slot is empty, then stored; otherwise the stored spec is returned whatever the configuration says. Response slots are untouched |
| `BaseApi.SpecCache.GetResponseSpec` | src/main/java/PlatziFakeStore/base/BaseAPI.java:135-243 | The shared getter body builds only into an empty slot, keeps the slot invariant, and writes no other slot. Any spec it returns expects the slot's status, a response under 3000 ms, and JSON except for 204 |
| `BaseApi.SpecCache.GetOkResponseSpec` | src/main/java/PlatziFakeStore/base/BaseAPI.java:135-149 | Returns the cached 200 spec, or builds and caches it. Any spec returned expects status 200, JSON and a response under 3000 ms. The other five slots and the request specs are unchanged |
| `BaseApi.SpecCache.GetCreatedResponseSpec` | src/main/java/PlatziFakeStore/base/BaseAPI.java:154-168 | The same for the 201 slot |
| `BaseApi.SpecCache.GetNoContentResponseSpec` | src/main/java/PlatziFakeStore/base/BaseAPI.java:173-186 | The same for the 204 slot, whose spec expects no content type |
| `BaseApi.SpecCache.GetBadRequestResponseSpec` | src/main/java/PlatziFakeStore/base/BaseAPI.java:191-205 | The same for the 400 slot |
| `BaseApi.SpecCache.GetUnauthorizedResponseSpec` | src/main/java/PlatziFakeStore/base/BaseAPI.java:210-224 | The same for the 401 slot |
| `BaseApi.SpecCache.GetNotFoundResponseSpec` | src/main/java/PlatziFakeStore/base/BaseAPI.java:229-243 | The same for the 404 slot |
| `BaseApi.SpecCache.ResetSpecs` | src/main/java/PlatziFakeStore/base/BaseAPI.java:248-256 | Removes the calling context's request spec and empties all six response slots |
| `BaseApi.SpecCache.GetCustomHeaderRequestSpec` | src/main/java/PlatziFakeStore/base/BaseAPI.java:98-102 | Returns the context's cached spec with one header added. When the context had no spec, the spec built from the configuration is stored and used; a failed build returns its error and stores nothing. Other contexts and the response slots are unchanged |
| `BaseApi.SpecCache.WithHeaders` | src/main/java/PlatziFakeStore/base/BaseAPI.java:110-114 | Returns the context's cached spec with a header map added. When the context had no spec, the spec built from the configuration is stored and used; a failed build returns its error and stores nothing. Other contexts and the response slots are unchanged |
| `BaseApi.SpecCache.WithPathParams` | src/main/java/PlatziFakeStore/base/BaseAPI.java:122-126 | Returns the context's cached spec with a path-parameter map added. When the context had no spec, the spec built from the configuration is stored and used; a failed build returns its error and stores nothing. Other contexts and the response slots are unchanged |
| `BaseApi.StaleUntilReset` | src/main/java/PlatziFakeStore/base/BaseAPI.java:55-77 | A built request spec is returned again after the configuration changes, until `resetSpecs`; then the current configuration is used |
| `BaseApi.ContextsIndependent` | src/main/java/PlatziFakeStore/base/BaseAPI.java:30-31 | Two contexts each build their own request spec from their own configuration |
| `BaseApi.ResponseSpecMemoised` | src/main/java/PlatziFakeStore/base/BaseAPI.java:229-256 | The same response spec returns until reset; resetting twice is resetting once; the next call rebuilds |
| `Auth.TokenManager.constructor` | src/main/java/PlatziFakeStore/auth/TokenManager.java:13-14 | Both tokens start absent |
| `Auth.TokenManager.ClearTokens` | src/main/java/PlatziFakeStore/auth/TokenManager.java:74-77 | Both tokens become absent, whatever they were |
| `Auth.ClearThenGet` | src/main/java/PlatziFakeStore/auth/TokenManager.java:74-77 | Clearing twice is safe, and after a clear the next `getAccessToken` logs in (commented-out design) |
| `Auth.LoginPairsTokens` | src/main/java/PlatziFakeStore/auth/TokenManager.java:33-45 | (Commented-out design) A login is one exchange. It either stores both tokens of the same 200 response, or fails and leaves the tokens as they were |
| `Auth.CachedTokenNoLogin` | src/main/java/PlatziFakeStore/auth/TokenManager.java:23-28 | (Commented-out design) A cached access token is returned with no exchange and no change |
| `Auth.SecondGetIsCached` | src/main/java/PlatziFakeStore/auth/TokenManager.java:23-28 | (Commented-out design) After a login that yielded an access token, the next `getAccessToken` makes no exchange |
| `Auth.NullAccessTokenLogsInAgain` | src/main/java/PlatziFakeStore/auth/TokenManager.java:23-45 | (Commented-out design) A 200 login reply without an access token makes the next `getAccessToken` log in again |
| `Auth.RefreshWithoutTokenLogsIn` | src/main/java/PlatziFakeStore/auth/TokenManager.java:51-55 | (Commented-out design) Refreshing without a refresh token is exactly a login |
| `Auth.RefreshOutcome` | src/main/java/PlatziFakeStore/auth/TokenManager.java:57-68 | (Commented-out design) A refresh first sends the refresh token. On 200 it replaces both tokens from the reply and does not log in. On any other status it ends as a login would |
| `Auth.AtMostOneLogin` | src/main/java/PlatziFakeStore/auth/TokenManager.java:23-69 | (Commented-out design) `getAccessToken` makes at most one exchange, and a refresh at most two, with at most one login |
| `Auth.TokenManager.LoginAndCacheTokens` | src/main/java/PlatziFakeStore/auth/TokenManager.java:33-45 | (Commented-out design) The method's new state, exchanges and error are those of `LoginStep` |
| `Auth.TokenManager.GetAccessToken` | src/main/java/PlatziFakeStore/auth/TokenManager.java:23-28 | (Commented-out design) The method's new state and exchanges are those of `GetAccessTokenStep`, and it returns the access token held afterwards |
| `Auth.TokenManager.RefreshAccessToken` | src/main/java/PlatziFakeStore/auth/TokenManager.java:51-69 | (Commented-out design) The method's new state, exchanges and error are those of `RefreshStep` |

## Left out

- `getAuthorizedRequestSpec` (BaseAPI.java:84-88): it calls `TokenManager.getToken()`, which does not exist in the code.
- The test classes, the client classes, `BaseTest` and the model classes. They issue HTTP calls, or hold plain data without logic.
- Loading `config.properties` (the static initializer) is file I/O. Both property tables are inputs, and the `Properties` file syntax is not modelled.
- Threads: `ThreadLocal` is a map keyed by an explicit context id. Nothing models concurrent access to the unsynchronised static fields.
- RestAssured internals: the builders are records. Logging is a flag. Headers and path parameters are maps, so their order and repeated header values are not modelled.
- `ApiResources.WithParams`: parameters containing `$` or `\` are excluded by a precondition. `replaceFirst` gives those characters a special meaning in a replacement (group references and escapes), and that meaning is not modelled. Every statement here about `withParams` is about parameters without those two characters.
- `ConfigManager.GetProperty`: looks the empty key up like any other, whereas `System.getProperty("")` throws `IllegalArgumentException`. No getter passes an empty key.
- `ConfigManager.ParseInt`: accepts only the ASCII digits 0-9. Java's `Character.digit` also accepts other Unicode decimal digits.
- `ConfigManager.SameIgnoringCase`: uses ASCII case mappings only. Comparing against `true` gives the same answer as Java's full Unicode mappings, because no other character maps to one of its letters.
- `Auth.LoginStep`: the login reply is checked against status 200 only. The 200 specification's JSON and 3000 ms checks are not applied to it, because replies carry no content type or timing here.
- The commented-out TokenManager code does not compile: `Response res = AuthClient` is unfinished, and `refreshAccessToken` calls `loginAndCacheTokens()` without the credentials it takes. The model passes the server's replies as parameters, so credentials do not appear.
