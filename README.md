# Recipes API core, modelled in Dafny

A model of the statable logic of a Gin/Mongo/Redis recipes API written in Go:

- **Cache-aside recipe coordinator** (`RecipesHandler`, handlers/handler.go): the
  recipes collection and the single Redis key `"recipes"` are the fields of the
  class `CacheAside.RecipesHandler`. A list is served from the key on a hit; on a
  miss it reads the whole collection and stores it under the key with no expiry.
  Every successful create, update or delete deletes the key. The invariant
  `Coherent()` ("a present cache entry equals the collection") is kept by every
  handler whose key deletion succeeds. When that deletion fails (the handlers
  ignore its error) a present entry is left behind: after a create it is always
  stale, after an update it is stale unless the update changed nothing, and after
  a delete it is stale exactly when a recipe with the id existed.
- **Credentials and tokens** (handlers/auth.go): sign-up with its byte-length
  check and its lookup-then-insert on the users collection, sign-in, the RFC 7519
  claims `sub`, `iss`, `exp`, `iat` issued with a ten-minute lifetime, and
  refresh, which accepts a valid token only in the last thirty seconds of its
  life and re-signs its claims with only `exp` moved to five minutes from now.
  SHA-256, HS256 signing (section 3.2 of RFC 7518) and token parsing are
  function-valued fields of `Jwt.Crypto`, so every property holds for any
  hashing, signing and parsing functions.
- **Access gates** (middlewares.go): the API-key gate and the JWT gate as
  functions of the request headers, the environment and the parser, acting on a
  model of gin's context in which `Next` runs the handler only if the context
  was not aborted.
- **main.go handlers**, the ones main.go's router actually serves: uncached list,
  create and update on the collection, the stubbed get and delete, and the tag
  search loop. The search scans the package-level `recipes` slice, which no live
  code fills: it is a field of `DemoServer.Server` that starts empty and that no
  handler modifies, so in the running program every search answers `[]`.

Every failure an external store or library can report is a parameter of the
handler: `Option<string>` carries the error text of a Mongo or Redis call
(`None` is success), `Outcome<T>` a bound request body or a signed token. The
clock is an integer number of seconds, passed in. Store operations act on the
collection as a sequence in its natural iteration order; new documents are
appended. The ObjectID generator is a counter field, so generated ids are
positive and distinct; a path parameter that is not valid hex is the nil id `0`,
which matches no stored recipe.

Files: `http.dfy` (Option, Outcome, Response, statuses), `recipes.dfy` (records
and collection operations), `cache_aside.dfy`, `jwt.dfy` (claims and the
crypto interface), `auth.dfy`, `gates.dfy`, `demo_server.dfy`.

## Model

| member | source | states |
|---|---|---|
| `Recipes.IndexOf` | handlers/handler.go:134-135 | the filter `{"_id": id}` selects the first document with that id, and -1 exactly when no document has it |
| `Recipes.UpdateFirst` | handlers/handler.go:98-105 | the `$set` update keeps length, every id and every `PublishedAt`, leaves recipes with other ids untouched, gives the recipe with the id exactly the new name, instructions, ingredients and tags, keeps ids unique, and changes nothing when no recipe has the id |
| `Recipes.RemoveFirst` | handlers/handler.go:119-120 | the delete shortens the collection by one exactly when the id is present, removing one document with that id and keeping the others in order, and with unique ids leaves exactly the recipes with other ids |
| `Recipes.RemoveFirstChanges` | handlers/handler.go:119-120 | a delete changes the collection exactly when some document has the id |
| `Recipes.AppendFresh` | handlers/handler.go:74-77 | inserting a recipe with a newly generated id keeps ids unique and the id was not present before |
| `Recipes.NilIdMatchesNothing` | handlers/handler.go:98-99 | an id whose hex decoding failed (nil ObjectID) makes update and delete leave the collection unchanged |
| `Recipes.ReadAll` | handlers/handler.go:45-50 | the cursor loop returns every document of the collection in iteration order |
| `CacheAside.RecipesHandler.constructor` | handlers/handler.go:23-29 | a handler over a given collection and cache state |
| `CacheAside.RecipesHandler.ListRecipes` | handlers/handler.go:31-65 | a hit returns the cached list and changes nothing; a non-miss cache error is a 500 that touches neither store nor cache; a miss with a failing query is a 500 with the key still absent; a miss returns the whole collection and sets the key to it (when the set succeeds); coherence is preserved and a coherent handler never replies with anything but the collection |
| `CacheAside.RecipesHandler.NewRecipe` | handlers/handler.go:67-88 | a bad body is a 400 changing nothing; a failed insert is a 500 leaving collection and cache; a success appends exactly one recipe with a fresh id and `PublishedAt = now`, replies 201 with it and deletes the key; a successful write with a successful delete leaves the handler coherent, and with a failed delete leaves a stale entry |
| `CacheAside.RecipesHandler.UpdateRecipe` | handlers/handler.go:90-115 | a bad body is a 400 and a store error a 500, both changing nothing; otherwise the collection becomes the four-field overwrite of the recipe with the id, the reply is 200 (also when no recipe has the id) and the key is deleted; a successful key deletion leaves the handler coherent, and a failed one leaves a present entry coherent iff the update changed nothing |
| `CacheAside.RecipesHandler.DeleteRecipe` | handlers/handler.go:117-130 | a store error is a 500 with the cache untouched; otherwise the recipe with the id is removed, no recipe with the id remains, the reply is 200 and the key is deleted; a successful key deletion leaves the handler coherent, and a failed one leaves a present entry stale iff a recipe with the id existed |
| `CacheAside.RecipesHandler.GetOneRecipe` | handlers/handler.go:132-144 | replies 200 with a stored recipe carrying the id iff one exists; a missing recipe is a 500 with Mongo's no-documents text, a query error a 500 with its text |
| `Auth.Utf8LengthBounds` | handlers/auth.go:40 | the byte length `len` measures lies between the character count and four times it |
| `Auth.Utf8LengthOfAscii` | handlers/auth.go:40 | for an ASCII password the byte length is the character count |
| `Auth.PasswordLengthCheck` | handlers/auth.go:40-43 | a password of five or more characters passes the length check; an ASCII one is rejected iff it has fewer than five |
| `Auth.TwoByteCharactersPassEarly` | handlers/auth.go:40 | since bytes are counted, a three-character password of two-byte characters passes |
| `Auth.IssueClaims` | handlers/auth.go:66-72 | issued claims carry the username as `sub`, `"recipes_api_gin"` as `iss`, `iat = now` and an expiry ten minutes after `iat` |
| `Auth.Refreshed` | handlers/auth.go:154-155 | refreshed claims keep `sub`, `iss` and `iat` and only set `exp` to now plus five minutes |
| `Auth.RefreshToken` | handlers/auth.go:136-165 | a header that fails parsing or validity gets 401 "unauthorized"; a valid token with more than thirty seconds left gets 401 "token not yet expired"; otherwise the refreshed claims are signed and returned with 200, or the signing error is a 500 |
| `Auth.RefreshChainKeepsIdentity` | handlers/auth.go:149-156 | after any number of refreshes the subject, issuer and issued-at are the original ones and the expiry is five minutes after the last refresh |
| `Auth.RefreshNotEarly` | handlers/auth.go:150 | an issued token is not refreshable during its first 570 seconds, a refreshed one not during its first 270 |
| `Auth.OriginalStaysRefreshable` | handlers/auth.go:150-155 | once a token is refreshable it stays so later, and each refresh of it carries the original `iat`: the original token can be refreshed repeatedly |
| `Auth.RefreshBand` | handlers/auth.go:141-153 | with a parser that rejects expired tokens, a valid token is refreshable iff 0 < exp - now <= 30 |
| `Auth.PairCheckAdmitsDuplicateName` | handlers/auth.go:47-50 | the (username, digest) check does not refuse a second user named like an existing one, and inserting it breaks username uniqueness |
| `Auth.NameCheckKeepsNamesUnique` | handlers/auth.go:47-58 | guarding the insert by the username alone keeps usernames unique |
| `Auth.AuthHandler.constructor` | handlers/auth.go:25-30 | a handler over a given users collection |
| `Auth.AuthHandler.SignUp` | handlers/auth.go:32-82 | a bad body and a short password are 400s with no lookup or insert; a lookup error is a 500 with no insert; an existing (username, digest) pair is a 400; an insert error is a 500 with nothing inserted; otherwise exactly the credential (username, digest) is appended and the issued claims are signed, 201 |
| `Auth.AuthHandler.SignUpUniqueName` | handlers/auth.go:32-82 | sign-up with the lookup on the username: refuses a taken name, otherwise behaves as `SignUp`, and preserves unique usernames |
| `Auth.AuthHandler.SignIn` | handlers/auth.go:84-134 | a bad body is a 400; the reply is 400 "invalid username or password" iff the lookup fails or the (username, digest) pair is not stored; a 200 carries the signature of the claims issued for the username at `now`; a stored pair with no lookup error always gets that token with 200, or the signing error as a 500 |
| `Auth.RegisteredUserSignsIn` | handlers/auth.go:99-108 | sign-in hashes as sign-up stored: a stored credential signs in with its password and gets the token a sign-up at that instant would issue |
| `Gates.AbortIsFinal` | middlewares.go:27-40 | after an abort no later abort or `Next` lets the handler run (both gates are defined as such runs of steps) |
| `Gates.ApiKeyGate` | middlewares.go:11-19 | the handler runs iff the `X-API-KEY` header equals the `X_API_KEY` setting exactly; otherwise the request is aborted with 401 |
| `Gates.ApiKeyUnsetAdmitsBareRequest` | middlewares.go:13 | a request without the header is admitted iff no key is configured |
| `Gates.JwtGate` | middlewares.go:21-42 | the handler runs iff parsing returned no error and a non-nil valid token; otherwise the context is aborted with 401, although the gate never returns early |
| `Gates.JwtGateIgnoresClaims` | middlewares.go:38-40 | the decision depends only on the parse error and the validity flag, never on the claims |
| `DemoServer.EqualFoldIsEquivalence` | main.go:215 | case-insensitive comparison is reflexive, symmetric and transitive |
| `DemoServer.Server.SearchRecipes` | main.go:208-225 | the nested loop over the package slice with its `found` flag returns exactly the recipes of the slice that match the tag, in slice order, and `[]` while the slice is empty |
| `DemoServer.FilterCount` | main.go:213-220 | each recipe occurs in the result as often as in the source if one of its tags matches, else never: several matching tags do not repeat it |
| `DemoServer.FilterMembership` | main.go:212-221 | a recipe is in the result iff it is in the source and has a tag equal to the query up to case |
| `DemoServer.FilterAppend` | main.go:212-222 | searching a concatenation concatenates the searches, so relative order is preserved |
| `DemoServer.FilterEmpty` | main.go:210-224 | the result is the empty list iff no recipe matches |
| `DemoServer.SearchIgnoresQueryCase` | main.go:209-215 | queries that differ only in case return the same recipes |
| `DemoServer.Server.constructor` | main.go:262-267 | a server over a given collection whose package `recipes` slice is empty, since its fill in `init` is commented out |
| `DemoServer.Server.ListRecipes` | main.go:58-75 | a query error is a 500; otherwise the whole collection in iteration order, 200 |
| `DemoServer.Server.NewRecipe` | main.go:88-106 | a bad body is a 400 and an insert error a 500, both inserting nothing; otherwise exactly one recipe with a fresh id and `PublishedAt = now` is appended and returned with 201; the package slice is not modified |
| `DemoServer.Server.UpdateRecipe` | main.go:128-151 | a bad body is a 400 and a store error a 500, both changing nothing; otherwise only name, instructions, ingredients and tags of the recipe with the id change, 200 |
| `DemoServer.DeleteRecipe` | main.go:171-190 | always 200, touching no state, whatever the id |
| `DemoServer.GetRecipe` | main.go:245-256 | always 404, whatever the id |

## Findings

| source | as written | input that shows it | evidently intended | confidence | as-written member | corrected member |
|---|---|---|---|---|---|---|
| handlers/auth.go:47 | sign-up looks up the username together with the password digest, so only an exact (username, password) duplicate is refused as "user already exists" | users holds ("ann", digest of "secret1"); sign-up of "ann" with "secret2" inserts a second "ann" | refuse a sign-up whose username is already taken, keeping usernames unique | medium, not executed | `Auth.PairCheckAdmitsDuplicateName` | `Auth.AuthHandler.SignUpUniqueName` |

The as-written `Auth.AuthHandler.SignUp` stays the model of the handler itself.

## Behaviour worth noting

- A missing recipe in `GetOneRecipeHandler` is answered with 500, not with a not-found outcome.
- Sign-up refuses only an exact (username, digest) pair, so two users can share a username (see Findings).
- Refresh re-signs the presented claims, so the refreshed token keeps the original `iat`.
- The cache `Set` after a miss and every cache `Del` are not checked at all, not even logged.
- The JWT gate does not check expiry itself; whether expired tokens are refused is up to the parser (`Auth.RefreshBand` states what follows when it does).
- The gates are defined in middlewares.go but main.go's router attaches neither of them, nor the handlers of handlers/.

## Left out

- JSON encoding of the cached list is modelled as the identity: the key holds the list itself. Marshal and unmarshal errors, which the handler ignores, are not modelled.
- `CacheAside.RecipesHandler.ListRecipes`, `DemoServer.Server.ListRecipes`: the cursor is taken to deliver every document; a cursor or decode error part-way through, which the code never checks, is not modelled.
- Concurrency: a write between a reader's miss and its repopulating set, and two sign-ups racing between lookup and insert, are outside this sequential model.
- SHA-256, HMAC-SHA256 signing and `jwt.Parse` are not computed; they are the functions of `Jwt.Crypto`, and token validity is the parser's `Valid` flag.
- The clock is one integer instant per request; the code reads it twice when issuing claims, so its `iat` can be one second later than `exp - 600`.
- The `claims["exp"].(int64)` type assertion in refresh is taken to succeed and `exp` to be an integer; a panic there depends on the library's claim decoding and is not modelled.
- The `token.Valid` dereference in the JWT gate's log line, which would panic on a nil token, is not modelled.
- `strings.EqualFold` is restricted to ASCII case folding; Unicode simple folding of other letters is not modelled.
- Hex decoding of ObjectIDs is not modelled: handlers receive the decoded id, and an invalid one is the nil id.
- Request binding is an `Outcome` of the bound body; the rules of `models.User` and `models.Recipe` (models/ is not part of this model) are not modelled, and neither is the `_id` stored with a user.
- Logging, the Mongo and Redis connection setup, `init`, router wiring, environment loading and the seeding command in mongoUsersSeedCmd/ are I/O and bootstrapping.
- Commented-out code in main.go is not live behaviour and is not modelled.
- Request headers are a map from the canonical header name to its first value, the view gin's `GetHeader` gives; repeated headers and name canonicalisation are not modelled.
- Passwords are taken to be valid UTF-8: the length check counts the UTF-8 bytes of the characters, while Go's `len` counts the raw bytes of whatever string it is given.
