# funkos-secure-server, modelled in Dafny

The funkos server answers JSON requests over a TLS socket, one line per request. A
`ClientHandler` per connection does the following:

- it registers its `@RequestHandler` methods in a static `Type → Method` table;
- for every line it looks the request type up, refuses an `@Authorized` handler that has no
  verified JWT, binds the arguments, and invokes the handler;
- it writes one response per line.

The handlers use two services:

- `FunkosServiceImpl` sits in front of the funko repository. It has a 15-entry LRU cache
  (`FunkosCacheImpl`) and list queries over the repository's contents;
- `UsersRepository` is a fixed list of two users, juan (ADMIN) and manolo (USER).

The project models this core in Dafny. Each file covers one part:

| file | what it models |
|---|---|
| `wrappers.dfy` | `Option` and `Result` |
| `models.dfy` | the records and enums: `Funko`, `Modelo`, `User`, `Login`, `Request` and its types, `Response` and its statuses, and JWT claims |
| `seqs.dfy` | stream `filter`, unlinking a key from an entry list, `String.contains`, and ASCII `toLowerCase` |
| `lru.dfy` | the `LinkedHashMap` behind the cache as a value: mapping plus access-ordered entry list, with the `removeEldestEntry` rule |
| `cache.dfy` | class `FunkosCacheImpl`, whose fields are that mapping and list; every method is proved equal to the matching `Lru` function |
| `funko_service.dfy` | a repository class over a map; class `FunkosServiceImpl` with read-through and write-through caching; the four list queries as functions |
| `users_repository.dfy` | the fixed user list and its two `findFirst` lookups |
| `client_handler.dfy` | registration, `handleRequest`, the `start` loop, `login`, `deleteFunko` and `verifyToken` |

In `client_handler.dfy`, reflection is data:

- a method is a `HandlerMethod` value. It records its annotation type, whether it returns
  `Response`, whether it is `@Authorized`, and its parameters with their `@RequestToken` and
  `@RequestBody` flags.

Gson, the token service and the handler bodies are inputs in an `Env`:

- `parse` and `deserialize` decode JSON;
- `verify` checks a token;
- `invoke` runs a handler over a state `S`;
- `now` gives the clock at each line.

An exception is the `Failed` outcome, carrying its message.

Where the service code and its callers disagree, the model follows the code of each file on its own:

- `ClientHandler` builds and calls a Reactor-based service: `findAll().collectList()`,
  `delete(funko)`, and `update(funko)`.
- The `FunkosServiceImpl` in `FunkoServiceImpl.java` is blocking and has different methods:
  `delete(UUID)` and `update(UUID, Funko)`.
- `ClientHandler.ClientHandler.DeleteFunko` therefore calls the modelled service's `Delete` with
  the funko's code.

## Model

| member | source | states |
|---|---|---|
| Lru.Lookup | src/main/java/dev/server/services/cache/FunkosCacheImpl.java:46-49 | `get`'s value: the stored funko on a hit, `null` (`None`) on a miss |
| Lru.Touch | src/main/java/dev/server/services/cache/FunkosCacheImpl.java:27 | the access-order side of `get`: a hit moves the key to the most recently used end, a miss changes nothing |
| Lru.Put | src/main/java/dev/server/services/cache/FunkosCacheImpl.java:27-43 | `put`: a present key gets the new value and is accessed; a new key is appended, and the eldest is dropped once the size passes 15 |
| Lru.Remove | src/main/java/dev/server/services/cache/FunkosCacheImpl.java:52-55 | `remove`: the key is unmapped and unlinked |
| Lru.Clear | src/main/java/dev/server/services/cache/FunkosCacheImpl.java:58-61 | `clear`: the empty cache |
| Lru.PutWellFormed | src/main/java/dev/server/services/cache/FunkosCacheImpl.java:21-43 | `put` keeps the entry list duplicate-free and equal to the key set, and the size never exceeds `CACHE_SIZE` = 15 |
| Lru.RemoveWellFormed | src/main/java/dev/server/services/cache/FunkosCacheImpl.java:52-55 | `remove` keeps the representation invariant |
| Lru.EmptyWellFormed | src/main/java/dev/server/services/cache/FunkosCacheImpl.java:26-32 | a new (or cleared) map satisfies the invariant |
| Lru.TouchMovesToTail | src/main/java/dev/server/services/cache/FunkosCacheImpl.java:27 | the access order: a `get` hit moves the key to the most recently used end and keeps all other keys in their relative order and every value unchanged |
| Lru.GetAfterPut | src/main/java/dev/server/services/cache/FunkosCacheImpl.java:40-49 | after `put(k, v)`, `get(k)` returns `v`, even when the put evicted |
| Lru.PutFullEvictsEldest | src/main/java/dev/server/services/cache/FunkosCacheImpl.java:27-31 | a new key put into a full cache evicts exactly the least recently used entry; every other entry keeps its value; the size stays 15 |
| Lru.PutNotFullKeepsAll | src/main/java/dev/server/services/cache/FunkosCacheImpl.java:29-31 | a new key put into a cache that is not full evicts nothing and grows the size by one |
| Lru.PutPresentReplaces | src/main/java/dev/server/services/cache/FunkosCacheImpl.java:29-31 | `put` of a present key replaces its value, keeps the key set and the size, leaves other values alone and makes the key most recently used |
| Lru.PutSubmap | src/main/java/dev/server/services/cache/FunkosCacheImpl.java:40-43 | after `put`, every entry is the new one or an unchanged old one |
| Lru.RemoveOnlyKey | src/main/java/dev/server/services/cache/FunkosCacheImpl.java:52-55 | `remove(k)` makes `k` miss, leaves every other lookup unchanged, and shrinks the size by one exactly when `k` was present |
| Lru.PutThenRemoveLeavesEmpty | src/main/java/dev/server/services/cache/FunkosCacheImpl.java:40-55 | putting then removing one key in an empty cache leaves size 0 and a miss |
| Lru.ClearEmpties | src/main/java/dev/server/services/cache/FunkosCacheImpl.java:58-61 | after `clear()` the size is 0 and every lookup misses |
| Lru.GetIdempotent | src/main/java/dev/server/services/cache/FunkosCacheImpl.java:46-49 | a second `get` of the same key returns the same value and leaves the state as the first left it |
| Lru.RunWellFormed | src/main/java/dev/server/services/cache/FunkosCacheImpl.java:21-61 | no sequence of `put`/`get`/`remove`/`clear` takes the size past 15 |
| Lru.NeverPutMisses | src/main/java/dev/server/services/cache/FunkosCacheImpl.java:40-61 | a key that is absent, for example never inserted or since removed, misses after any operations that do not put it |
| Lru.PutAllKeepsNewest | src/main/java/dev/server/services/cache/FunkosCacheImpl.java:27-32 | putting funkos with new distinct codes leaves exactly the 15 newest keys, oldest first |
| Lru.SixteenPutsEvictFirst | src/main/java/dev/server/services/cache/FunkosCacheImpl.java:21-32 | after 16 distinct puts into an empty cache the first misses and the last hits |
| Lru.LastPutHits | src/main/java/dev/server/services/cache/FunkosCacheImpl.java:40-49 | after a series of puts the last one is in the cache |
| FunkosCache.FunkosCacheImpl.constructor | src/main/java/dev/server/services/cache/FunkosCacheImpl.java:26-37 | a new cache is empty and well formed |
| FunkosCache.FunkosCacheImpl.Put | src/main/java/dev/server/services/cache/FunkosCacheImpl.java:27-43 | the in-place update of the mapping and entry list equals `Lru.Put` of the old state; the invariant is kept |
| FunkosCache.FunkosCacheImpl.Get | src/main/java/dev/server/services/cache/FunkosCacheImpl.java:46-49 | returns the mapped value or `None` for null, and reorders the entries as `Lru.Touch` |
| FunkosCache.FunkosCacheImpl.Remove | src/main/java/dev/server/services/cache/FunkosCacheImpl.java:52-55 | the new state is `Lru.Remove` of the old one |
| FunkosCache.FunkosCacheImpl.Clear | src/main/java/dev/server/services/cache/FunkosCacheImpl.java:58-61 | the new state is the empty one |
| FunkosCache.FunkosCacheImpl.Size | src/main/java/dev/server/services/cache/FunkosCacheImpl.java:69-71 | the number of entries, at most 15 |
| UsersRepository.FindFirst | src/main/java/dev/server/repositories/UsersRepository.java:38-40 | `filter(p).findFirst()`: empty exactly when no user satisfies `p`; otherwise the first user in list order that does |
| UsersRepository.FindByUsername | src/main/java/dev/server/repositories/UsersRepository.java:37-41 | a result is a listed user with that name; empty exactly when no user has it |
| UsersRepository.FindByById | src/main/java/dev/server/repositories/UsersRepository.java:43-47 | a result is a listed user with that id; empty exactly when no user has it |
| UsersRepository.UsersKeysUnique | src/main/java/dev/server/repositories/UsersRepository.java:12-25 | names and ids in the fixed list are unique |
| UsersRepository.KnownUsers | src/main/java/dev/server/repositories/UsersRepository.java:12-47 | "juan" is id 1 with role ADMIN and "manolo" is id 2 with role USER; the id lookups agree; id 3 and "pepe" are not found |
| UsersRepository.NameThenIdRoundTrip | src/main/java/dev/server/repositories/UsersRepository.java:37-47 | looking up by the id of the user found by name finds the same user |
| FunkoService.FunkosRepository.FindById | src/main/java/dev/server/services/FunkoServiceImpl.java:65 | the repository's lookup: a funko exactly when the code is stored, and the stored one |
| FunkoService.FunkosRepository.Save | src/main/java/dev/server/services/FunkoServiceImpl.java:71 | the repository's save: the row with `f`'s code holds `f` and every other row is unchanged; the result is `f` |
| FunkoService.FunkosRepository.Update | src/main/java/dev/server/services/FunkoServiceImpl.java:78 | the repository's update: row `id` holds `f` when it exists, and nothing changes otherwise; the result is `f` |
| FunkoService.FunkosRepository.Delete | src/main/java/dev/server/services/FunkoServiceImpl.java:85 | the repository's delete: true exactly when the code was stored; the row is gone afterwards |
| FunkoService.FunkosServiceImpl.FindById | src/main/java/dev/server/services/FunkoServiceImpl.java:59-67 | a cache hit answers from the cache and is an access; a miss answers from the repository and leaves the cache unchanged; a coherent cache makes the answer the repository's |
| FunkoService.FunkosServiceImpl.Save | src/main/java/dev/server/services/FunkoServiceImpl.java:69-74 | the repository stores `f`; the cache is `Lru.Put` of `f.codigo`, so it maps that code to `f`; the result is `f`; coherence is kept |
| FunkoService.FunkosServiceImpl.Update | src/main/java/dev/server/services/FunkoServiceImpl.java:76-81 | row `id` holds `f` if it existed; the cache maps `f.codigo`, not `id`, to `f`; the result is `f`; coherence is kept when `id` is `f.codigo` and stored |
| FunkoService.FunkosServiceImpl.Delete | src/main/java/dev/server/services/FunkoServiceImpl.java:83-90 | returns the repository's answer; the cache entry is removed exactly when that is true, and the cache is unchanged otherwise; coherence is kept |
| Seqs.Filter | src/main/java/dev/server/services/FunkoServiceImpl.java:114 | `stream().filter(p).toList()`: exactly the elements satisfying `p`, with their multiplicities, as a subsequence |
| FunkoService.FunkosReleasedInYear | src/main/java/dev/server/services/FunkoServiceImpl.java:112-115 | exactly the funkos released in the year, with their multiplicities, in original order |
| FunkoService.FunkosGroupedByModel | src/main/java/dev/server/services/FunkoServiceImpl.java:102-105 | the keys are exactly the models that occur, and every group is non-empty |
| FunkoService.GroupIsFilter | src/main/java/dev/server/services/FunkoServiceImpl.java:102-105 | each group is the list of funkos of that model, in original order |
| FunkoService.GroupedByOwnModel | src/main/java/dev/server/services/FunkoServiceImpl.java:102-105 | every funko is in the group of its own model, and a group holds only funkos of its model |
| FunkoService.NumFunkosGroupedByModel | src/main/java/dev/server/services/FunkoServiceImpl.java:107-110 | `groupingBy(modelo, summingInt(1))`: one count per model that occurs, one more for each funko (properties in the lemmas below) |
| FunkoService.CountsAreGroupSizes | src/main/java/dev/server/services/FunkoServiceImpl.java:107-110 | the counts have the same models as the groups, and each count is the size of its group |
| FunkoService.CountIsNumberWithModel | src/main/java/dev/server/services/FunkoServiceImpl.java:107-110 | the count of a model is the number of funkos with that model |
| FunkoService.CountsSumToLength | src/main/java/dev/server/services/FunkoServiceImpl.java:107-110 | the counts add up to the number of funkos |
| FunkoService.FunkosContainWord | src/main/java/dev/server/services/FunkoServiceImpl.java:117-120 | exactly the funkos whose lower-cased name has the lower-cased word at some position, in original order |
| FunkoService.EmptyWordKeepsAll | src/main/java/dev/server/services/FunkoServiceImpl.java:117-120 | the empty word keeps every funko |
| FunkoService.WordCaseIgnored | src/main/java/dev/server/services/FunkoServiceImpl.java:117-120 | the search gives the same result for a word and its lower-cased form |
| ClientHandler.Register | src/main/java/dev/server/ClientHandler.java:105-121 | `registerHandlers`' loop: a method with `@RequestHandler` and a return type other than `Response` throws; any other annotated method is stored under its type, later ones replacing earlier |
| ClientHandler.RegisterIsOverlay | src/main/java/dev/server/ClientHandler.java:105-121 | registration throws exactly when some annotated method does not return `Response`; otherwise the table is the old one overlaid with one entry per annotated method |
| ClientHandler.RegisterStopsAtFirstBad | src/main/java/dev/server/ClientHandler.java:109-115 | the first bad method throws its message and the entries stored before it stay |
| ClientHandler.OverlayLastWins | src/main/java/dev/server/ClientHandler.java:116-118 | a type is in the table exactly when some method names it; the method stored is the last to name it |
| ClientHandler.RegisterTwice | src/main/java/dev/server/ClientHandler.java:49-65 | registering the same methods again, as every connection's `start` does on the static table, changes nothing |
| ClientHandler.HandlerRegistry.RegisterHandlers | src/main/java/dev/server/ClientHandler.java:105-121 | the loop over the declared methods gives the table and exception of `Register` |
| ClientHandler.VerifyToken | src/main/java/dev/server/ClientHandler.java:255-260 | a null token is never verified; a present one gives exactly the token service's answer |
| ClientHandler.BindOne | src/main/java/dev/server/ClientHandler.java:136-152 | one parameter: a `@RequestToken` not typed `DecodedJWT` throws; otherwise the token argument, then the decoded body argument, where a `null` body throws |
| ClientHandler.Bind | src/main/java/dev/server/ClientHandler.java:134-153 | all parameters, in declaration order, stopping at the first that throws |
| ClientHandler.Invoke | src/main/java/dev/server/ClientHandler.java:154 | `handler.invoke(this, args)`: a wrong argument count throws; otherwise the handler's response or exception |
| ClientHandler.Handle | src/main/java/dev/server/ClientHandler.java:123-159 | `handleRequest`: parse, lookup, authorization gate, binding, invocation |
| ClientHandler.BindShape | src/main/java/dev/server/ClientHandler.java:134-153 | binding succeeds exactly when every parameter binds; there is then one argument per annotation; token arguments carry the verified token and body arguments carry decoded content |
| ClientHandler.BindConcat | src/main/java/dev/server/ClientHandler.java:136-153 | binding follows declaration order: the arguments of earlier parameters come first |
| ClientHandler.BindErrorSticky | src/main/java/dev/server/ClientHandler.java:136-153 | the first parameter that throws ends binding with its exception |
| ClientHandler.MistypedTokenThrows | src/main/java/dev/server/ClientHandler.java:137-140 | a `@RequestToken` parameter not typed `DecodedJWT` throws, with its message once the earlier parameters bind |
| ClientHandler.BindArguments | src/main/java/dev/server/ClientHandler.java:134-153 | the `args` loop computes `Bind` |
| ClientHandler.HandleRequest | src/main/java/dev/server/ClientHandler.java:123-159 | the method computes `Handle`: lookup, authorization gate, binding, then invocation |
| ClientHandler.UnknownTypeIsError | src/main/java/dev/server/ClientHandler.java:127-129 | a type without a handler gives ERROR "Request no valida", and no handler runs |
| ClientHandler.AuthorizationGate | src/main/java/dev/server/ClientHandler.java:129-133 | an `@Authorized` handler with a null or unverifiable token gives UNAUTHORIZED "No autorizado", and no handler runs |
| ClientHandler.HandlerRunsIff | src/main/java/dev/server/ClientHandler.java:127-154 | `handleRequest` answers by itself exactly when the type is unknown or the gate refuses; a handler's response means the arguments bound, one per parameter, and the handler produced that response |
| ClientHandler.OpenHandlerWithoutToken | src/main/java/dev/server/ClientHandler.java:130-154 | a handler without `@Authorized` runs without a token, and a token parameter gets null |
| ClientHandler.Session | src/main/java/dev/server/ClientHandler.java:68-85 | at most one response per line; every line answered exactly when no exception ended the loop |
| ClientHandler.SessionInOrder | src/main/java/dev/server/ClientHandler.java:73-78 | response `k` answers line `k` in the state the earlier lines left; if the loop ended early, the unanswered line is the one that threw |
| ClientHandler.UnknownTypeKeepsSession | src/main/java/dev/server/ClientHandler.java:73-78 | an unknown request type is answered and the loop goes on with its state untouched |
| ClientHandler.RunSession | src/main/java/dev/server/ClientHandler.java:68-85 | the read/respond loop computes `Session` |
| ClientHandler.Start | src/main/java/dev/server/ClientHandler.java:63-86 | registration first; if it throws, nothing is read or written; otherwise the loop runs against the new table |
| ClientHandler.ClientHandlerReturnTypes | src/main/java/dev/server/ClientHandler.java:161-253 | every `@RequestHandler` method of `ClientHandler` returns `Response` |
| ClientHandler.HandlersOverlay | src/main/java/dev/server/ClientHandler.java:161-253 | the eight handlers claim distinct types and give the eight-entry table |
| ClientHandler.ClientHandlerOverlay | src/main/java/dev/server/ClientHandler.java:63-260 | the unannotated methods add nothing, so all of `ClientHandler`'s methods give the same table |
| ClientHandler.ClientHandlerRegistration | src/main/java/dev/server/ClientHandler.java:65 | registering `ClientHandler` does not throw and builds exactly that table |
| ClientHandler.OverlayPermutation | src/main/java/dev/server/ClientHandler.java:105-121 | with distinct request types, any reordering of the methods gives the same table |
| ClientHandler.RegisterPermutation | src/main/java/dev/server/ClientHandler.java:105-121 | registering any reordering of methods that all return `Response` and claim distinct types does not throw and builds the table of the original order |
| ClientHandler.ClientHandlerDistinctTypes | src/main/java/dev/server/ClientHandler.java:161-253 | no two `@RequestHandler` methods of `ClientHandler` claim the same type |
| ClientHandler.ClientHandlerRegistrationAnyOrder | src/main/java/dev/server/ClientHandler.java:105-121 | registering `ClientHandler`'s methods in any order does not throw and builds the same table |
| ClientHandler.ClientHandlerTableShape | src/main/java/dev/server/ClientHandler.java:161-253 | only LOGIN is open, and FECHA, UUID, SALIR, OTRO, GETBYUUID and DELETEALL have no handler |
| ClientHandler.DeleteWithoutTokenRefused | src/main/java/dev/server/ClientHandler.java:129-133 | a DELETE request without a token is refused before `deleteFunko` runs |
| ClientHandler.DeleteBindsTokenThenBody | src/main/java/dev/server/ClientHandler.java:225 | `deleteFunko` receives the verified token and then the decoded funko |
| ClientHandler.LoginResponse | src/main/java/dev/server/ClientHandler.java:161-176 | TOKEN exactly when a user has that name and the password checks; it then carries the token created for that user; otherwise ERROR with the failure message |
| ClientHandler.JuanLogin | src/main/java/dev/server/ClientHandler.java:167-174 | with a sound password check, juan gets a token exactly with "juan1234" |
| ClientHandler.IsAdminToken | src/main/java/dev/server/ClientHandler.java:227-235 | true exactly when the token names a listed user with role ADMIN |
| ClientHandler.OnlyJuanDeletes | src/main/java/dev/server/ClientHandler.java:227-235 | with the fixed users, only tokens naming juan pass the admin check |
| ClientHandler.LoginTokenAuthorizesDelete | src/main/java/dev/server/ClientHandler.java:174-235 | a token from a successful login, once verified, passes the admin check exactly for juan |
| ClientHandler.ClientHandler.DeleteFunko | src/main/java/dev/server/ClientHandler.java:223-243 | a token that is not an admin's gives UNAUTHORIZED and changes neither repository nor cache; an admin's deletes the code, removes its cache entry exactly when a row went, answers OK when a row went and ERROR otherwise, and keeps the cache coherent with the repository |

## Left out

- Sockets, TLS, `openConnection`/`closeConnection` and `IOException` from `readLine`: the input lines are a sequence and the written responses a result, with no I/O.
- Threads: `Server` calls `start()` on each `ClientHandler`, and `ClientHandler` overrides `start` (ClientHandler.java:63), so sessions run one after another on the accept loop, and the model runs one session at a time. Each connection builds its own `FunkosCacheImpl` (ClientHandler.java:59), whose constructor starts a flush scheduler thread (FunkosCacheImpl.java:34-35); that thread's interleaving with the session is not modelled. `HandlerRegistry` is one object for the static table, and `ClientHandler.RegisterTwice` shows that registering again changes nothing.
- The 90-second `scheduleAtFixedRate` flush, `synchronizedMap` and `shutdown` in `FunkosCacheImpl`: these involve timing and concurrency. `clear` is modelled as an operation.
- Gson, the JWT token service and BCrypt are oracles in `Env` or parameters. `LocalDateTime.now()` is `Env.now`, with one instant per line.
- `getDeclaredMethods` returns methods in no specified order. Registration takes the methods as a given sequence, and `ClientHandler.ClientHandlerRegistrationAnyOrder` proves that every ordering of `ClientHandler`'s methods gives the same table.
- The bodies of `getAllFunkos`, `getFunkoById`, `getFunkoByYear`, `getByModelo`, `addFunko` and `updateFunko` are left to `Env.invoke`. They call a Reactor-based service API that `FunkoServiceImpl.java` does not define.
- `FunkosServiceImpl.findAll`, `findByName`, `mostExpensiveFunko` and `averagePrice` are left out. The first two only delegate to the repository. The other two compute over `double` prices. The list queries take the `findAll()` list as a parameter. `importCsv` is declared only by the `FunkoService` interface (FunkoService.java:18), which is not part of this model; `FunkoServiceImpl.java` has no such method.
- The repository (`FunkosAsyncRepoImpl`) is not part of this model. `FunkoService.FunkosRepository` is a map from code to funko, with `update(id, f)` writing row `id` only when it exists. Repository exceptions and blocking futures are not modelled.
- FunkoService.NumFunkosGroupedByModel: counts are unbounded integers; `summingInt`'s 32-bit overflow, past 2^31 - 1 funkos of one model, is not modelled.
- FunkoService.FunkosContainWord: `toLowerCase` is modelled for ASCII letters only; Unicode case mapping and locale rules are not modelled.
- `Funko.precio` is a `real` that no operation uses. Dates are a year/month/day record, and only the year is read.
- A `Login` body with null fields is not modelled. A request without a type is `None` and gets "Request no valida". A line Gson cannot parse, or a body that decodes to `null`, throws and ends the loop.
- ClientHandler.ClientHandler.DeleteFunko: `ClientHandler` passes the whole funko to the service's delete, but `FunkoServiceImpl.java` deletes by code, so the model deletes `funko.codigo`.
- Singletons (`getInstance`) are constructors that take their collaborators.
- Reactor laziness: `FunkosCacheImpl`'s `put`, `get` and `remove` return a lazy `Mono.fromRunnable`/`Mono.fromCallable` (FunkosCacheImpl.java:42, 48, 54). `FunkosServiceImpl` uses `get`'s result as a `Funko` (FunkoServiceImpl.java:61) and drops the results of `put` and `remove` without subscribing (FunkoServiceImpl.java:72, 79, 87). The model treats every cache operation as done when it is called.
- Token expiry: `Env.verify` is a function of the token alone, so a token that expires during a session (TokenService.java:39, 52-54) is not modelled.
- ClientHandler.Invoke: checks only the argument count of `Method.invoke`; the per-position type check that throws `IllegalArgumentException` is not modelled.
