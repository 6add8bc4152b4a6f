# EdgeMetrics offline store and cache-first service worker, in Dafny

EdgeMetrics is a browser trading-journal demo. This project models the two
parts of it that carry behaviour:

- the offline data layer of `assets/js/app.js`: user registration and login
  against a users array kept in `localStorage`, the single session (written to
  `sessionStorage` and mirrored in `localStorage`), create/update/delete of
  trade records, and a message broadcast after every write;
- the cache-first `fetch` handler and the `install` pre-cache of `sw.js`.

Files, one module each:

- `wrappers.dfy` (`Wrappers`): `Option` and `Result`.
- `json.dfy` (`Json`): values as `JSON.parse` produces them, JavaScript
  truthiness and `===`, and `jsonGet`/`jsonSet` as `Read`/`Write` over a
  string store. Text that is empty or that `JSON.parse` rejects is `Unreadable`.
- `arrays.dfy` (`Arrays`): `find`/`findIndex` and `filter` with the callbacks
  app.js passes. Reading a property of a `null` element throws. For any other
  non-object element the property is `undefined`.
- `store.dfy` (`EdgeMetrics`): the class `Store` with fields `durable`
  (localStorage), `volatile` (sessionStorage), `log` (every broadcast message)
  and `subscribers`. Its methods are the operations of app.js. After the class
  come lemmas that chain operations, and four scenario methods that run the
  methods in sequence on a fresh store.
- `worker.dfy` (`ServiceWorker`): the class `Worker` with the cache contents and
  a log of network requests, plus an offline scenario.

Inputs from outside the program are parameters. The SHA-256 digest is the
store's `hash: string -> string` and is left uninterpreted. The id from
`genId()` and the time from `Date.now()` are arguments of each operation. The
network is a function from URL to outcome.

Every failure that app.js throws is an `Err`. These are the four errors the code
raises on purpose, plus the `TypeError` the engine raises when stored data is not
an array or holds a `null` element.

Three consequences of the code that a reader might not expect:

- `createTrade` merges the caller's fields over the stamped ones
  (`Object.assign({id, createdAt}, trade)`, assets/js/app.js:77). A caller's
  `id` or `createdAt` therefore wins (`Stamped`, `CreatedTradeIsLast`).
- Record ids are not guaranteed unique. `currentUser()` returns the first user
  carrying the session's id. That is the logged-in user only when no earlier record
  has the same id (`CurrentUserAfterLogin`).
- `currentUser()` reads only the durable mirror of the session, never the
  volatile copy.

## Model

| member | source | states |
|---|---|---|
| Json.Read | assets/js/app.js:9-12 | `jsonGet` returns either the fallback or exactly the value stored under the key, and the stored value whenever one is readable; `Store.JsonGet` is this read on the durable store |
| Json.Write | assets/js/app.js:13 | `jsonSet` replaces the value of one key and keeps every other key |
| Json.ReadAfterWrite | assets/js/app.js:9-13 | a value written with `jsonSet` reads back unchanged, `null` included |
| Json.ReadOtherAfterWrite | assets/js/app.js:9-13 | writing one key does not change what another key reads |
| Arrays.Find | assets/js/app.js:85 | the search returns the first matching index, with every earlier element non-null and not matching; it is `Missing` exactly when every element is non-null and none matches; it throws only at a `null` that comes before any match |
| Arrays.FindFrom | assets/js/app.js:85 | the search loop started at a position: the same three outcomes as `Find`, over the elements from that position on |
| Arrays.FindIn | assets/js/app.js:41 | searching anything but an array throws |
| Arrays.FindAppend | assets/js/app.js:44 | after a push, earlier search results are unchanged, and a search that found nothing before now finds the new element if it matches |
| Arrays.FindFromAppend | assets/js/app.js:44 | a push changes a search started anywhere only when nothing before the end stopped it |
| Arrays.FindStopsBy | assets/js/app.js:70 | a matching element reached past non-null elements stops the search there or earlier |
| Arrays.FindFromStopsBy | assets/js/app.js:70 | a search started at or before a matching element, over non-null elements, stops by that element |
| Arrays.FindReplaceAt | assets/js/app.js:85-86 | replacing the found element with one that still matches leaves the search result at the same index |
| Arrays.FindFromReplaceAt | assets/js/app.js:85-86 | replacing the found element with one that still matches keeps a search started at or before it at the same index |
| Arrays.RemoveWhere | assets/js/app.js:93 | the filter throws exactly when some element is `null`; otherwise it is no longer than the input, and no kept element matches |
| Arrays.RemoveWhereCounts | assets/js/app.js:93 | every matching element is dropped, and every other element is kept as often as it occurs |
| Arrays.RemoveWhereCons | assets/js/app.js:93 | the head element is kept exactly when it does not match |
| Arrays.RemoveWhereAppend | assets/js/app.js:93 | filtering a concatenation is the concatenation of the filtered parts, so kept elements keep their relative order |
| Arrays.RemoveWhereSingle | assets/js/app.js:93 | a single element is dropped if it matches, kept otherwise, and throws if it is `null` |
| Arrays.RemoveWhereIdempotent | assets/js/app.js:93 | filtering twice by the same id gives what filtering once gave |
| Arrays.RemoveWhereThenFind | assets/js/app.js:85-93 | after the filter, a search by the same id finds nothing and does not throw |
| EdgeMetrics.TradesIn | assets/js/app.js:98 | `getTrades` is `[]` when nothing readable is stored (no entry, empty or unparsable text), otherwise the stored value; `Store.GetTrades` is this read on the store's durable state |
| EdgeMetrics.SessionFor | assets/js/app.js:55-57 | the stored session's `userId` is the user's `id` (absent when that is undefined), and its `createdAt` is the login time |
| EdgeMetrics.Stamped | assets/js/app.js:77 | the new trade has the caller's keys plus `id` and `createdAt`; caller fields win, and the stamped id and time fill in only what the caller left out |
| EdgeMetrics.Patched | assets/js/app.js:86 | the updated trade has `updatedAt` set to the update time; patched fields win over the old ones, and unpatched fields are unchanged |
| EdgeMetrics.SessionUserId | assets/js/app.js:67-68 | `currentUser` continues exactly when the durable session is an object with a truthy `userId`, and the id it goes on with is that `userId` |
| EdgeMetrics.CurrentUserIn | assets/js/app.js:66-71 | with no session the result is null; when some user carries the session's id, the first such user is returned; a returned user is in the users array and carries that id; with no user carrying it the result is null; the result is a TypeError exactly when a session exists and the users value is not an array or holds a `null` before any match; `Store.CurrentUser` is this on the store's durable state |
| EdgeMetrics.Store.JsonSet | assets/js/app.js:13 | the durable store after the write is `Write` of the old one |
| EdgeMetrics.Store.Subscribe | assets/js/app.js:25 | the handler joins the subscriber set |
| EdgeMetrics.Store.Unsubscribe | assets/js/app.js:25 | the handler leaves the set; the result says whether it was there |
| EdgeMetrics.Store.Broadcast | assets/js/app.js:27-30 | the message is appended to the log |
| EdgeMetrics.Store.RegisterUser | assets/js/app.js:39-48 | an email that some user already holds, compared exactly, fails with EmailExists and changes nothing; otherwise the users array gains, last, `{id, email, hash(password), name, plan, createdAt}` with `plan` as given (`null` included) or `'starter'` when omitted or `undefined`, earlier entries are unchanged, `users:updated` with the id is broadcast and the id returned |
| EdgeMetrics.Store.LoginUser | assets/js/app.js:49-60 | an unknown email fails with UserNotFound and a digest other than the stored `hash` fails with InvalidCredentials, both leaving both stores and the log unchanged; on success the same `{userId, createdAt}` session goes to the volatile store and to durable SESSION_KEY, `session:changed` with the user's id is broadcast and the user returned |
| EdgeMetrics.Store.Logout | assets/js/app.js:61-65 | the volatile session entry is removed, durable SESSION_KEY holds null and `session:changed` with a null id is broadcast |
| EdgeMetrics.Store.CreateTrade | assets/js/app.js:74-82 | the trades array gains `Stamped(trade, id, now)` last, earlier records are unchanged, `trades:created` with the generated id is broadcast and the record returned; only a non-array trades value fails |
| EdgeMetrics.Store.UpdateTrade | assets/js/app.js:83-90 | an id no record has fails with NotFound and changes nothing; otherwise only the first record with that id is replaced by `Patched(old, updates, now)`, the array keeps its length and `trades:updated` is broadcast |
| EdgeMetrics.Store.DeleteTrade | assets/js/app.js:91-97 | the trades array becomes the filter that drops every record with that id; the result is always true unless the array cannot be filtered; `trades:deleted` is broadcast |
| EdgeMetrics.RegisteredUserIsFound | assets/js/app.js:39-54 | after a registration the email is found at the new last record, whose hash is the password's digest, so registering it again fails and logging in with that password succeeds |
| EdgeMetrics.CurrentUserAfterLogin | assets/js/app.js:55-70 | after a login, `currentUser` returns the first user carrying the logged-in user's id (the logged-in user when no earlier record shares it), and null when that id is missing or falsy; for an array or object id it is never that user: null, or a TypeError when a later record is `null` |
| EdgeMetrics.RegisteredUserIsCurrent | assets/js/app.js:39-71 | a user registered under an email and a non-empty id no earlier record has is, after logging in, the current user |
| EdgeMetrics.NoCurrentUserAfterLogout | assets/js/app.js:61-70 | after logout `currentUser` returns null |
| EdgeMetrics.LogoutIdempotent | assets/js/app.js:61-65 | a second logout leaves both stores as the first left them |
| EdgeMetrics.CurrentUserIgnoresTrades | assets/js/app.js:66-98 | writes to the trades array never change `currentUser` |
| EdgeMetrics.CurrentUserSurvivesRegister | assets/js/app.js:39-71 | registering another user keeps an existing current user |
| EdgeMetrics.CreatedTradeIsLast | assets/js/app.js:74-81 | after create, the array is one longer, earlier records are unchanged, and the new last record's id and createdAt are the caller's when given, the stamped ones otherwise |
| EdgeMetrics.UpdatedTradeIsFoundAgain | assets/js/app.js:83-90 | after update the length is unchanged, other records are unchanged, and a patch keeping the id leaves the record findable at the same index |
| EdgeMetrics.DeletedTradeIsGone | assets/js/app.js:83-97 | after delete no record has the id, so update fails with NotFound, and a second delete writes back the same array |
| EdgeMetrics.AccountScenario | assets/js/app.js:39-71 | register, register again, login, currentUser: the id is returned, the repeat fails with EmailExists, the login returns the new user, who is then current |
| EdgeMetrics.LogoutScenario | assets/js/app.js:61-71 | whatever the state, after logout nobody is current, and a second logout leaves both stores as the first left them |
| EdgeMetrics.TradeScenario | assets/js/app.js:74-98 | create then update a trade under a fresh id: the stamped record, then the patched record, which `getTrades` holds last after the earlier records |
| EdgeMetrics.DeleteScenario | assets/js/app.js:83-97 | on a readable journal, delete and delete again both return true, and an update of the deleted id then fails with NotFound |
| ServiceWorker.AddAll | sw.js:13 | `addAll` adds every URL's response when all resolve with an acceptable response, and nothing otherwise |
| ServiceWorker.Worker.Match | sw.js:21 | `caches.match` finds a response exactly when the cache holds the URL |
| ServiceWorker.Worker.Install | sw.js:11-15 | install requests exactly the five core assets and either adds all of them or, on failure, leaves the cache unchanged without failing |
| ServiceWorker.Worker.Fetch | sw.js:19-28 | a hit returns the cached response with no network request and no cache change; on a miss the URL is fetched, and the network's response is returned, stored only if it is a 200 `basic` response; on network failure the cache is unchanged and the result is the cached `/index.html`, which may be absent |
| ServiceWorker.OfflineScenario | sw.js:11-27 | after install with every asset available, a core asset is served offline from the cache and any other URL gets the cached `/index.html` |

## Left out

- Cross-tab delivery (`BroadcastChannel`, the `storage` event fallback) and calling the subscribed handlers are not modelled. The log stands for the sequence of messages every subscriber in the broadcasting tab receives.
- Without `BroadcastChannel`, other tabs receive nothing: their `storage` listener calls `triggerSubscribers` (assets/js/app.js:21), which no file of the program declares, so it throws. In that mode every broadcast also writes a sentinel key `edgemetrics_sync_<time>` into localStorage (assets/js/app.js:28); the `durable` ensures of RegisterUser, LoginUser, Logout, CreateTrade, UpdateTrade and DeleteTrade describe the `BroadcastChannel` mode and do not show that key.
- The reserved key `edgemetrics_settings_v1` (assets/js/app.js:7) is read and written by no operation and has no counterpart in the model.
- Races between tabs, and between the `await` of the digest and the write in `registerUser`, are concurrency and are left out. Each operation runs as one step.
- The SHA-256 digest and its hex rendering are the uninterpreted `hash`. `genId()` randomness and `Date.now()` are parameters. Nothing makes generated ids unique.
- JSON is modelled by value: the text encoding and key order are not modelled. Numbers are reals, and `NaN`/`Infinity` (which JSON.stringify turns into `null`) are not modelled.
- Property reads cover own fields of parsed objects only. Built-in properties of strings and arrays, and inherited ones, are not modelled; app.js reads none of them.
- RegisterUser: `email`, `password` and `name` are strings. An omitted field (undefined, dropped by JSON.stringify) is not modelled. `plan` may be omitted or any parsed value; `None` is a plan omitted or passed as `undefined`, both of which the default `'starter'` replaces; a plan that JSON.stringify drops or changes (a function, `NaN`) is not modelled.
- UpdateTrade and DeleteTrade: the `id` argument is a string; other argument types are not modelled.
- CreateTrade and UpdateTrade: `trade` and `updates` are plain objects (parsed records). `Object.assign` also ignores `null`/`undefined` sources and copies the indexed characters of a string source; those arguments are not modelled.
- Storage quota errors from `setItem` are not modelled; every write succeeds.
- The DOM code (`attachTradeForm`, `renderTrades`, `initUI`), `assets/js/assets/js/auth.js` and `assets/js/assets/js/assets/js/payments.js` are page wiring or calls to outside services, and are not part of this model.
- Worker: the origin's cache storage is the single cache `CACHE_NAME`, keyed by URL. Request methods and headers, `Vary`, and the ordering of several caches seen by `caches.match` are not modelled. For a non-GET request the source's unawaited `cache.put` would reject; the model stores it anyway.
- Worker: `clients.claim()` at activation, `waitUntil` timing, and the fact that `cache.put` is not awaited before the response is returned are left out. The write counts as done before the handler returns.
- ServiceWorker.AddAll: a batch with duplicate URLs, which `addAll` refuses, is not modelled; the five core assets are distinct.
