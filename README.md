# Net Control: offline cache, sessions and registration, modelled in Dafny

Net Control is a progressive web app for a home network. Its dashboard lists
devices and lets the user block or allow each one. It also keeps a list of
blocked sites and a list of blocking schedules. The app is backed by an
Express/MongoDB server that registers users and issues JWTs. This project
models the app's decision procedures and proves properties of them:

- **Offline cache, v4** (`public/sw.js`, module `OfflineCacheV4`):
  - `install` adds each manifest entry on its own and always reaches `skipWaiting`.
  - `activate` deletes every other cache generation.
  - `fetch` is cache-first for local resources and writes through only for same-host or allow-listed URLs.
  - `isExternalResource` and `shouldCache` are modelled as string predicates.
- **Offline cache, v3** (`sw.js`, module `OfflineCacheV3`):
  - `install` runs an all-or-nothing `cache.addAll`.
  - The same `activate`.
  - `fetch` serves any cached response first and caches every GET answer.
- **Browser Cache Storage** (module `CacheApi`): the rules of the Cache API that the workers depend on.
  - `caches.match` searches every cache in creation order, for GET only.
  - `cache.put` refuses a 206 response and non-http(s) URLs.
  - `cache.add` refuses a response that is not ok.
  - `cache.addAll` stores everything or nothing.
- **Client session** (`public/auth.js`, module `ClientAuth`):
  - the ordered registration checks and the `validateEmail` pattern;
  - how `register` and `login` turn a server reply into stored `token`/`user` keys or an error message;
  - `logout`, and the expiry test of `isAuthenticated`;
  - the route guard, with `encodeURIComponent`.
- **Dashboard helpers** (`public/script.js`, module `Dashboard`):
  - `escapeHtml`, and the status→action mapping of `renderDevices`;
  - the development-mode operations on `MOCK_DATA`;
  - the `AppState.isLoading` gate of the event handlers.
- **JWT middleware** (`server/middlewares/auth.js`, module `AuthMiddleware`): bearer extraction and the 401/403/`next` decision.
- **Registration on the server** (`server/server.js`, module `ServerRegister`):
  - the user schema's validators, including its e-mail pattern;
  - the pre-save hashing hook;
  - the `/api/auth/register` handler and its error classification.
- **Registration in the router** (`server/routes/auth.js`, module `RouterRegister`): the older `/register` handler. It differs from the server's handler in three ways:
  - a duplicate is answered 400, not 409;
  - success is answered 200, not 201;
  - the token claim is `id`, not `userId`.

Shared helpers:

- `Text`: JavaScript string operations (`includes`, `indexOf`, `split`, `join`, `trim`, number formatting).
- `Users`: the users collection keyed by e-mail, and the reply shapes.
- `Wrappers`: `Option`.

Everything outside the program is a parameter:

- the network's answer and the page host;
- the clock and the token decoder (`JSON.parse(atob(…))`);
- `bcrypt`, `jwt.sign` and `jwt.verify`;
- the new document's id, and whether the database connection is up.

## Model

| member | source | states |
|---|---|---|
| OfflineCacheV4.NotIntercepted | public/sw.js:66-68 | a non-GET request or a `chrome-extension:` URL is passed through: no cache read, no network, no write |
| OfflineCacheV4.Install | public/sw.js:21-40 | the store gains exactly the manifest entries whose own `add` succeeded, under `net-control-v4`; other caches are untouched and `skipWaiting` is always reached |
| OfflineCacheV4.AddEach | public/sw.js:27-33 | adding entries one by one leaves the named cache as before plus exactly the entries whose fetch answered ok and was storable; a failure skips that entry only |
| OfflineCacheV4.ManifestResolvesApart | public/sw.js:2-13 | whatever the worker's origin, the ten manifest entries resolve to ten different URLs |
| OfflineCacheV4.InstalledExactlyWhenOk | public/sw.js:2-33 | from an http(s) origin, the install keeps a manifest entry exactly when the network answered it with an ok status other than 206, and keeps that answer |
| OfflineCacheV4.Activate | public/sw.js:43-59 | afterwards only `net-control-v4` remains, with its entries unchanged, and the clients are claimed |
| OfflineCacheV4.CachedLocalServed | public/sw.js:74-76 | a cached response for a URL that is not external is served as is, with no network call and no write |
| OfflineCacheV4.WriteThrough | public/sw.js:79-87 | once the network answers, the page gets that answer, and it is written to the cache exactly when the status is 200 and `shouldCache` holds |
| OfflineCacheV4.Fetch | public/sw.js:62-99 | the store changes only by the write-through the decision names, through `cache.put` |
| OfflineCacheV4.OfflineAnswer | public/sw.js:88-96 | on network failure an HTML request gets the cached app shell even when the request had its own cached copy; any other request gets that copy or nothing |
| OfflineCacheV4.ShouldCacheNeedsHttp | public/sw.js:113-114 | `shouldCache` is false for every URL not starting with "http" |
| OfflineCacheV4.ShouldCacheBySubstring | public/sw.js:113-117 | an http URL that contains the page host or an allow-listed host anywhere is cacheable |
| OfflineCacheV4.AllowListedHost | public/sw.js:102-117 | an https URL on an allow-listed host is never external and always cacheable, whatever the page host |
| OfflineCacheV4.UnparsableNotExternal | public/sw.js:102-110 | a URL with no parsable host name is not external |
| OfflineCacheV4.ShouldCacheIgnoresHostBoundaries | public/sw.js:102-117 | an external host whose URL mentions an allow-listed host in its query is still external, and its answer is still written through |
| OfflineCacheV4.WorkerScopeDropsFreshResponses | public/sw.js:102-118 | in a worker scope without `window`, a fresh status-200 script reaches the page as a network error and is not cached; with the page host given, it is served and cached |
| OfflineCacheV3.Install | sw.js:15-24 | `skipWaiting` is reached exactly when every manifest entry was added; the cache then holds all of them, and otherwise none |
| OfflineCacheV3.AddAll | sw.js:20 | `cache.addAll` commits every entry when all succeed and leaves the cache unchanged on the first failure |
| OfflineCacheV3.FetchAll | sw.js:20 | the fetch phase of `cache.addAll` succeeds exactly when every entry's add succeeds, and then yields exactly the entries of `Added` |
| OfflineCacheV3.InstalledEverything | sw.js:2-12 | after a successful install every manifest entry is cached with the network's response |
| OfflineCacheV3.ManifestResolvesApart | sw.js:2-12 | whatever the worker's origin, the nine manifest entries resolve to nine different URLs, so `cache.addAll` never gets the same request twice |
| OfflineCacheV3.InstalledCount | sw.js:2-24 | a successful install stores exactly nine entries: none overwrites another |
| OfflineCacheV3.Activate | sw.js:27-40 | afterwards only `net-control-v3` remains, with its entries unchanged |
| OfflineCacheV3.ExtensionUrlsPassThrough | sw.js:45-47 | a URL containing "chrome-extension" anywhere is passed through |
| OfflineCacheV3.CachedServed | sw.js:50-53 | any cached response is served without a network call or a write |
| OfflineCacheV3.AnswerWrittenForGet | sw.js:53-61 | a network answer is returned, and handed to `cache.put` whatever its status exactly when the request is a GET; it is stored unless `cache.put` refuses it (206, non-http(s)) |
| OfflineCacheV3.NonGetUncached | sw.js:50-61 | a non-GET request never matches the cache, so it always reaches the network and its answer is never written |
| OfflineCacheV3.OfflineAnswer | sw.js:63-68 | on failure an HTML request gets the cached app shell and any other request gets nothing |
| OfflineCacheV3.Fetch | sw.js:43-70 | the store changes only by the write the decision names |
| CacheApi.CacheStorage.Match | public/sw.js:72 | `caches.match` finds a response exactly when the request is a GET and some cache holds its URL |
| CacheApi.CacheStorage.Put | public/sw.js:84 | `cache.put` stores exactly a storable pair and leaves every other cache unchanged |
| CacheApi.CacheStorage.PutAll | sw.js:20 | the committed entries are added to the named cache and nothing else changes |
| CacheApi.CacheStorage.Delete | public/sw.js:50 | `caches.delete` removes exactly the named cache and reports whether it existed |
| CacheApi.CacheStorage.DeleteAllExcept | public/sw.js:45-53 | deleting every name but one leaves exactly that cache, unchanged |
| CacheApi.CacheStorage.Open | public/sw.js:23 | `caches.open` creates the cache empty when it is missing, and otherwise changes nothing |
| CacheApi.AddedExactly | public/sw.js:27-33 | an entry is among those added exactly when its resolved URL's fetch succeeded, and it maps to the network's response |
| CacheApi.AddedSize | public/sw.js:27-33 | when the entries resolve apart and every add succeeds, adding `n` entries stores `n` of them |
| ClientAuth.RegistrationError | public/auth.js:9-23 | the first failing rule decides the error: all fields present, then passwords equal, then length ≥ 6, then e-mail shape |
| ClientAuth.InvalidFormNotSent | public/auth.js:9-25 | a form that fails a rule is not sent and fails with that rule's message |
| ClientAuth.ValidateEmailLayout | public/auth.js:83-86 | the pattern holds exactly when there is no whitespace, the single '@' is preceded by something, and a '.' follows it with characters on both sides |
| ClientAuth.EmailRejections | public/auth.js:83-86 | an address containing whitespace, with no '@' or with two '@' is rejected |
| ClientAuth.AcceptedExample | public/auth.js:83-86 | "user@example.com" is accepted |
| ClientAuth.RejectedExample | public/auth.js:83-86 | "not-an-email" is rejected |
| ClientAuth.SignedInExactly | public/auth.js:36-57 | a reply signs the user in exactly when it is ok and carries both a token and a user |
| ClientAuth.NonOkMessage | public/auth.js:42-45 | a reply that is not ok fails with the server's message if it has one, else with the default text and the status |
| ClientAuth.RegisterShown | public/auth.js:72-78 | an error mentioning "Failed to fetch" is shown as the connection message; any other is shown as it is |
| ClientAuth.LoginShown | public/auth.js:124-127 | a login error is shown with its message, or the default text when the message is empty |
| ClientAuth.Browser.Register | public/auth.js:2-81 | `token` and `user` are written, and the page moves to `/index.html`, only on a signed-in outcome; otherwise storage and location are unchanged |
| ClientAuth.Browser.Login | public/auth.js:88-130 | the same for login, with the login default message |
| ClientAuth.Browser.Logout | public/auth.js:132-136 | exactly `token` and `user` are removed and the location becomes `/login.html?logout=true` |
| ClientAuth.Browser.IsAuthenticated | public/auth.js:138-153 | true exactly for an active session; an expired one logs out; a missing or unreadable token changes nothing |
| ClientAuth.ExpiryIsMonotone | public/auth.js:144 | a session active at a later time was active earlier, and one expired earlier stays expired |
| ClientAuth.ActiveExactly | public/auth.js:138-153 | a session is active exactly when a token is stored, its payload decodes, and any non-zero `exp` is not before now |
| ClientAuth.Browser.RouteGuard | public/auth.js:182-195 | on a public route an authenticated user goes to `/index.html`; elsewhere an unauthenticated user goes to the login page with the encoded path; otherwise the location is unchanged |
| ClientAuth.EncodeURIComponent | public/auth.js:192 | the encoding contains only unreserved characters, '%' and hex digits, and leaves an unreserved string unchanged |
| ClientAuth.RedirectValueIsOpaque | public/auth.js:192 | the encoded path carries no '&', '=', '#', '?', '/' or space that could break the redirect parameter |
| Dashboard.EscapeHtml | public/script.js:600-608 | an absent or empty value gives ""; otherwise each character is replaced on its own |
| Dashboard.ChainIsPerCharacter | public/script.js:602-607 | the five chained replacements equal the per-character mapping, because '&' is replaced first |
| Dashboard.EscapedIsInert | public/script.js:603-607 | the escaped text contains none of < > " ' |
| Dashboard.UnescapeEscape | public/script.js:600-608 | decoding the five entities recovers the original text, so escaping loses nothing |
| Dashboard.ReplaceAll | public/script.js:603 | one `replace(/c/g, rep)` removes every `c` and keeps every other character |
| Dashboard.RenderDevices | public/script.js:135-159 | non-array input renders nothing; otherwise there is one row per device, in order, each being that device's `RenderRow` (escaped name cell, escaped IP, badge, and the action its status offers) |
| Dashboard.RenderRow | public/script.js:141-157 | a row shows the escaped name (or "Desconocido") and IP, and offers the action of its status |
| Dashboard.OfferedActionToggles | public/script.js:146-154 | applying the action a row offers turns "connected" into "blocked" and any other status into "connected" |
| Dashboard.FindDevice | public/script.js:172 | `find` gives the first device with the IP, or none when no device has it |
| Dashboard.HandleDeviceAction | public/script.js:164-195 | with an IP and an action, the first device with that IP takes the action's status and every other device is unchanged; without them nothing changes |
| Dashboard.AddBlockedSite | public/script.js:248-282 | an empty or already listed URL leaves the list as it is; otherwise the URL is appended, and URLs stay unique |
| Dashboard.RemoveUrl | public/script.js:295 | filtering keeps exactly the sites with another URL |
| Dashboard.RemoveUrlConcat | public/script.js:295 | filtering keeps the original order |
| Dashboard.RemoveUrlUnique | public/script.js:295 | removing sites keeps URLs unique |
| Dashboard.UnblockSite | public/script.js:287-314 | a non-empty URL removes every entry with it and nothing else; an empty one changes nothing |
| Dashboard.SaveSchedule | public/script.js:319-330 | with all three fields present exactly one schedule is appended, with no check that the start precedes the end; otherwise nothing changes |
| Dashboard.MockData.constructor | public/script.js:55-66 | the initial mock data: three devices, two blocked sites, no schedules |
| Dashboard.AppState.ShowLoader | public/script.js:517-518 | sets the loading flag |
| Dashboard.AppState.HideLoader | public/script.js:548-549 | clears the loading flag |
| Dashboard.OnDeviceClick | public/script.js:613-622 | while loading nothing starts and nothing changes; otherwise the first device with the address gets the action's status, every other device and both lists are unchanged |
| Dashboard.OnAddRule | public/script.js:625-630 | while loading nothing starts and nothing changes; otherwise the trimmed input is appended unless empty or already listed, and devices and schedules are unchanged |
| Dashboard.OnUnblockClick | public/script.js:633-641 | while loading nothing starts and nothing changes; otherwise every entry with a non-empty URL is removed, the rest keep their order, and devices and schedules are unchanged |
| Dashboard.OnScheduleSubmit | public/script.js:644-653 | while loading nothing starts and nothing changes; otherwise one schedule is appended when all three fields are present, and devices and sites are unchanged |
| AuthMiddleware.BearerToken | server/middlewares/auth.js:5 | the token, when present, is non-empty and contains no space |
| AuthMiddleware.TokenAfterAnyScheme | server/middlewares/auth.js:5 | the word after the first space is the token, whatever word precedes it |
| AuthMiddleware.UnauthorizedExactly | server/middlewares/auth.js:5-9 | 401 exactly when the header is missing, has no space, or has an empty second word |
| AuthMiddleware.VerifiedOrForbidden | server/middlewares/auth.js:11-17 | an extracted token that fails verification gives 403; one that verifies passes exactly its decoded claims on |
| AuthMiddleware.AuthenticateJWT | server/middlewares/auth.js:4-18 | each call ends in exactly one way: a 401 or 403 reply with `req.user` and `next` untouched, or `req.user` set and `next` called once with no reply |
| Users.UserStore.FindOne | server/server.js:81 | a user is found exactly when one is filed under the e-mail, and it has that e-mail |
| Users.UserStore.Insert | server/server.js:95 | the collection gains exactly the new user |
| ServerRegister.ValidationMessages | server/server.js:25-42 | the schema fails exactly for a name under 3, an address not matching the pattern, or a password under 6, each with its own message |
| ServerRegister.SchemaEmailIsClientEmail | server/server.js:35 | every address the schema's pattern accepts also passes the client's `validateEmail` |
| ServerRegister.SchemaEmailFinalLabel | server/server.js:35 | an accepted address ends in a dot and a final label of two or three word characters |
| ServerRegister.ClientOnlyAddress | server/server.js:35 | "a@b.info" passes the client check and fails the schema |
| ServerRegister.UserDocument.PreSave | server/server.js:45-55 | the password is replaced by its hash only when it was modified; nothing else changes |
| ServerRegister.ClassifyError | server/server.js:117-138 | in order: a validation error gives 400 with the joined messages, code 11000 gives 409, a buffering timeout gives 503, anything else gives 500 |
| ServerRegister.BufferingTimeoutIsDbDown | server/server.js:129-131 | Mongoose's buffering-timeout message, for any operation and any timeout, holds the phrase the catch block tests, so that error is classified 503 |
| ServerRegister.Register | server/server.js:65-139 | missing fields give 400, a known e-mail 409 and an unreachable database 503, each with the store unchanged; failed validators give 400 with their messages; success gives 201, stores exactly the user with the hashed password, and replies with a `userId` token and the user without its password |
| RouterRegister.Registration | server/routes/auth.js:8-66 | a missing field gives 400 `Todos los campos son requeridos` with no change; a known e-mail gives 400 (not 409) `El correo ya está registrado` with no change; a failed lookup or save gives the generic 500 with no change; otherwise the user is stored with the hashed password, and the reply is 200 with a token signed over the `id` claim (not `userId`) and the public user, or the generic 500 when no secret is set; 200 exactly when all of these succeed |
| RouterRegister.Register | server/routes/auth.js:8-66 | the reply and the new collection are those of `Registration` |
| RouterRegister.RetryAfterMissingSecret | server/routes/auth.js:40-47 | with no secret set, a new user is stored but the reply is 500, and the same request sent again is refused as a duplicate |
| RouterRegister.DuplicateChangesNothing | server/routes/auth.js:21-27 | a request for a registered e-mail never changes the collection |
| Text.Contains | public/sw.js:115 | `includes` holds exactly when the text occurs at some position |
| Text.Split | server/middlewares/auth.js:5 | `split` gives at least one part; no part holds the separator; there is one part exactly when the separator is absent |
| Text.JoinSplit | server/server.js:124 | joining the parts of a split with the same separator gives back the string |
| Text.Trim | public/script.js:628 | `trim` removes only whitespace, from each end, and the result neither starts nor ends with whitespace |
| Text.NatToString | public/auth.js:44 | the decimal digits of a status, which read back as that number |

## Left out

- Logging, the DOM, alerts, loaders' markup, the PWA install prompt and `showMessage` are not modelled. They change nothing the model states.
- Timing is not modelled: `simulateNetworkDelay`, `fetchWithTimeout`, the 1500 ms redirect delay after registration, and the tokens' `expiresIn`. The registration redirect is modelled as immediate.
- The non-development branches of the dashboard operations are left out. They send the request to a remote API whose answer is not part of this model.
- Concurrency is not modelled. The `Promise.all` of install and activate, and the fire-and-forget `cache.put`, are sequential steps here. The dashboard's operations share one `AppState.isLoading` flag, so when two of them overlap, the first `hideLoader` reopens the gate while the other is still running. Each handler here runs to completion before the next starts. Two registrations racing for one e-mail, and the code-11000 error that race produces, are reachable only through `ServerRegister.ClassifyError`.
- ServerRegister.Register: `connected == false` stands for a connection lost after start-up. The text of the error a query then raises is Mongoose's, not this program's, and `BufferingMessage` models it. A database that never connects is not modelled: `serverSelectionTimeoutMS: 5000` makes the failed initial connect reach `process.exit(1)` (server/server.js:11-22), so that request gets no reply at all.
- `bcrypt`, `jwt.sign`, `jwt.verify`, `atob`/`JSON.parse` and Mongoose's id generation are parameters. No hashing, signature or base64 is modelled.
- `server/models/User.js` is not part of this model. `RouterRegister` takes whether `save` succeeds as a parameter.
- ClientAuth.SignedInExactly: the reply's `user` is modelled as present or absent. A `user` that is present but falsy (`null`, `""`, `0`, `false`) is refused by the `!data.user` test at public/auth.js:52 and :113 but signs in here, because the reply's JSON values are not modelled beyond the token's text.
- Missing form and body fields are modelled as the empty string. Both are falsy in every check the program makes.
- RouterRegister.RegisterBody and ServerRegister.RegisterBody hold three strings. `express.json()` and `express.urlencoded({ extended: true })` (server/server.js:60-61) can also give an object or a number, and two effects of that are not modelled. An e-mail such as `{"$ne": ""}` is truthy and reaches `User.findOne({ email })` (server/server.js:81, server/routes/auth.js:21) as a query operator, so it matches any stored user and is answered as a duplicate. A numeric password makes `bcrypt.hash` throw (server/routes/auth.js:31), which ends in the generic 500.
- Lengths are counted in Unicode characters, not in UTF-16 code units as JavaScript counts them. The `minlength` rules and the client's length check differ only for characters outside the Basic Multilingual Plane.
- ServerRegister.ValidationMessages: joins the failing validators' messages in the order of the schema's paths. Mongoose gives that order for a single document, but the order is not stated in the source.
- OfflineCacheV3.NonGetUncached: a comment at sw.js:52 says a cached response is returned for any request. Under the Cache API's own rule, `caches.match` never matches a non-GET request, and the model follows that rule.
- OfflineCacheV3.AddAll: `cache.addAll` also rejects a list holding the same request twice. The model does not check this; OfflineCacheV3.ManifestResolvesApart shows the manifest never holds such a pair.
- `install` and `activate` wait in `event.waitUntil`. A rejected install (v3) is modelled as `skipWaiting` not being reached.
- `server/routes/api.js`, `server/config/passport.js`, `server/config/database.js`, `mongoose.connect`, `app.listen` and the static file serving are not part of this model.

## Findings

| source | as written | input that shows it | evidently intended | confidence | as-written member | corrected member |
|---|---|---|---|---|---|---|
| public/sw.js:102-118 | `isExternalResource` and `shouldCache` read `window.location.hostname`, but a service worker has no `window`. The first catches the ReferenceError and answers false. The second throws inside the fetch's `then` once its "http" prefix test passes, so every status-200 answer for an http(s) URL falls into the offline branch. | a GET for `https://app.example/app.js` with `Accept: */*`, not cached, answered 200: the page gets a network error and nothing is cached | the page host, as `self.location.hostname`, decides both helpers, so the answer is served and written through | not executed | OfflineCacheV4.DecideInWorkerScope | OfflineCacheV4.Decide (lemma OfflineCacheV4.WorkerScopeDropsFreshResponses) |
