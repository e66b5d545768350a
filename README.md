# Ping tracker: chains, store rules, error envelope and route guard

This project models four places of a small check-in application. A user
"pings" a location. A ping may answer an earlier ping (its `parent_ping`), and
the resulting trails are shown as chains. The project proves properties of
each model in Dafny.

- **Client ping store** (`client/src/stores/ping.ts`). `ping_chain.dfy` covers
  the walk from a ping up its parent links (`getPingChain`) and the grouping of
  all fetched pings into chains (the `pingChains` getter). `ping_store.dfy`
  models the Pinia store as a class with the fields `pings`, `latestPings`,
  `activePing` and `activatedChains`. Its getters and the actions that make no
  request, apart from `clearError`, are methods and functions of that class. `setActivePing` is declared
  `async` but awaits nothing, so its assignment is modelled as an immediate
  update.
- **Server tables** (`server/api/models.py`). `models.dfy` holds the user and
  ping tables as maps inside a `Database` class. Its methods are
  `create_user`, `create_superuser`, `Ping.objects.create` and the two deletes,
  with CASCADE from a ping's owner and SET_NULL from a ping's parent. The
  invariant `Valid()` keeps the unique and foreign-key constraints.
  `validators.dfy` holds the regex and `max_length` field validators of `name`
  and `code_name`.
- **Error envelope** (`server/api/exception_handlers.py`).
  `exception_handlers.dfy` models `custom_exception_handler`. The framework's
  response, or its absence, is an input. The code, message, details and status
  are chosen by a pure function, `Decide`. The handler then rewrites the
  response object in place.
- **Route guard** (`client/src/router/index.ts`). `router.dfy` models the
  routes table and the `beforeEach` guard.

Shared definitions live in `wrappers.dfy` (`Option`, `Result`) and `seqs.dfy`
(`Reverse`, `Distinct`, subsequences, a pigeonhole lemma).

### Termination of the chain walk

The `while` loop at `ping.ts:10` only stops at a ping whose parent link is
falsy or not found. On a cycle of links it never stops (`CycleNeverEnds`).

- The walk is defined with a step budget: `EndsWithin(p, pings, n)`.
- `GetPingChain` requires `WalkEnds`, which is `EndsWithin` with the budget
  `|pings|`.
- `EndsIfEverEnds` proves that a walk which ends within any budget also ends
  within `|pings|` steps. The precondition is therefore exactly "the loop
  exits".
- Nothing in the server stops a ping from becoming its own ancestor, so the
  model states the condition explicitly.

### Behaviour worth noting

- The handler's default code is `"error"` with message `"An error occurred."`;
  no branch produces `internal_error`.
- The handler passes a database `IntegrityError` through unhandled (the
  framework's handler returns no response). It is not turned into a
  `validation_error`.
- `models.py` declares CASCADE from a ping's owner, so `Database.DeleteUser`
  models a hard delete of the user and their pings.
- The messages of the two regex validators (models.py:43, 55) say the value must be
  alphanumeric or contain underscores, dots, or hyphens. The patterns reject
  underscores, dots and hyphens; the name pattern also rejects digits and allows
  spaces. The model reports the messages as written.

## Model

| member | source | states |
|---|---|---|
| PingChain.FirstIndexWithId | client/src/stores/ping.ts:11 | the index `find` stops at: the first ping with the id, or none before the end |
| PingChain.FindById | client/src/stores/ping.ts:11 | `pings.find((p) => p.id === id)`: the ping at `FirstIndexWithId`, or None past the end; its properties are stated by `FindByIdFirstMatch` |
| PingChain.FindByIdFirstMatch | client/src/stores/ping.ts:11 | `find` by id gives None exactly when no ping has the id, else the first ping with that id |
| PingChain.GetPingChain | client/src/stores/ping.ts:6-20 | the loop (unshift, then reverse) returns exactly the chain `ChainOf(ping, pings)` whenever the walk ends |
| PingChain.ChainWithinShape | client/src/stores/ping.ts:7-19 | a chain is non-empty, starts with the given ping and has at most one element per step |
| PingChain.ChainSuffix | client/src/stores/ping.ts:10-17 | every suffix of a chain is the chain of its own first ping |
| PingChain.ChainDistinct | client/src/stores/ping.ts:10-17 | a walk that ends never visits a ping twice |
| PingChain.ChainAncestorsListed | client/src/stores/ping.ts:11-13 | every element after the first comes from `pings` |
| PingChain.EndsIfEverEnds | client/src/stores/ping.ts:10-17 | a walk that ends within some number of steps ends within `\|pings\|` steps, with the same chain |
| PingChain.CycleNeverEnds | client/src/stores/ping.ts:10-17 | on a cycle of parent links the walk does not end within any number of steps |
| PingChain.ChainLinks | client/src/stores/ping.ts:10-16 | the chain starts at the ping; each element's successor is the first ping with its parent id; the walk moves on from no last element |
| PingChain.ChainUnique | client/src/stores/ping.ts:10-16 | any sequence with those link properties is the walk's chain, and the walk then ends |
| PingChain.ChainOfProperties | client/src/stores/ping.ts:6-20 | the chain is linked as above, lists no ping twice, its ancestors are in `pings` and it holds at most `\|pings\| + 1` pings |
| PingChain.PingIsInChain | client/src/stores/ping.ts:22-24 | `chains.some((chain) => chain.some((p) => p.id === ping.id))`: some chain holds a ping with that id; used by `Grouped`, whose coverage `GroupedCovers` and `ChainsOfProperties` state |
| PingChain.Grouped | client/src/stores/ping.ts:39-43 | the chains after the first `k` iterations of the `forEach`: a ping already in a chain is skipped, otherwise its chain is appended; stated by `GroupedGrows`, `GroupedCovers` and `GroupedChains` |
| PingChain.ChainsOf | client/src/stores/ping.ts:37-45 | the getter's result, `Grouped` over all pings; stated by `ChainsOfProperties` and computed by `PingStore.PingStore.PingChains` |
| PingChain.GroupedGrows | client/src/stores/ping.ts:39-43 | processing more pings only appends chains |
| PingChain.GroupedCovers | client/src/stores/ping.ts:39-43 | after `k` pings, each of them has its id in some chain |
| PingChain.GroupedChains | client/src/stores/ping.ts:39-43 | after `k` pings there are at most `k` chains; each is the chain of one of them and starts with a ping found in no earlier chain |
| PingChain.ChainsOfProperties | client/src/stores/ping.ts:37-45 | `pingChains` covers every ping, has at most one chain per ping, and each chain is a ping's chain starting outside all earlier chains |
| PingChain.FirstChainWithId | client/src/stores/ping.ts:49 | the index `find` stops at among the chains: the first chain holding the id |
| PingChain.FindChain | client/src/stores/ping.ts:49 | the `find` over the chains for one holding the id, or `[]` when none does (also used at ping.ts:130): the chain at `FirstChainWithId`; stated by `FindChainFirstMatch` |
| PingChain.FindChainFirstMatch | client/src/stores/ping.ts:49 | the lookup yields `[]` exactly when no chain holds the id, else the first chain that does |
| PingChain.ActiveChainsOf | client/src/stores/ping.ts:46-52 | one entry per selected id, namely the first chain holding that id or `[]` |
| PingStore.RemoveAll | client/src/stores/ping.ts:117 | `ids.filter((x) => x !== id)`, element by element; stated by `RemoveAllProperties` and `RemoveAllKeepsDistinct` |
| PingStore.RemoveAllProperties | client/src/stores/ping.ts:117 | `filter` removes every occurrence of the id; other ids keep their order and their counts |
| PingStore.RemoveAllKeepsDistinct | client/src/stores/ping.ts:117 | filtering a duplicate-free list leaves it duplicate-free |
| PingStore.PingStore.constructor | client/src/stores/ping.ts:28-35 | the initial state: no pings, no latest pings, no active ping, no selected chains |
| PingStore.PingStore.PingChains | client/src/stores/ping.ts:37-45 | the getter's loop yields exactly the grouping `ChainsOf(pings)` |
| PingStore.PingStore.ActivePingChains | client/src/stores/ping.ts:46-52 | with nothing selected the getter yields `[]` without grouping the pings (so the walk need not end); otherwise its loop yields exactly `ActiveChainsOf` for the current chains and selection |
| PingStore.PingStore.SetActivePing | client/src/stores/ping.ts:105-107 | the active ping becomes null or the first fetched ping with the requested id |
| PingStore.PingStore.ActivateChain | client/src/stores/ping.ts:111-115 | the id is present afterwards; it is appended only if absent; a duplicate-free list stays duplicate-free |
| PingStore.PingStore.DeactivateChain | client/src/stores/ping.ts:116-118 | the selection becomes the filtered list, the id is absent, and a duplicate-free list stays duplicate-free |
| PingStore.PingStore.ToggleChain | client/src/stores/ping.ts:119-125 | the new list is the filtered list when the id was selected and the old list with the id appended otherwise; so the id's membership flips, every other id's is unchanged, and duplicate-freedom is kept |
| PingStore.PingStore.IsInActiveChain | client/src/stores/ping.ts:126-128 | false whenever nothing is selected, for any ping list; otherwise true exactly when the first chain of some selected id holds the ping; a selected id in any chain is highlighted |
| PingStore.PingStore.GetPingChain | client/src/stores/ping.ts:129-131 | `[]` exactly when no chain holds the id; otherwise the first chain of the getter holding it; never `[]` for a fetched ping |
| PingStore.ActiveChainMembership | client/src/stores/ping.ts:46-52 | a ping is in the active chains exactly when it is in the first chain of some selected id that some chain holds |
| PingStore.SelectedPingIsHighlighted | client/src/stores/ping.ts:126-128 | a selected id of a fetched ping is always highlighted |
| Models.Database.constructor | server/api/models.py:33-88 | the tables start empty and satisfy the constraints |
| Models.Database.CreateUser | server/api/models.py:13-24 | in source order: missing email, missing password, rejected password, taken email, taken code name each raise and store nothing; otherwise one user is added under a fresh key; constraints kept |
| Models.Database.CreateSuperuser | server/api/models.py:26-30 | behaves as `CreateUser` with `is_staff` and `is_superuser` defaulted to true |
| Models.Database.CreatePing | server/api/models.py:75-88 | a missing user, latitude or longitude, or an owner or parent that is not stored, raises `IntegrityError` and stores nothing; otherwise one ping is added under a fresh key |
| Models.Database.DeletePing | server/api/models.py:82-88 | the ping goes; its children stay with a null parent; constraints kept |
| Models.Database.DeleteUser | server/api/models.py:76-78 | the user and all of their pings go; children of those pings get a null parent; constraints kept |
| Models.NewUser | server/api/models.py:17 | `self.model(email=email, **extra_fields)`: the supplied extra fields over the model defaults (active, not staff, not superuser, empty name and code name); stated by `CreatedUserFields` |
| Models.CreateUserOutcome | server/api/models.py:13-24 | the result of `create_user` on a user table: the first failing check in source order, else the new user; stated by `EmailRequired`, `PasswordRequired`, `CreatedUserFields` and `CreateUserKeepsUnique` |
| Models.SuperuserFields | server/api/models.py:27-28 | the two `setdefault` calls: `is_staff` and `is_superuser` become true unless supplied; stated by `SuperuserDefaults` |
| Models.CreatePingOutcome | server/api/models.py:75-88 | the result of `Ping.objects.create`: `IntegrityError` for a missing column or a dangling key, else the new row; stated by `CreatePingRequiresFields` |
| Models.AfterDelete | server/api/models.py:82-88 | the ping table after deleting a set of pings, with SET_NULL applied to their children; stated by `AfterDeleteOrphans`, `DeleteKeepsLinks` and `CascadeRemovesOwned` |
| Models.EmailRequired | server/api/models.py:14-15 | an absent or empty email raises `ValueError("The Email field must be set")` |
| Models.PasswordRequired | server/api/models.py:18-22 | an absent or empty password raises `ValueError("The Password field must be set")` |
| Models.CreatedUserFields | server/api/models.py:16-20 | a created user has the normalised email, the supplied fields or the defaults (active, not staff, not superuser), and a password that checks |
| Models.CreateUserKeepsUnique | server/api/models.py:34-36 | a user is saved only when its email and code name are free, so the users stay unique; a taken email fails |
| Models.SecondBlankCodeNameRefused | server/api/models.py:48-52 | the empty code name is unique too: a second user without a code name is refused |
| Models.SuperuserDefaults | server/api/models.py:26-30 | staff and superuser are true unless supplied; without extra fields the user is active, staff and superuser |
| Models.CreatePingRequiresFields | server/api/models.py:75-88 | without user, latitude or longitude creation fails; a created ping has the given values and keeps the links valid |
| Models.AfterDeleteOrphans | server/api/models.py:82-88 | deleting pings deletes no other ping; survivors keep their fields and lose their parent exactly when it was deleted |
| Models.DeleteKeepsLinks | server/api/models.py:76-88 | after the deletes, every owner and parent reference points at a stored row |
| Models.CascadeRemovesOwned | server/api/models.py:76-78 | after a user is deleted, none of their pings remain and every other ping does |
| Validators.NameRunLength | server/api/models.py:42 | how far `[a-zA-Z ]*` reaches: all name characters before it, a non-name character at it |
| Validators.CodeNameRunLength | server/api/models.py:54 | how far `[a-zA-Z0-9]*` reaches |
| Validators.NameErrors | server/api/models.py:37-47 | corrected rule (see Findings): no error exactly for ASCII letters and spaces up to 30 characters; the `invalid_name` error with the source's message exactly on a bad character; the `max_length` error with limit 30 and the value's length exactly above 30; the regex error comes first and no other error appears |
| Validators.CodeNameErrors | server/api/models.py:48-58 | corrected rule (see Findings): no error exactly for ASCII letters and digits up to 30 characters; the `invalid_code_name` error with the source's message exactly on a bad character; the `max_length` error with limit 30 and the value's length exactly above 30; the regex error comes first and no other error appears |
| Validators.NameRegexAsWritten | server/api/models.py:42 | the pattern as written accepts exactly the valid names and valid names followed by one newline |
| Validators.CodeNameRegexAsWritten | server/api/models.py:54 | the pattern as written accepts exactly the valid code names and those followed by one newline |
| Validators.NameRegexAcceptsTrailingNewline | server/api/models.py:42 | "Bond\n" passes the name pattern but is not a valid name |
| Validators.CodeNameRegexAcceptsTrailingNewline | server/api/models.py:54 | "agent007\n" passes the code-name pattern but is not a valid code name |
| Validators.IntendedRulesWithinPatterns | server/api/models.py:42-54 | every value the intended rules accept passes the patterns as written |
| ExceptionHandlers.StrAll | server/api/exception_handlers.py:26 | one string per item of the detail list, each `str(item)` |
| ExceptionHandlers.MapCode | server/api/exception_handlers.py:35 | `ERROR_CODES_MAP.get(code, code)` over the map of line 5; stated by `CodeRenaming` |
| ExceptionHandlers.Decide | server/api/exception_handlers.py:9-31 | the code, message, details and status the handler settles on, or the `AttributeError` of `.get` on non-dict data; stated by `ValidationErrorDecision`, `OtherErrorDecision` and `NonDictDataRaises` |
| ExceptionHandlers.Envelope | server/api/exception_handlers.py:33-41 | the `{"error": {...}}` dict written into `response.data`; stated by `EnvelopeRoundTrip` against `ReadEnvelope` |
| ExceptionHandlers.CustomExceptionHandler | server/api/exception_handlers.py:8-47 | no response stays no response; for any exception other than a validation error, data that is not a dict raises and changes nothing; otherwise the response carries the envelope and status chosen by `Decide` |
| ExceptionHandlers.EnvelopeRoundTrip | server/api/exception_handlers.py:33-41 | the envelope has exactly `error.code` (renamed) and `error.message`, plus `error.details` exactly when truthy; a client reads back what was written |
| ExceptionHandlers.ValidationErrorDecision | server/api/exception_handlers.py:15-19 | a validation error gives `validation_error`, "Validation failed.", 400 and the original data as details |
| ExceptionHandlers.OtherErrorDecision | server/api/exception_handlers.py:20-31 | other errors keep the status; the message is the joined list or `str(detail)`; the detail's code beats the exception's, which beats "error" |
| ExceptionHandlers.NonDictDataRaises | server/api/exception_handlers.py:23 | `response.data.get` on data that is not a dict raises |
| ExceptionHandlers.CodeRenaming | server/api/exception_handlers.py:5 | `no_active_account` becomes `authentication_failed`, other codes pass through, and renaming is idempotent |
| Router.Routes | client/src/router/index.ts:7-26 | the three routes with their paths, names and `requiresAuth`; stated by `RoutesTable` |
| Router.RouteNamed | client/src/router/index.ts:7-26 | resolving a name gives a route of the table with that name, or none exactly when no route has it |
| Router.RoutesTable | client/src/router/index.ts:7-26 | route names and paths are unique, and only `dashboard` requires authentication |
| Router.GuardDecision | client/src/router/index.ts:35-44 | redirect to login exactly when auth is required and missing; to dashboard exactly when a signed-in user targets login; otherwise proceed |
| Router.BeforeEach | client/src/router/index.ts:35-44 | the guard's `next()` or `next({ name })`; stated by `GuardDecision` and `RedirectsSettle` |
| Router.Destination | client/src/router/index.ts:35-44 | where a navigation ends after the guard and at most one redirect; stated by `DestinationSafe` |
| Router.RedirectsSettle | client/src/router/index.ts:37-42 | each redirect target is a route of the table that the guard lets through: no redirect loop |
| Router.DestinationSafe | client/src/router/index.ts:35-44 | every navigation lands; a signed-out user never on an auth-required route, a signed-in user never on login |

## Left out

- Async actions: `fetchAllPings`, `fetchLatestPings`, `createPing` and `respondToPing` (ping.ts:55-104) are request handling. The `processing` and `error` flags they set are not modelled either, and nothing in the model writes `latestPings` or `pings` other than the constructor.
- `clearError` (ping.ts:108-110) is synchronous but only resets the unmodelled `error` flag.
- `PingChain.GetPingChain`: requires that the walk ends. On a cycle of parent links the source loops forever, which the model shows (`CycleNeverEnds`) but cannot run.
- Ping fields: `latitude` and `longitude` are carried as `real` payloads, and floating-point behaviour is not modelled. The client's `timestamp` is an opaque string; the server's is an integer passed in as `now`.
- Django internals are parameters: `normalize_email` (`normalizeEmail`) and `validate_password` (`passwordAccepted`). Password hashing is reduced to remembering the raw password (`Hashed`).
- `created_at` and `updated_at` (models.py:63-64) are clock values and are not modelled.
- Unknown keyword arguments to `create_user` (a `TypeError` in the source) are not modelled; `ExtraFields` lists the fields the model declares.
- `Models.Database.CreateUser`: `save()` does not run field validators, so the regex and `max_length` checks of `validators.dfy` are not applied on creation, matching the source. The database's own length limit on the column is not modelled.
- `Models.CreateUserOutcome`: when both the email and the code name are taken, the model reports the email. The database reports whichever constraint it checks first.
- `Models.CreatePingOutcome`: when several columns are violated at once, the model reports them in one fixed order (user, latitude, longitude, owner key, parent key). Which one the database reports depends on column order and constraint timing, which no file of this model fixes.
- `Validators.NameErrors`: the `max_length` error carries Django's limit and the value's length, but not the wording of the message Django formats from them.
- `Validators.CodeNameErrors`: the same; the regex error carries the source's code and message verbatim.
- `ExceptionHandlers.PyStr`: Python's `repr` of a list or dict is a parameter (`repr`) rather than a definition.
- A `code` attribute on an exception is modelled only as a string or absent. A non-string `code` is not modelled.
- The framework's own `exception_handler`, which turns an exception into a response, is not part of this model; its result is an input.
- The token obtain/refresh/logout flow, the views, the urls, the serializers, admin, settings and the seed script are not part of this model.
- `client/src/stores/user.ts` is not part of this model: the guard takes `isAuthenticated` as a boolean.
- Route components and transitions (`meta.transition`) are not modelled.

## Findings

| source | as written | input that shows it | evidently intended | confidence | as-written member | corrected member |
|---|---|---|---|---|---|---|
| server/api/models.py:42 | `RegexValidator(r"^[a-zA-Z ]*$")`; without MULTILINE, Python's `$` also matches just before a final newline | `"Bond\n"` passes the name validator | names of ASCII letters and spaces only | not executed; DRF's `CharField` trims surrounding whitespace on API input, which limits the impact to other callers of model validation | Validators.NameRegexMatches (Validators.NameRegexAcceptsTrailingNewline) | Validators.NameValid (Validators.NameErrors) |
| server/api/models.py:54 | `RegexValidator(r"^[a-zA-Z0-9]*$")`, the same `$` behaviour | `"agent007\n"` passes the code-name validator | code names of ASCII letters and digits only | not executed; the same trimming applies | Validators.CodeNameRegexMatches (Validators.CodeNameRegexAcceptsTrailingNewline) | Validators.CodeNameValid (Validators.CodeNameErrors) |
