# zhiyitong core logic in Dafny

This project models the deterministic core of the zhiyitong accounting system and proves properties of the model. The system has a Vue front end and an Express/MySQL back end. The model covers these parts:

- **Tab bar store** (`frontend/src/stores/tabs.js`): an ordered list of open tabs and the active path. It is a class whose two fields the methods update. Each method is proved equal to a function on a `TabState` value. The functions are proved to keep the store's invariant: paths are unique, and while tabs exist the active path is one of theirs.
- **System bootstrap service** (`backend/src/services/systemService.js`):
  - cutting the SQL script into statements;
  - running them in order and stopping at the first failure, with no rollback;
  - the admin upsert keyed on the username;
  - the `finally` that closes the connection;
  - the fixed result shapes of `checkSystemInit`, `validateDbConfig` and `login`.

  The database is an abstract state: schema names plus `sys_user` rows by username. The mysql2 driver, the file read and bcrypt are parameters.
- **Routing** (`frontend/src/router/index.js`, `modules/menu.js`, `loadView.js`):
  - the route table generated from the menu, with an imperative generator proved equal to its specification;
  - the shape of the concrete menu;
  - the 16-entry view table;
  - the two base routes;
  - the navigation guard.
- **Session** (`frontend/src/utils/auth.js`, `frontend/src/stores/user.js`, `frontend/src/composables/usePermission.js`):
  - `localStorage` is a map held by a class;
  - the user info is written with `JSON.stringify` and read back with `JSON.parse`, and the round trip is proved;
  - the user store's login, logout, merging update and membership queries;
  - the permission decision.
- **HTTP interceptors** (`frontend/src/utils/request.js`): the bearer header, and the classification of reply bodies and failed calls into outcomes and recorded side effects (toast, clearing the session, navigation).
- **Encryption envelope** (`backend/src/utils/crypto.js`): salt(64) ‖ iv(16) ‖ tag(16) ‖ ciphertext, written as base64 per section 4 of RFC 4648. AES-256-GCM and PBKDF2 are opaque parameters. Decrypting what was encrypted gives back the text whenever the cipher's own round trip holds.

Two helper modules support the rest:

- `JsString`: `split` and `trim` of ECMA-262.
- `Base64`: the RFC 4648 alphabet with padding, and strict decoding of canonical text.

## Model

| member | source | states |
|---|---|---|
| Tabs.IndexOf | frontend/src/stores/tabs.js:24-25 | the first index whose tab has the path, or -1 exactly when no tab has it |
| Tabs.FindIndex | frontend/src/stores/tabs.js:24 | the `findIndex` scan returns the index `IndexOf` specifies |
| Tabs.Add | frontend/src/stores/tabs.js:9-20 | an open path leaves the list unchanged; otherwise one `NewTab` is appended at the end; either way the route's path becomes active and uniqueness of paths is kept |
| Tabs.Close | frontend/src/stores/tabs.js:23-38 | an absent path changes nothing and returns nothing; otherwise one tab goes; a tab is returned exactly when the active one was closed and others remain; the returned tab is in the list and active; otherwise the active path is unchanged |
| Tabs.CloseKeepsOthersInOrder | frontend/src/stores/tabs.js:27 | `splice` removes exactly the closed tab and keeps the rest in order; with unique paths the survivors are exactly the tabs with another path |
| Tabs.CloseActivatesNeighbour | frontend/src/stores/tabs.js:30-36 | closing the active tab activates the old right neighbour, or the left one when it was last |
| Tabs.CloseOthers | frontend/src/stores/tabs.js:41-47 | with the path present only that tab remains and is active; without it nothing changes |
| Tabs.RemoveAtKeepsUnique | frontend/src/stores/tabs.js:27 | `splice` of one tab keeps the remaining paths unique |
| Tabs.RemoveAtKeepsActive | frontend/src/stores/tabs.js:27-30 | removing a tab that is not the active one keeps the active path on a remaining tab |
| Tabs.ClosePreservesInv | frontend/src/stores/tabs.js:23-38 | closing keeps paths unique and the active path on an open tab |
| Tabs.CloseOthersPreservesInv | frontend/src/stores/tabs.js:41-47 | closing the others keeps the invariant |
| Tabs.ApplyPreservesInv | frontend/src/stores/tabs.js:9-53 | every store operation keeps the invariant |
| Tabs.RunPreservesInv | frontend/src/stores/tabs.js:9-53 | every sequence of operations keeps the invariant |
| Tabs.ReachableStatesAreValid | frontend/src/stores/tabs.js:5-53 | every state reachable from `([], '')` satisfies the invariant |
| Tabs.TabsStore.constructor | frontend/src/stores/tabs.js:5-6 | the store starts with no tabs and an empty active path |
| Tabs.TabsStore.AddTab | frontend/src/stores/tabs.js:9-20 | the new fields are `Add` of the old ones, and validity is kept |
| Tabs.TabsStore.CloseTab | frontend/src/stores/tabs.js:23-38 | the new fields and the returned tab are `Close` of the old state, and validity is kept |
| Tabs.TabsStore.CloseOtherTabs | frontend/src/stores/tabs.js:41-47 | the new fields are `CloseOthers` of the old ones, and validity is kept |
| Tabs.TabsStore.CloseAllTabs | frontend/src/stores/tabs.js:50-53 | the store is back at `([], '')` |
| JsString.Split | backend/src/services/systemService.js:89 | at least one piece, and no piece contains the separator |
| JsString.JoinSplit | backend/src/services/systemService.js:89 | joining the pieces with the separator gives back the text |
| JsString.SplitJoin | backend/src/services/systemService.js:89 | splitting pieces joined by a separator they do not contain gives back the pieces |
| JsString.Trim | backend/src/services/systemService.js:90 | the result is a slice with only space cut from either side, and neither of its ends is space |
| JsString.TrimOfTrimmed | backend/src/services/systemService.js:90 | trimming trimmed text changes nothing |
| SystemService.TrimAndDropEmpty | backend/src/services/systemService.js:90-91 | the kept statements are non-empty and trimmed, and contain no `;` when the pieces contain none |
| SystemService.Statements | backend/src/services/systemService.js:88-91 | every statement is non-empty, trimmed and free of `;` |
| SystemService.TrimAndDropEmptyOne | backend/src/services/systemService.js:90-91 | a single piece gives its trimmed text, or nothing when that is empty |
| SystemService.TrimAndDropEmptyAppend | backend/src/services/systemService.js:90-91 | the statements of consecutive pieces are those of the first pieces followed by those of the rest, so source order is kept; with the one-piece lemma this fixes the result of any script, padded or with a trailing `;` |
| SystemService.StatementsOfJoinedScript | backend/src/services/systemService.js:88-91 | a script made of clean statements joined by `;` is cut back into exactly those statements, in order |
| SystemService.BlankPiecesDropped | backend/src/services/systemService.js:90-91 | a piece of only space contributes no statement |
| SystemService.RunStatements | backend/src/services/systemService.js:94-96 | the run reports an error exactly when it stopped before the end |
| SystemService.RunStopsAtFirstFailure | backend/src/services/systemService.js:94-96 | the state holds the effects of all statements before the failing one; each of them succeeded; the reported error is the failing statement's |
| SystemService.UpsertAdmin | backend/src/services/systemService.js:100-104 | exactly one row for the username, holding the hash; a new username gets a fresh admin row; an existing one only a new password; other rows untouched |
| SystemService.UpsertAdminIdempotent | backend/src/services/systemService.js:100-104 | repeating the upsert with the same hash changes nothing |
| SystemService.InitFailure | backend/src/services/systemService.js:111-115 | a failure object is unsuccessful and its message starts with `系统初始化失败：` |
| SystemService.Initialize | backend/src/services/systemService.js:116-120 | a connection that was opened is closed exactly once; none is closed when opening failed |
| SystemService.InitSuccessUpsertsAdmin | backend/src/services/systemService.js:94-109 | success means every statement ran, and then the admin was upserted with the hash of the password over the state they left |
| SystemService.InitNeverFailsWithSuccessMessage | backend/src/services/systemService.js:106-115 | every failure message carries the fixed prefix; success implies a connection, a script, a complete run and a successful upsert |
| SystemService.InitStatementFailureKeepsEarlierStatements | backend/src/services/systemService.js:94-115 | on a failing statement the result is the prefixed error and the earlier statements stay applied |
| SystemService.ExecuteStatements | backend/src/services/systemService.js:94-96 | the awaited loop stops at the first failing query and ends where `RunStatements` says |
| SystemService.InitializeSystem | backend/src/services/systemService.js:72-121 | the loop-and-finally method settles, changes the database and closes as `Initialize` says |
| SystemService.CheckSystemInit | backend/src/services/systemService.js:18-46 | success exactly when connect, query and close succeed; initialized exactly when it also found a schema; otherwise the prefixed error message |
| SystemService.ValidateDbConfig | backend/src/services/systemService.js:49-69 | valid exactly when the connection opens and closes, with the fixed messages |
| SystemService.Login | backend/src/services/systemService.js:187-229 | signed in exactly when connecting, the query and `end()` succeed, a row exists and `bcrypt.compare` resolves true for the first row, returning only its id and username; `用户不存在` for no row; `密码错误` when the comparison resolves false; `登录失败：` followed by the error message when connecting, the query, `end()` or the comparison fails; the connection is closed exactly when the query succeeded |
| ViewLoader.ComponentMap | frontend/src/router/loadView.js:2-28 | the table has exactly the sixteen written keys |
| ViewLoader.LoadView | frontend/src/router/loadView.js:30-36 | a known view loads `@/views/<view>.vue`; any other view is rejected with `Component not found: <view>` |
| Menu.DashboardItem | frontend/src/router/modules/menu.js:2-7 | the dashboard entry is a well-formed leaf with a component |
| Menu.VoucherItem | frontend/src/router/modules/menu.js:8-29 | the voucher entry is a well-formed parent |
| Menu.LedgerItem | frontend/src/router/modules/menu.js:30-51 | the ledger entry is a well-formed parent |
| Menu.ReportItem | frontend/src/router/modules/menu.js:52-73 | the report entry is a well-formed parent |
| Menu.SettingsItem | frontend/src/router/modules/menu.js:74-105 | the settings entry is a well-formed parent |
| Menu.VoucherChildren | frontend/src/router/modules/menu.js:12-28 | non-empty, with relative and distinct child paths |
| Menu.LedgerChildren | frontend/src/router/modules/menu.js:34-50 | non-empty, with relative and distinct child paths |
| Menu.ReportChildren | frontend/src/router/modules/menu.js:56-72 | non-empty, with relative and distinct child paths |
| Menu.SettingsChildren | frontend/src/router/modules/menu.js:78-104 | non-empty, with relative and distinct child paths |
| Menu.MenuEntriesWellFormed | frontend/src/router/modules/menu.js:2-105 | each entry is absolute and dot-free, and has children exactly when it has no component |
| Menu.MenuPathsDistinct | frontend/src/router/modules/menu.js:3-75 | the five top-level paths are distinct |
| Menu.MenuIsWellFormed | frontend/src/router/modules/menu.js:1-106 | the whole menu is well formed |
| MenuViews.MenuViewsAreKeys | frontend/src/router/loadView.js:4-27 | every component the menu names is a key of the view table |
| UserJson.QuoteStringRoundTrip | frontend/src/utils/auth.js:23-28 | reading a stringified string gives it back and leaves the text after it |
| UserJson.QuoteListRoundTrip | frontend/src/utils/auth.js:23-28 | reading a stringified string array gives it back |
| UserJson.ParseStringify | frontend/src/utils/auth.js:21-29 | `JSON.parse(JSON.stringify(u))` is `u` |
| UserJson.StringifyInjective | frontend/src/utils/auth.js:27-29 | different user infos are stored as different text |
| UserJson.Stringify | frontend/src/utils/auth.js:28 | the text is never empty and opens with `{`, so a stored user info is never read as a missing one |
| UserJson.Parse | frontend/src/utils/auth.js:23 | only text that opens with the `id` member is accepted |
| Auth.UserInfoOf | frontend/src/utils/auth.js:21-24 | null exactly when the entry is missing or empty; otherwise the parsed record, and an error exactly when the text does not parse |
| Auth.AuthStorage.GetToken | frontend/src/utils/auth.js:6-8 | the stored token, or null when there is none |
| Auth.AuthStorage.SetToken | frontend/src/utils/auth.js:11-13 | only the token entry changes |
| Auth.AuthStorage.RemoveToken | frontend/src/utils/auth.js:16-18 | only the token entry goes |
| Auth.AuthStorage.GetUserInfo | frontend/src/utils/auth.js:21-24 | null for a missing or empty entry, otherwise what parsing it gives |
| Auth.AuthStorage.SetUserInfo | frontend/src/utils/auth.js:27-29 | only the user-info entry changes, to the stringified record |
| Auth.AuthStorage.RemoveUserInfo | frontend/src/utils/auth.js:32-34 | only the user-info entry goes |
| Auth.AuthStorage.ClearAuth | frontend/src/utils/auth.js:37-40 | both entries go and every other key keeps its value |
| Auth.AuthStorage.IsAuthenticated | frontend/src/utils/auth.js:43-45 | true exactly when a non-empty token is stored |
| Auth.SetTokenThenGet | frontend/src/utils/auth.js:6-13 | `getToken()` after `setToken(t)` is `t`, and the user info is unchanged |
| Auth.SetUserInfoThenGet | frontend/src/utils/auth.js:21-29 | `getUserInfo()` after `setUserInfo(u)` is `u`, and the token is unchanged |
| Auth.RemoveTokenKeepsUserInfo | frontend/src/utils/auth.js:16-18 | the token is gone, the session is unauthenticated, and the user info is unchanged |
| Auth.RemoveUserInfoKeepsToken | frontend/src/utils/auth.js:32-34 | the user info reads null and the token is unchanged |
| Auth.ClearAuthForgetsSession | frontend/src/utils/auth.js:37-40 | both getters read null and the session is unauthenticated |
| Router.Slice1 | frontend/src/router/index.js:40 | `slice(1)` drops exactly the first character |
| Router.GenerateRoutes | frontend/src/router/index.js:8-48 | the nested `forEach`/`push` loops build exactly `GeneratedRoutes(items)` |
| Router.GeneratedRoutesFollowMenu | frontend/src/router/index.js:8-48 | one route per entry in order, with the same paths and titles; child routes exactly for entries with children, one per child in order, titled by the child with the entry's name as parent title |
| Router.ParentRedirectsToFirstChild | frontend/src/router/index.js:14-20 | a parent route renders Home, has no name and redirects to its first child's full path |
| Router.WellFormedIsGenerable | frontend/src/router/index.js:17 | a well-formed menu never makes `children[0]` undefined |
| Router.DotJoinDistinct | frontend/src/router/index.js:26 | `a.x` names with dot-free `a` differ when their parts differ |
| Router.ChildNamesDiffer | frontend/src/router/index.js:26 | two different child routes of a well-formed menu have different names |
| Router.TopNameDiffersFromChild | frontend/src/router/index.js:26-40 | no leaf route has a child route's name |
| Router.GeneratedNamesDistinct | frontend/src/router/index.js:8-48 | for a well-formed menu all generated route names are distinct |
| Router.MenuRoutesLoadThroughTable | frontend/src/router/index.js:27-41 | for the real menu every lazily imported view resolves through `loadView` to the same file |
| Router.BaseRoutes | frontend/src/router/index.js:51-65 | two top-level routes with different names, and the root layout's generated child routes all have distinct names |
| Router.RootRedirectResolves | frontend/src/router/index.js:51-65 | the top level is exactly `login` and `root`; the root redirect reaches the dashboard route, which renders its view and redirects no further |
| Router.BeforeEach | frontend/src/router/index.js:73-89 | proceed exactly when "going to `/login`" equals "no token"; otherwise redirect to `/` with a token and to `/login` without |
| Router.GuardSettles | frontend/src/router/index.js:76-88 | the target of a redirect is always let through |
| Router.ClearedSessionReachesOnlyLogin | frontend/src/router/index.js:82-88 | after `clearAuth` every navigation ends on `/login` |
| UserStore.Includes | frontend/src/stores/user.js:48-55 | `includes` is membership |
| UserStore.Merge | frontend/src/stores/user.js:40-45 | fields present in the update win, and every other field is kept |
| UserStore.MergeEmpty | frontend/src/stores/user.js:40-45 | an empty update changes nothing |
| UserStore.MergeIdempotent | frontend/src/stores/user.js:40-45 | repeating an update changes nothing more |
| UserStore.MergeThen | frontend/src/stores/user.js:40-45 | two updates equal one in which the later values win |
| UserStore.Store.constructor | frontend/src/stores/user.js:7-13 | the user info starts empty |
| UserStore.Store.Login | frontend/src/stores/user.js:16-25 | true exactly on a successful API call, which stores the token and the returned user; on failure nothing changes |
| UserStore.Store.Logout | frontend/src/stores/user.js:28-37 | the session entries are cleared and the user info is back to its initial value |
| UserStore.Store.UpdateUserInfo | frontend/src/stores/user.js:40-45 | the user info becomes the merge of the old one and the update |
| UserStore.Store.HasPermission | frontend/src/stores/user.js:48-50 | true exactly when the permission is in the user's list |
| UserStore.Store.HasRole | frontend/src/stores/user.js:53-55 | true exactly when the role is in the user's list |
| Permission.Effect | frontend/src/composables/usePermission.js:8-22 | the effect throws exactly when it reaches `includes` on an undefined list; otherwise it assigns the three-way decision |
| Permission.UsePermission | frontend/src/composables/usePermission.js:9-21 | true exactly for a falsy argument, a super admin, or a listed permission |
| Permission.UsePermissionMatchesStore | frontend/src/composables/usePermission.js:21 | for an ordinary user the decision is the store's `hasPermission` |
| Permission.UsePermissionMonotone | frontend/src/composables/usePermission.js:21 | more permissions never refuse what fewer granted |
| Permission.UsePermissionAsWritten | frontend/src/composables/usePermission.js:4-27 | with the store as exported, the flag stays true for every argument and user |
| Permission.AsWrittenDiffersFromIntended | frontend/src/composables/usePermission.js:15-21 | an ordinary user without permissions is granted `voucher:create` as written but refused it as intended |
| Request.OnRequest | frontend/src/utils/request.js:16-20 | with a truthy token `Authorization` is `Bearer <token>`; without one the headers are untouched; other headers never change |
| Request.BearerTokenRecoverable | frontend/src/utils/request.js:18 | the token can be read back after the `Bearer ` prefix |
| Request.OnResponse | frontend/src/utils/request.js:30-63 | a body with `initialized` resolves whole; code 0 resolves with the data; 401 toasts the expiry, clears the session, goes to the login page and rejects with the message or `未授权`; any other code toasts and rejects with the message or `请求失败`, with no other effect |
| Request.OnError | frontend/src/utils/request.js:64-101 | exactly one toast with the status message; the session is cleared and the browser sent to login exactly on 401 |
| Request.StatusMessage | frontend/src/utils/request.js:69-91 | never empty; the message starts with `请求失败: ` exactly when the status is none of 400, 401, 403, 404 and 500 |
| Request.DecimalString | frontend/src/utils/request.js:89 | a status prints as a non-empty run of decimal digits |
| Request.DecimalRoundTrip | frontend/src/utils/request.js:89 | the printed digits read back as the status |
| Request.GenericStatusRecoverable | frontend/src/utils/request.js:88-89 | an unnamed status yields `请求失败: ` followed by its digits |
| Request.PathOfQueryFree | frontend/src/utils/request.js:52 | the path part of `/login?redirect=…` is `/login` |
| Request.UnauthorizedLandsOnLogin | frontend/src/utils/request.js:44-54 | after a 401 the cleared session's navigation to the login page is let through by the guard |
| Base64.SymbolValueOfSymbol | backend/src/utils/crypto.js:18 | every one of the 64 symbols reads back as its value |
| Base64.Encode | backend/src/utils/crypto.js:18 | the text is made of whole four-character blocks |
| Base64.Decode | backend/src/utils/crypto.js:23 | text is only accepted when it is made of whole four-character blocks |
| Base64.DecodeBlock | backend/src/utils/crypto.js:18-23 | a four-symbol block decodes to the three bytes it encodes |
| Base64.DecodeEncode | backend/src/utils/crypto.js:18-23 | decoding the base64 of a buffer gives back the buffer |
| Base64.EncodeLength | backend/src/utils/crypto.js:18 | every three bytes, or fewer at the end, take four characters |
| Crypto.SecretKey | backend/src/utils/crypto.js:4 | the environment's key when it is non-empty, else `your-secret-key` |
| Crypto.Pack | backend/src/utils/crypto.js:18 | the packed buffer is as long as its four parts together |
| Crypto.Slice | backend/src/utils/crypto.js:25-28 | `slice` clamps both ends to the buffer, and its bytes are the buffer's from `start` on, in order |
| Crypto.Unpack | backend/src/utils/crypto.js:25-28 | a buffer of at least 96 bytes is cut into 64, 16 and 16 bytes and a rest that pack back into it |
| Crypto.UnpackPack | backend/src/utils/crypto.js:25-28 | the slices recover exactly the salt, IV, tag and ciphertext that were packed |
| Crypto.Encrypt | backend/src/utils/crypto.js:8-19 | the output is whole base64 blocks that decode to a buffer holding at least the salt and the IV |
| Crypto.Decrypt | backend/src/utils/crypto.js:22-36 | a result is only ever produced from valid base64 |
| Crypto.DecryptEncrypt | backend/src/utils/crypto.js:8-36 | with the same secret, and a cipher whose own round trip holds, decrypting what was encrypted gives back the text |
| Crypto.EncryptCarriesSaltAndIv | backend/src/utils/crypto.js:9-18 | the decoded output starts with the salt and then the IV |

## Left out

- I/O is not modelled: the file read, the mysql2 connection, bcrypt, axios, `ElMessage`, `router.push` and Node's `crypto`. They are parameters or recorded effects. `localStorage` is a map.
- Clocks and randomness are not modelled. `created_at = NOW()` is not part of a row. The IV and salt are inputs to `Crypto.Encrypt`, which requires the 16 and 64 bytes that `randomBytes` always returns.
- Reactivity is not modelled: Pinia refs, `watchEffect` re-runs and `import()` promises. A lazy route component is represented by the file it imports.
- `getSystemStatus` and `getCompanies` are not modelled: they are plain queries with floating-point sizes and the process clock.
- The Express controllers, the routes, the ORM models, the logger and the component tests are outside this model.
- The controller calls `initializeSystem()` without arguments. The model takes the username and password as parameters.
- `login` in the service queries a table named `users`, while `initializeSystem` writes `sys_user`. The model keeps the two apart and takes the `users` rows as the query's result.
- `checkSystemInit` and `login` skip `connection.end()` when their query fails, so that connection is left open. The models state this, with 0 closes, rather than correct it.
- UserJson.Parse: accepts only the canonical text `JSON.stringify` writes for a user info. Other JSON the browser could hold under the key is an error in the model, where `JSON.parse` might accept it or throw.
- Base64.Decode: rejects non-canonical text. Node's `Buffer.from(s, 'base64')` skips invalid characters and missing padding instead. `Crypto.Decrypt` therefore fails on such input where Node would go on to the decipher.
- AES-256-GCM is assumed only to return a 16-byte tag and to open what it sealed. Its security, UTF-8 encoding of the text, and the exception thrown for a wrong tag length are not modelled. A failed decipher is an error result.
- `componentMap` is an object literal. Prototype keys such as `toString` would find a non-loader value there. The model treats the table as a plain map.
- UserStore.Merge: takes a patch of the five known fields. Extra keys, and keys present with the value `undefined`, are not modelled.
- A login API reply without `token` or `user` is not modelled. The model takes a `LoginResponse` value.
- A response body that is null throws in the success interceptor, and a non-numeric `code` is handled as a missing one. Neither case is modelled separately. The request interceptor's error handler (request.js:22-25) only re-rejects its error.
- Request.OnError: does not model the rejection value, because the error interceptor rejects with the original error object.
- Negative HTTP statuses are not modelled. A status is a natural number.
- SystemService.Initialize: `hash` is a total function, so a rejection of `bcrypt.hash` (for instance a password that is not a string) is not modelled; the source would report it through the `系统初始化失败：` catch.

## Findings

| source | as written | input that shows it | evidently intended | confidence | as-written member | corrected member |
|---|---|---|---|---|---|---|
| frontend/src/composables/usePermission.js:15-21 | reads `userStore.isSuperAdmin` and `userStore.permissions`, which the user store does not export (frontend/src/stores/user.js:57-64). For a truthy permission `includes` throws on `undefined`, and the flag keeps its initial `true`. | any signed-in user without permissions asking for `voucher:create` | grant exactly for a falsy argument, a super admin, or a permission in the user's list | not executed | Permission.AsWrittenDiffersFromIntended | Permission.UsePermission |
