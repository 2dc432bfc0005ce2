# EvaluacionFront core, modelled in Dafny

EvaluacionFront is an administration front end for an adoption and orphanage registry. This
project models the logic of its core. It does not model the rendering.

- **Endpoint configuration** (`ConfigApi`): the base URL is normalised, the per-entity
  endpoint table is built, and `{id}` / `{userId}` placeholders are substituted.
- **Authenticated client** (`Http`):
  - `fetchWithAuth` attaches the stored bearer token;
  - on a 401 answer it refreshes the token once and retries the request once;
  - `clearTokens` removes both stored tokens.
- **Reactivation probing** (`RestoreHelper`):
  - `tryActivateEntity` builds up to four candidate requests for a soft-deleted record;
  - it sends them in order until one is accepted, a 405 or a network error moving on to the next.
- **Response normalisation** (`NormalizeResponse`):
  - camelCase property names become PascalCase;
  - `active` keeps its spelling;
  - names containing `_`, and names already capitalised, are kept.
- **Parents page** (`Parents`):
  - save: update when the values carry `Id`, create otherwise;
  - logical delete behind a confirmation;
  - its own copy of the reactivation loop, which also reloads the list.
- **Generic form** (`UiForm`):
  - the required rule and the validators (built-in email pattern, caller pattern, caller function);
  - the error record built in field order;
  - the edit handler;
  - the submit sequence, which turns a caller failure into the server error and rethrows it.
- **Side menu** (`Menu`):
  - the role → module → form tree is flattened into items numbered from 1;
  - the items are grouped by module;
  - the groups are ordered `Inicio` first, then by name;
  - the Inicio shortcut and the open-module toggle.
- **Filter bar** (`FilterBar`):
  - the search text, the selects and the program choice;
  - the parameters each change emits;
  - clearing;
  - the `''` ↔ `all` display mapping of selects.
- **Authentication context** (`AuthProvider`):
  - the in-memory tokens as a mirror of storage;
  - storage events from other tabs;
  - login, logout and register.
- **User profile** (`UserData`): loading the stored profile, logout, and `isAuthenticated`.
- **Route guard** (`ProtectedRoute`): the view chosen from the token and the idle flags, what
  happens when the idle timer fires, and accepting the expiry notice.
- **Layout** (`MainLayout`): the greeting name derived from the e-mail address.

Two support modules hold the primitives:

- `Text` has ECMAScript whitespace and `trim`, ASCII case mapping, first-occurrence
  `replace`, one-character `split`, `join`, and decimal rendering.
- `Js` has parsed JSON values, truthiness, `String(v)`, and plain objects as ordered property
  lists with property write and object spread.

How effects are represented:

- Storage (`localStorage`) is a `map<string, string>`.
- The server is a script of answers, one consumed per request. An exhausted script answers by
  throwing, like an unreachable server.
- Every request made is appended to a trace, so contracts can speak about the requests sent.
- A thrown JavaScript error is the `Threw` case of `Outcome`.
- Caller-supplied functions (form validators, `onSubmit`, `JSON.parse`) are function parameters.

## Model

| member | source | states |
|---|---|---|
| ConfigApi.StripLeadingDots | src/Api/config/ConfigApi.ts:8 | the result is the input with a run of only dots removed from the front, and it does not start with a dot |
| ConfigApi.AddScheme | src/Api/config/ConfigApi.ts:10-13 | the result always has an http/https scheme (ignoring case); a value that had one is unchanged, any other gains `http://` |
| ConfigApi.EnsureTrailingSlash | src/Api/config/ConfigApi.ts:16 | the result ends with `/`; a value that did is unchanged, any other gains exactly one `/` |
| ConfigApi.NormalizeBase | src/Api/config/ConfigApi.ts:5-16 | whatever the setting (missing, blank, dotted, schemeless), the base starts with `h`/`H`, has an http/https scheme and ends with `/` |
| ConfigApi.NormalizeIdempotent | src/Api/config/ConfigApi.ts:5-16 | normalising an already normalised base changes nothing |
| ConfigApi.NormalizeMissing | src/Api/config/ConfigApi.ts:5 | without a setting the base is exactly the default `http://localhost:5147/api/` |
| ConfigApi.NormalizeBare | src/Api/config/ConfigApi.ts:8-16 | a setting with neither scheme nor trailing slash gains `http://` in front and `/` at the end and nothing else |
| ConfigApi.DottedHostSteps | src/Api/config/ConfigApi.ts:5-8 | for any host not starting with a dot and not ending in whitespace, trimming `.` + host and removing the leading dots gives the host back |
| ConfigApi.NormalizeDottedHost | src/Api/config/ConfigApi.ts:5-16 | for any such host without scheme or trailing slash, `.` + host normalises to `http://` + host + `/`; no `/api/` segment is added |
| ConfigApi.DottedLoopback | src/Api/config/ConfigApi.ts:7-16 | the example `.127.0.0.1:5147` normalises to `http://127.0.0.1:5147/` |
| ConfigApi.Endpoints | src/Api/config/ConfigApi.ts:19-87 | the table has the declared groups and operation names in declaration order, and every URL is the base followed by its route |
| ConfigApi.ResolveAt | src/Api/restoreHelper.ts:17-18 | a placeholder with no `{` before it is the occurrence replaced: the value lands exactly in its place and the rest of the template is kept |
| ConfigApi.ResolveOnlyFirst | src/Api/restoreHelper.ts:17-18 | `replace('{id}', …)` substitutes only the first placeholder; a second one stays in the URL |
| ConfigApi.CrudResolution | src/Api/config/ConfigApi.ts:26-31 | for a brace-free base, the by-id, update and delete routes of a CRUD entity resolve to base, entity path and decimal id with no brace left; the collection routes carry none |
| Http.UsableToken | src/Api/http.ts:13-15 | a token is used exactly when it is stored and non-empty, and then it is the stored text |
| Http.BuildHeaders | src/Api/http.ts:14-16 | `Accept: application/json` always; `Authorization: Bearer <token>` when there is a token; every other caller header kept as given |
| Http.TokenField | src/Api/http.ts:30 | a token field is found exactly when the body is an object whose field is present and truthy, and it is the string rendering of the last property of that name, as `JSON.parse` keeps it |
| Http.StoreRefreshed | src/Api/http.ts:31-32 | the new access token is stored; the refresh token is replaced only when the answer carries one; no other key changes |
| Http.FetchWithAuth | src/Api/http.ts:12-47 | one to three requests are appended to the trace; any answer but 401 is returned after one request with storage untouched; only a failure of the first request propagates; each request consumes one scripted answer; after a 401 with a usable refresh token, a refresh answer carrying an access token leads to the new tokens stored, the request re-sent with `Bearer <new token>` and the retry's answer returned (the first 401 when the retry throws), and any other refresh answer to the first 401 after two requests with storage untouched |
| Http.FetchWithAuthRequests | src/Api/http.ts:13-29 | the first request carries the stored token; a 401 without a usable refresh token is final; the second request, if any, is the refresh call with the stored refresh token |
| Http.FetchWithAuthRetry | src/Api/http.ts:24-39 | after a 401, a refresh with the stored refresh token whose parsed answer carries access token `a` gives exactly three requests: the refresh call, then the original request with `Bearer a`; storage becomes the refreshed storage; the retry's answer is returned unless it throws |
| Http.FetchWithAuthNoRetry | src/Api/http.ts:28-44 | after a 401, a refresh that throws, is not JSON or carries no truthy access token gives two requests, the first 401 as the result, and storage unchanged |
| Http.FetchWithAuthStore | src/Api/http.ts:30-33 | storage changes only on the path that reaches the retry, where it becomes the storage refreshed with the refresh answer's tokens; no key outside the two tokens ever changes |
| Http.ClearTokens | src/Api/http.ts:49-52 | both token keys are removed and every other key keeps its value |
| RestoreHelper.FindKey | src/Api/restoreHelper.ts:14-15 | the first operation whose name contains the pattern (ignoring case), or none when no name does |
| RestoreHelper.FindKeyAt | src/Api/restoreHelper.ts:14-15 | an operation matching the pattern with no match before it is the one found |
| RestoreHelper.Candidates | src/Api/restoreHelper.ts:17-22 | two to four candidates in order: PATCH with the payload to the first `update` URL, PATCH `{active: true}` to the first `delete` URL (each only when found), POST to `restore/`, POST `{active: true}` to `activate/` |
| RestoreHelper.ConventionalRoutesOnly | src/Api/restoreHelper.ts:14-22 | an entity with no update or delete operation is probed with the two conventional routes only |
| RestoreHelper.CandidateInit | src/Api/restoreHelper.ts:27-31 | JSON is always accepted; a JSON content type is declared exactly when a body is sent; no other header is set |
| RestoreHelper.FirstStop | src/Api/restoreHelper.ts:34-36 | the position of the first outcome that is neither a 405 nor a thrown error; every earlier one moved on |
| RestoreHelper.LastResponse | src/Api/restoreHelper.ts:24-33 | the reported response is the last one received, with only thrown errors after it, or the earlier one when every outcome threw |
| RestoreHelper.ProbeLoop | src/Api/restoreHelper.ts:33-37 | the loop tries at least one candidate, at most one outcome per candidate, and stops before the end only on an outcome that is neither a 405 nor a throw, every earlier one having been a 405 or a throw |
| RestoreHelper.ProbeLoopRounds | src/Api/restoreHelper.ts:25-32 | the loop's outcomes are, in order, those of sending candidates 0, 1, … through `fetchWithAuth`, each from the world the previous one left, and its final world is the one those rounds leave |
| RestoreHelper.ProbeLoopSends | src/Api/restoreHelper.ts:25-32 | for every tried candidate `i`, the final trace holds, after the requests of the earlier candidates, a request with candidate `i`'s url, verb, body and JSON headers and the bearer token stored when its round began |
| RestoreHelper.ProbeLoopVerdict | src/Api/restoreHelper.ts:24-43 | the loop's result is the reference verdict on the outcomes it saw: the first stopping outcome decides, otherwise a failure carrying the last response received |
| RestoreHelper.ProbeLoopTrace | src/Api/restoreHelper.ts:32 | each tried candidate costs one to three requests, and earlier requests stay in the trace |
| RestoreHelper.TryActivateEntity | src/Api/restoreHelper.ts:4-44 | an unknown entity key throws before any request; otherwise the outcomes are those of sending the entity's candidates in order through `fetchWithAuth`, each from the world the previous one left, the result is the verdict on them, and each costs one to three requests |
| RestoreHelper.FirstOkStops | src/Api/restoreHelper.ts:34 | an ok answer to the first candidate ends the probe with success after one request |
| RestoreHelper.TwoRefusalsThenOk | src/Api/restoreHelper.ts:34-35 | two 405 answers and then an ok one: three candidates are tried and the third response is the success |
| NormalizeResponse.NormalizeKeyMeaning | src/utils/normalizeResponse.ts:4-21 | only letter case changes; any spelling of `active` becomes `active`; names with `_` are kept; otherwise the first character is upper-cased and the rest kept |
| NormalizeResponse.NormalizeKeyIdempotent | src/utils/normalizeResponse.ts:4-21 | a normalised name is left unchanged by normalising it again |
| NormalizeResponse.NormalizeItem | src/utils/normalizeResponse.ts:1-24 | the result has distinct names, exactly the normalised names of the input, and under each the value of the last property that normalises to it |
| NormalizeResponse.NormalizeItemFixed | src/utils/normalizeResponse.ts:1-24 | an object whose names are distinct and already normalised comes back unchanged, order included |
| NormalizeResponse.NormalizeItemIdempotent | src/utils/normalizeResponse.ts:1-24 | normalising twice is normalising once |
| NormalizeResponse.NormalizedNameKept | src/utils/normalizeResponse.ts:1-24 | a property whose name is already normalised, and that no other name normalises to, keeps its value |
| NormalizeResponse.OwnEntries | src/utils/normalizeResponse.ts:3 | `Object.keys` sees an object's fields, a string's characters and an array's elements under their indices, and nothing of a number or boolean; it throws on `null` |
| NormalizeResponse.NormalizeArray | src/utils/normalizeResponse.ts:26-30 | a non-array gives `[]`; an array gives its elements normalised one by one in order, and throws exactly when some element is `null` |
| Parents.FieldText | src/pages/Parents.tsx:31-36 | a missing or `null` field gives `''`; a string field gives its text |
| Parents.TextBody | src/pages/Parents.tsx:30-37 | the six text fields in the page's order, each as a string, under distinct names |
| Parents.RouteNames | src/Api/config/ConfigApi.ts:26-31 | the `Parent` group's five operation names in declaration order; the list URL is the base followed by `Parent/` |
| Parents.CandidatesMatchHelper | src/pages/Parents.tsx:87-95 | the page's four candidates are exactly those the generic helper builds for `Parent` with the same payload |
| Parents.ParentKeys | src/Api/restoreHelper.ts:14-15 | in the `Parent` group, the first `update` operation is `updateParent` and the first `delete` operation is `deleteParent` |
| Parents.ConventionalUrls | src/pages/Parents.tsx:93-94 | the page spells the restore and activate routes as the helper does |
| Parents.ListRequestRoute | src/Api/Services/ParentService.ts:16-19 | the list request goes to the group's `getAllParents` URL |
| Parents.Load | src/pages/Parents.tsx:18-22 | exactly one list request, storage untouched; the list is the normalised body and fails exactly when the request, the parse or the normalisation does |
| Parents.AllowText | src/pages/Parents.tsx:128 | the text shown for the `Allow` header is never empty (`none` stands in) |
| Parents.ActivateLoopShape | src/pages/Parents.tsx:97-136 | a run tries a candidate when there is one, keeps earlier notices, and adds one notice per failed reload plus a final one; a reloaded list comes with a success as the last notice |
| Parents.ActivateStepShape | src/pages/Parents.tsx:99-124 | every branch of one iteration (thrown, ok, 405, other) keeps the notice shape |
| Parents.AdvanceShape | src/pages/Parents.tsx:113-124 | a thrown or 405 outcome leaves the notice shape to the rest of the run |
| Parents.AcceptedShape | src/pages/Parents.tsx:108-111 | after an accepted candidate the success notice stays in place, whatever the reload does |
| Parents.ActivateLoopAgrees | src/pages/Parents.tsx:97-132 | while no reload fails, the page's loop stops where the generic loop's verdict on the page's own outcomes says, shows the notice that verdict calls for, and shows a list exactly when the verdict is a success |
| Parents.ActivateLoopProbes | src/pages/Parents.tsx:97-124 | while no reload fails, the page's loop observes exactly the outcomes of the generic probing loop on the same candidates from the same world, and ends in that loop's world, followed by the list reload whose normalised list is the one shown exactly when a list is shown |
| Parents.ActivateLoopKeepsTrace | src/pages/Parents.tsx:97-124 | every run keeps the requests sent before it, and a run with a candidate sends at least one request |
| Parents.StepKeepsTrace | src/pages/Parents.tsx:99-124 | one iteration keeps the requests the client sent for its candidate, whatever follows |
| Parents.ActivateLoopFirstRequest | src/pages/Parents.tsx:100-105 | the first request of a run is the first candidate's verb, URL and body with the stored access token |
| RestoreHelper.AdvanceStep | src/Api/restoreHelper.ts:35-40 | an outcome that moves on shifts the stop by one and leaves the verdict to the later outcomes |
| Parents.ReloadFailureContinues | src/pages/Parents.tsx:106-124 | an ok answer followed by a failing reload shows a success and still tries a second candidate, where the generic helper stops after one |
| Parents.FindById | src/pages/Parents.tsx:72-73 | the first listed parent whose `Id` is the number `id`, or none when no `Id` is |
| Parents.Activate | src/pages/Parents.tsx:71-132 | an id not in the list does nothing; otherwise the first request is the helper's first candidate for the `Parent` group sent through `fetchWithAuth`, the earlier trace is kept, the notices keep their shape, and while no reload fails the outcomes are those of the generic probe over the helper's candidates, the notice is the one its verdict calls for, and the final world is the probe's, followed by the list reload exactly when a list is shown, that list being the reload's |
| Parents.Submit | src/pages/Parents.tsx:26-51 | the first request is the update (values with `Id`) or the create; an accepted save shows a success, closes the form and sends the list request, after which a failed reload is shown and rethrown and a successful one replaces the items with the loaded list; a failed save shows the error, rethrows, and changes nothing else |
| Parents.SubmitReloads | src/pages/Parents.tsx:45-49 | after an accepted save, the handler returns normally exactly when the reload's answer has a body that normalises as a list, and then the items are that normalised list; otherwise the items are kept and the error is shown |
| Parents.AskDelete | src/pages/Parents.tsx:69 | the confirmation opens for that id and nothing else changes |
| Parents.DeleteConfirmed | src/pages/Parents.tsx:55-67 | no id (or 0) sends nothing; otherwise the logical delete comes first, then a notice and the list request, after which a failed reload is shown and a successful one replaces the items with the loaded list; errors are shown and never rethrown; the confirmation always closes |
| Parents.DeleteReloads | src/pages/Parents.tsx:58-63 | after an accepted delete, the items become the reload answer's normalised list when it has one and are kept otherwise, with one notice more on failure, and nothing is rethrown |
| Parents.ParentUrls | src/Api/Services/ParentService.ts:27-45 | for a brace-free base the update and logical-delete URLs carry the decimal id in place of the placeholder |
| Parents.ParentRoutesCrud | src/Api/config/ConfigApi.ts:26-31 | the parent operations are the conventional CRUD routes of `Parent` below the base |
| UiForm.EmailScan | src/components/UiForm.tsx:37-38 | a single left-to-right pass accepts exactly the strings matching `^\S+@\S+\.\S+$` |
| UiForm.TestText | src/components/UiForm.tsx:38-41 | missing or falsy values are tested as `''`; a string is tested as itself |
| UiForm.RunValidator | src/components/UiForm.tsx:34-47 | no validator gives no error; email and caller pattern fail exactly when the test fails, with their fixed messages; a caller function's answer is taken as is |
| UiForm.RequiredFirst | src/components/UiForm.tsx:55-58 | a blank required field (missing, `null`, or all whitespace) gets the required error whatever its validator |
| UiForm.ValidatorDecides | src/components/UiForm.tsx:34-60 | a filled-in or optional field gets exactly its validator's verdict (no error without one, the email and caller-pattern messages, the caller function's message), an empty message counting as none |
| UiForm.TrimEmpty | src/components/UiForm.tsx:55 | a text trims to `''` exactly when it is all whitespace |
| UiForm.ValidateMeaning | src/components/UiForm.tsx:51-61 | the record holds an error for a name exactly when some field of that name has one, and it is the last such field's error |
| UiForm.ValidateEmpty | src/components/UiForm.tsx:65-66 | no error is recorded exactly when no field has one |
| UiForm.DistinctNamesKeepErrors | src/components/UiForm.tsx:53-61 | with distinct field names, each field's error is stored under its own name |
| UiForm.ErrorMessage | src/components/UiForm.tsx:73-74 | a missing or `null` error reads `Error`; an object with `message` reads that message; a string reads itself |
| UiForm.Submit | src/components/UiForm.tsx:49-80 | the error record is replaced; `onSubmit` is called with the current values exactly when no field has an error; a caller failure becomes the server error and is rethrown; `submitting` ends false after a call |
| UiForm.HandleChange | src/components/UiForm.tsx:28-32 | the named value is set and its error cleared; the server error is cleared; every other value and error is kept |
| UiForm.ChangeFillsRequired | src/components/UiForm.tsx:28-32 | after non-blank text is typed into a required field, the field is judged by its validator alone |
| Menu.FlattenMenu | src/components/MainLayout/Menu.tsx:46-59 | non-array data gives no items; otherwise one item per form of every module of every role, in traversal order, with ids 1, 2, 3, … and no gap |
| Menu.PushForms | src/components/MainLayout/Menu.tsx:53-56 | the forms of one module are appended as items carrying the module's name and the next ids |
| Menu.PushModules | src/components/MainLayout/Menu.tsx:50-57 | the forms of every module of one role are appended, module after module |
| Menu.EntriesAppend | src/components/MainLayout/Menu.tsx:49-58 | flattening distributes over concatenating role lists |
| Menu.EmptyRoleAddsNothing | src/components/MainLayout/Menu.tsx:50-53 | a role whose modules carry no forms (or that has no module list) adds no items |
| Menu.ModuleEntriesCount | src/components/MainLayout/Menu.tsx:51-56 | the number of items from a list of modules is its number of forms |
| Menu.MenuTemplateDeclared | src/Api/config/ConfigApi.ts:82-85 | the menu template is the one the endpoint table declares for `menu.getMenuItems` |
| Menu.MenuUrlResolved | src/Api/Services/MenuService.ts:8 | under a brace-free base, the user id lands where `{userId}` was and nothing else changes |
| Menu.FetchMenu | src/components/MainLayout/Menu.tsx:40-66 | nothing is requested without a user id (missing or 0); otherwise the user's menu URL is requested; an error keeps the items, and an answer replaces them with the flattened tree |
| Menu.InModule | src/components/MainLayout/Menu.tsx:69-72 | the items of a module are exactly the items carrying its name, and none exist exactly when no item does |
| Menu.GroupItems | src/components/MainLayout/Menu.tsx:68-72 | the grouping object has distinct keys |
| Menu.GroupMeaning | src/components/MainLayout/Menu.tsx:68-72 | the modules with items are exactly the keys, and each key holds exactly its module's items in their original order |
| Menu.GroupPlacesEveryItem | src/components/MainLayout/Menu.tsx:68-72 | every item sits in its own module's group and in no other |
| Menu.StrLeTotal | src/components/MainLayout/Menu.tsx:77 | the name order compares every pair |
| Menu.StrLeTrans | src/components/MainLayout/Menu.tsx:77 | the name order is transitive |
| Menu.StrLeAntisym | src/components/MainLayout/Menu.tsx:77 | two names ordered both ways are equal |
| Menu.Insert | src/components/MainLayout/Menu.tsx:74-78 | inserting into a list sorted by name keeps it sorted and adds exactly the one entry |
| Menu.SortByName | src/components/MainLayout/Menu.tsx:74-78 | the result is a permutation of the groups, sorted by name |
| Menu.PartitionInicio | src/components/MainLayout/Menu.tsx:75-76 | the groups split into the `Inicio` ones and the rest, with none lost or added |
| Menu.OrderModules | src/components/MainLayout/Menu.tsx:74-78 | a permutation of the groups in which every `Inicio` group (any letter case) comes before every other, and the others are in increasing name order |
| Menu.SortedUnique | src/components/MainLayout/Menu.tsx:74-78 | with distinct module names the order of the non-`Inicio` groups is fully determined |
| Menu.InicioTarget | src/components/MainLayout/Menu.tsx:98-103 | the first form's path when there is a first form with a non-empty path, `/home` otherwise; never empty |
| Menu.InicioGoesToFirstForm | src/components/MainLayout/Menu.tsx:98-103 | the Inicio click goes to the path of the module's first item in flattened order |
| Menu.Toggle | src/components/MainLayout/Menu.tsx:115 | clicking the open module closes it; clicking any other opens that one |
| Menu.ToggleTwice | src/components/MainLayout/Menu.tsx:115 | two clicks on a module that was not open leave every module closed; two clicks on the open one leave it open; from all closed, one click opens it |
| FilterBar.Fill | src/components/FilterBar.tsx:86-92 | one value per configured name, with distinct names |
| FilterBar.FillHas | src/components/FilterBar.tsx:86-92 | exactly the configured names are keys |
| FilterBar.FillValue | src/components/FilterBar.tsx:86-92 | each name holds what the last configuration of that name gives |
| FilterBar.InitialMeaning | src/components/FilterBar.tsx:86-92 | each select starts at its configured value, or `''` without one |
| FilterBar.Init | src/components/FilterBar.tsx:83-95 | the bar starts with an empty search, no program, and exactly the configured selects |
| FilterBar.ParamsAt | src/components/FilterBar.tsx:101-126 | the emitted object holds `programa` when given, else a select's value, else the search text under `search`, and nothing under any other name |
| FilterBar.SearchChange | src/components/FilterBar.tsx:98-102 | only the search text changes |
| FilterBar.SearchChangeParams | src/components/FilterBar.tsx:98-102 | a search change emits the new text and every select value, and no `programa` unless a select has that name |
| FilterBar.SetSelect | src/components/FilterBar.tsx:106 | the copy has that name set to the value and every other select unchanged |
| FilterBar.SelectChange | src/components/FilterBar.tsx:105-109 | only the named select changes; search and program stay |
| FilterBar.SelectChangeParams | src/components/FilterBar.tsx:105-109 | a select change emits `programa` (the chosen program's value or `''`), the selects after the change, and the search text |
| FilterBar.ProgramChange | src/components/FilterBar.tsx:112-115 | only the program choice changes |
| FilterBar.ProgramChangeParams | src/components/FilterBar.tsx:112-115 | a program change emits `programa` as the option's value (`''` when cleared), with the search and every select |
| FilterBar.ClearedMeaning | src/components/FilterBar.tsx:118-124 | after clearing, exactly the configured selects remain, all `''` |
| FilterBar.Clear | src/components/FilterBar.tsx:118-127 | clearing empties the search and the program choice |
| FilterBar.ClearParams | src/components/FilterBar.tsx:118-127 | clearing emits `search`, `programa` and every configured name, nothing else, all `''` |
| FilterBar.Shown | src/components/FilterBar.tsx:162 | a select shows `all` exactly for a stored `''` (or `all`), and any other stored value as itself |
| FilterBar.Chosen | src/components/FilterBar.tsx:163 | choosing `all` (or `''`) stores `''`; any other choice is stored as itself |
| FilterBar.SentinelRoundTrip | src/components/FilterBar.tsx:162-163 | reading back a stored value through the display gives it back exactly when it is not `all` |
| FilterBar.NonEmpty | src/components/FilterBar.tsx:166 | exactly the options with a non-empty value are kept |
| FilterBar.NonEmptyOne | src/components/FilterBar.tsx:166 | a single option is kept exactly when its value is not empty |
| FilterBar.NonEmptyAppend | src/components/FilterBar.tsx:166 | filtering a concatenation is the concatenation of the filtered parts, so order and repeats are kept |
| FilterBar.NonEmptyKeepsAll | src/components/FilterBar.tsx:166 | a list with no empty value is kept whole, order included |
| FilterBar.Options | src/components/FilterBar.tsx:164-167 | `all` comes first, labelled with the placeholder or `Todos`, then exactly the configured options with a non-empty value, as the order-keeping filter `NonEmpty` gives them |
| AuthProvider.GetItem | src/hook/AuthProvider.tsx:17-18 | a value is read exactly when the key is stored, and it is the stored value |
| AuthProvider.Init | src/hook/AuthProvider.tsx:17-18 | both in-memory tokens start as storage holds them |
| AuthProvider.OnStorage | src/hook/AuthProvider.tsx:21-24 | an event for a token key sets that token alone to the new value; any other event changes nothing |
| AuthProvider.StorageKeepsMirror | src/hook/AuthProvider.tsx:17-24 | if the tokens mirrored storage before another tab wrote or removed a key, they mirror it after the event |
| AuthProvider.Login | src/hook/AuthProvider.tsx:29-39 | a service error propagates; an answer with a truthy access token stores it (and the refresh token only when one came back), sets both tokens in memory and succeeds; any other answer fails and changes nothing |
| AuthProvider.LoginMirror | src/hook/AuthProvider.tsx:31-35 | after a successful login the tokens mirror storage exactly when a refresh token came back or none was stored before |
| AuthProvider.Logout | src/hook/AuthProvider.tsx:41-45 | both tokens leave storage and memory, and every other key stays |
| AuthProvider.LogoutMirror | src/hook/AuthProvider.tsx:41-45 | after logout the tokens mirror storage |
| AuthProvider.Register | src/hook/AuthProvider.tsx:47-50 | a service error propagates; otherwise true exactly when the answer is an object whose `isSuccess` is truthy |
| UserData.Load | src/hook/useUserData.ts:32-44 | a stored, non-empty profile that parses becomes `userData`; otherwise `userData` is unchanged; loading ends in every case |
| UserData.LoadAuthenticates | src/hook/useUserData.ts:32-59 | after loading from the start state the user is authenticated exactly when a stored profile parsed to a truthy value; a parsed object or array always does, empty ones included |
| UserData.AuthenticatedIsNonNull | src/hook/useUserData.ts:59 | for a profile that is an object or `null`, being authenticated is being non-null |
| UserData.FalsyProfileNotAuthenticated | src/hook/useUserData.ts:35-59 | a profile that parses to `0` is kept, yet does not authenticate |
| UserData.Logout | src/hook/useUserData.ts:49-54 | the profile and both tokens leave storage, other keys stay, and the user is no longer authenticated |
| UserData.LogoutThenLoad | src/hook/useUserData.ts:32-54 | loading after logout finds no profile, so the user stays signed out |
| ProtectedRoute.ViewOf | src/components/MainLayout/ProtectedRoute.tsx:57-92 | the page is shown exactly with a token and no idle expiry; only the notice exactly after an idle expiry; the no-session screen otherwise; the notice is open as the flag says |
| ProtectedRoute.SignOut | src/components/MainLayout/ProtectedRoute.tsx:30-37 | both tokens leave storage; the central logout also clears them in memory, the fallback also removes the profile; no other key changes |
| ProtectedRoute.OnIdle | src/components/MainLayout/ProtectedRoute.tsx:28-40 | after the idle callback the notice is shown, the session counts as expired by inactivity, and no token is stored |
| ProtectedRoute.OnAccept | src/components/MainLayout/ProtectedRoute.tsx:43-55 | accepting clears both flags, leaves no token stored and navigates to `/` |
| ProtectedRoute.IdleShowsNotice | src/components/MainLayout/ProtectedRoute.tsx:28-40 | after an idle expiry only the open notice is rendered, whatever token the context holds |
| ProtectedRoute.AcceptAfterIdle | src/components/MainLayout/ProtectedRoute.tsx:43-92 | accepting after the central logout leads to the no-session screen; after the fallback the view depends on the in-memory token as before |
| ProtectedRoute.FreshView | src/components/MainLayout/ProtectedRoute.tsx:57-92 | without an idle expiry the view depends only on the token |
| MainLayout.Capitalize | src/layout/MainLayout.tsx:19 | same length; the first character upper-cased and the rest kept |
| MainLayout.CapitalizeAll | src/layout/MainLayout.tsx:18-19 | every segment capitalised, in order |
| MainLayout.UserName | src/layout/MainLayout.tsx:14-23 | `Usuario` without a truthy `email`; for a string address, the name built from the text before the first `@`; it throws exactly for a truthy non-string `email` |
| MainLayout.LocalPart | src/layout/MainLayout.tsx:16 | the first piece of `split('@')` is the text before the first `@` |
| MainLayout.NoAt | src/layout/MainLayout.tsx:16 | an address without `@` is used whole |
| MainLayout.NameSpelled | src/layout/MainLayout.tsx:17-20 | splitting at dots, capitalising each segment and joining with spaces is a character-by-character rewrite |
| MainLayout.NameMeaning | src/layout/MainLayout.tsx:17-20 | the name is as long as the address part; each `.` becomes a space; the first character and each character after a `.` are upper-cased; all others are kept |
| MainLayout.WordCount | src/layout/MainLayout.tsx:17-20 | one word per dot-separated segment, empty ones included |
| MainLayout.UserNameOfAddress | src/layout/MainLayout.tsx:14-20 | the greeting for `a@rest` with no `@` in `a` is the name built from `a` |
| Text.Trim | src/Api/config/ConfigApi.ts:5 | the result is the input with only whitespace removed from both ends, and it neither starts nor ends with whitespace |
| Text.ReplaceFirst | src/Api/Services/MenuService.ts:8 | no occurrence leaves the text unchanged; otherwise only the first occurrence is replaced |
| Text.SplitCount | src/layout/MainLayout.tsx:17 | `split` yields one piece per separator plus one |
| Text.JoinSplit | src/layout/MainLayout.tsx:17-20 | splitting and re-joining with the same separator gives the text back |
| Js.Put | src/components/UiForm.tsx:29 | the written key reads the new value, every other key reads as before, an existing key keeps its position, and a new one is appended |
| Js.Assign | src/components/FilterBar.tsx:101 | every key of the source reads its last value there, every other key reads as before, and distinct keys stay distinct |
| Js.AssignIntoEmpty | src/components/FilterBar.tsx:106 | spreading an object with distinct names into `{}` copies it, order included |

## Left out

- Rendering, styling, routing and React state scheduling are not modelled. Handlers are functions from the old state to the new one.
- Network and storage are modelled as data (scripted answers, a map). No concurrency is modelled: handlers run one at a time to completion.
- The idle-timer hook (`src/hook/userIdleTimer`) and the `useAuth` hook are not part of this model. Time is not modelled: the guard receives the timer's firing as the `OnIdle` call.
- Menu.FetchMenu: the user id is a parameter. Menu.tsx:21 and 43 read `useAuth().user?.id`, but the context that AuthProvider.tsx:6-12 and 53 builds has no `user` field. With that provider the id is always missing and no menu request is sent. The source of `useAuth` is not part of this model, so this cannot be settled here, and the request contract covers ids the shown provider never supplies.
- The service modules (`src/Api/Services/*`) are not modelled on their own. Only the requests they send for parents and the menu are.
- `Menu.handleLogout` (Menu.tsx:28-37) is not a separate member. It is the same central-or-fallback step as `ProtectedRoute.SignOut`, followed by navigation to `/`.
- `Number(uid)` (Menu.tsx:45) is not modelled. The user id is taken to be an integer already.
- Js.ToJsString: numbers are integers, so `String(v)` of a fractional number is not modelled. The only JSON values the client code inspects carry integer numbers.
- Menu.StrLe: `localeCompare` is replaced by code-unit lexicographic order, because locale collation is outside the model. When two groups both spell `inicio` (in different letter case), the source's comparator is inconsistent. The model keeps such groups in grouping order.
- Text.Upper: case mapping is ASCII-only. `toUpperCase` and `toLowerCase` on other characters are not modelled.
- Js.Obj: `Object.keys` lists integer-like names first, in numeric order. The model keeps plain insertion order for every name.
- Js.Obj: objects have no prototype chain. In the source, names inherited from `Object.prototype` behave differently:
  - A module named `constructor`, `toString` or `__proto__` makes `grouped[i.module]` truthy at Menu.tsx:70, so the `.push` at Menu.tsx:72 throws during rendering, while Menu.GroupItems groups it normally.
  - RestoreHelper.TryActivateEntity throws for an entity key that is not an endpoint group. With the key `constructor`, the source finds no operation names (restoreHelper.ts:5, 14) and probes the two conventional routes instead.
  - `out['__proto__'] = v` at normalizeResponse.ts:11 replaces the prototype rather than adding a property, while NormalizeResponse.NormalizeItem adds it.
- Js.Lookup reads the first property of a repeated name, while `JSON.parse` keeps the last. Http.TokenField reads the last. The other readers of parsed bodies (the `message` and `isSuccess` fields, the stored profile) use Lookup, which agrees with the last value whenever names are distinct (`Js.LastValueDistinct`), as they are in any object `JSON.parse` builds.
- Parents.ActivateLoop: its own ensures only bound the number of outcomes. The separate lemmas state the rest: the notices (`ActivateLoopShape`), the requests kept and sent first (`ActivateLoopKeepsTrace`, `ActivateLoopFirstRequest`), and, while no reload fails, the verdict, outcomes and final world (`ActivateLoopAgrees`, `ActivateLoopProbes`). After a failed reload, the model states the notices, the earlier requests and the first request, but not which later outcomes and world follow.

Behaviour of the code worth noting:

- The probing loop stops at the first answer that is neither ok nor 405 (restoreHelper.ts:36, Parents.tsx:115-119).
- `replace('{id}', …)` substitutes only the first placeholder (`ConfigApi.ResolveOnlyFirst`).
- A dotted host such as `.127.0.0.1:5147` becomes `http://127.0.0.1:5147/`, with no `/api/` segment (`ConfigApi.NormalizeDottedHost`).
- A token refresh replaces the refresh token only when the answer carries one (http.ts:32). The same holds for login (AuthProvider.tsx:33), so storage can keep an older refresh token while memory holds `null` (`AuthProvider.LoginMirror`).
- `isAuthenticated` is the truthiness of the parsed profile (useUserData.ts:59). A profile parsed to `0`, `''` or `false` does not authenticate (`UserData.FalsyProfileNotAuthenticated`).
- In the Parents page, the reload after an accepted activation sits inside the per-candidate `try` (Parents.tsx:110). A failing reload therefore moves on to the next candidate after a success was already shown (`Parents.ReloadFailureContinues`).
- The menu response is used as returned. `Menu.tsx` reads `ModuleForm`, `Name`, `Form` and `Path` directly and applies no case normalisation to them.
- A select whose stored value is `all` reads back as `''` (`FilterBar.SentinelRoundTrip`). The value `all` cannot be chosen through the select.
