# Navigation guards of the console's route tree

A model of the pre-navigation guards of the GraphQL-engine console
(`frontend/libs/console/legacy-ee/src/lib/routes.js`). The router calls each guard
as `(nextState, replaceState, cb)`. Here every guard is a pure function of what it
reads: the OAuth response in the store, the pending pathname, the restricted-path
table, the console globals, the privileges, and how each server fetch settles. It
returns an `Effect`: the navigations it requested in order (`replaceState(target)`
or the dispatched `redirectToMetadataStatus()`), how many times it called `cb`, and
the alert it raised.

Modules:

- `Paths`: string `indexOf`, with indices counted in characters. The guards use it
  only as a prefix test (`=== 0`) and as a substring test (`!== -1`).
- `Navigation`: `Effect`, `Redirect`, `Option`, and the console `Globals`
  (`consoleMode`, `consoleType`, `adminSecret`, `adminSecretLabel`).
- `Access`: the reverse restricted-path scan (`accessDeniedRedirects`) as a
  function and as the source's loop, and `validateAccessToRoute` with its
  metrics-only rule.
- `Hooks`: `shouldLoadAsyncGlobals` and the hook list of `generateOnEnterHooks`.
- `Admin`: `checkIfAdmin`.
- `Migration`: `requireMigrationStatus` and its three alerts.
- `Metadata`: `loadInconsistentMetaDataObjects`.

Behaviour kept as the code has it:

- When a restricted prefix denies, `accessDeniedRedirects` calls `cb` and
  `validateAccessToRoute` calls it again, so the continuation runs twice. The
  metrics-only rule then tests the original pathname. A denied metrics-only session
  can therefore get two `replaceState` calls.
- The metrics-only rule is a substring test. Any path that contains the metrics
  module path or `/access-denied` anywhere is left alone.
- Without an `id_token`, `shouldLoadAsyncGlobals` loads both globals.
- A failed migration-status load in CLI mode raises an alert and does not call
  `cb`, so the navigation stays suspended.
- A rejected metadata load has no handler. The guard then neither redirects nor
  calls `cb`.

## Model

| member | source | states |
|---|---|---|
| Navigation.AdminSecretSet | frontend/libs/console/legacy-ee/src/lib/routes.js:69 | `globals.adminSecret` is truthy: present and non-empty |
| Access.Truthy | frontend/libs/console/legacy-ee/src/lib/routes.js:162 | `accessState[key]` is truthy: the key is present and its flag is true; an absent key is falsy |
| Access.Denies | frontend/libs/console/legacy-ee/src/lib/routes.js:161-162 | An entry stops the navigation when its prefix is a prefix of the path (`indexOf === 0`) and its flag is not truthy |
| Access.MetricsOnly | frontend/libs/console/legacy-ee/src/lib/routes.js:192-195 | `hasMetricAccess` truthy while neither `hasDataAccess` nor `hasGraphQLAccess` is |
| Access.NeedsMetricsRedirect | frontend/libs/console/legacy-ee/src/lib/routes.js:198-199 | The path contains neither the module path nor `/access-denied` anywhere (substring, not prefix) |
| Admin.NotAdmin | frontend/libs/console/legacy-ee/src/lib/routes.js:263-264 | The console type is not `pro-lite` and the privileges lack `admin` |
| Metadata.HasInconsistencies | frontend/libs/console/legacy-ee/src/lib/routes.js:145-146 | Some inconsistent object, or a present and non-empty list of inconsistent inherited roles |
| Paths.IndexOf | frontend/libs/console/legacy-ee/src/lib/routes.js:161 | The result is the least index where the pattern occurs, or -1 exactly when it occurs nowhere (so the empty pattern gives 0) |
| Paths.IndexOfFrom | frontend/libs/console/legacy-ee/src/lib/routes.js:198-199 | A search resumed at `from` finds an occurrence at or after `from`, and none lies between `from` and the index returned |
| Paths.StartsWithIsPrefix | frontend/libs/console/legacy-ee/src/lib/routes.js:161 | `indexOf(p) === 0` holds exactly when `p` is a prefix of the path |
| Paths.ContainsItself | frontend/libs/console/legacy-ee/src/lib/routes.js:198 | Every path contains itself under the `indexOf(...) !== -1` test |
| Access.LastDenied | frontend/libs/console/legacy-ee/src/lib/routes.js:158-167 | The scan stops at an entry whose prefix matches and whose flag is falsy or absent, with no such entry declared after it; it finds nothing exactly when no entry denies |
| Access.AccessDeniedRedirects | frontend/libs/console/legacy-ee/src/lib/routes.js:157-169 | At most one `replaceState`, to the `replace` target of the last-declared denying entry, with exactly one `cb` call alongside it; neither happens when no entry denies |
| Access.ScanRestrictedPaths | frontend/libs/console/legacy-ee/src/lib/routes.js:158-167 | The descending loop with `break` computes the same effect as the reverse scan |
| Access.AllowedEntriesAreTransparent | frontend/libs/console/legacy-ee/src/lib/routes.js:161-166 | Later-declared entries none of which denies (matching prefixes with truthy flags among them) leave the outcome unchanged, so earlier-declared entries are still checked |
| Access.LaterDeclaredWins | frontend/libs/console/legacy-ee/src/lib/routes.js:158-165 | Once some later-declared entry denies, no earlier-declared entry affects the outcome |
| Access.ValidateAccessToRoute | frontend/libs/console/legacy-ee/src/lib/routes.js:171-208 | Without a token: one `cb` and nothing else. With a token: `cb` runs twice exactly when a restricted prefix denies, otherwise once. The first redirect goes to the last-declared denying entry's target. For a metrics-only session whose path contains neither the module path nor `/access-denied`, the last redirect goes to the module path. There are no other redirects |
| Access.MetricsRedirectSettles | frontend/libs/console/legacy-ee/src/lib/routes.js:191-202 | Validating the metrics module path itself triggers no metrics redirect, only the restricted-path one if any |
| Access.MetricsOnlyRedirect | frontend/libs/console/legacy-ee/src/lib/routes.js:191-205 | A metrics-only session outside the metrics module, with no denying prefix, gets exactly one redirect to the module path and one `cb` |
| Hooks.ShouldLoadAsyncGlobals | frontend/libs/console/legacy-ee/src/lib/routes.js:210-242 | Without an `id_token` both loads run; with one, `shouldLoadOpts` is the truthiness of `hasDataAccess` and `shouldLoadServer` that of `hasGraphQLAccess` |
| Hooks.GenerateOnEnterHooks | frontend/libs/console/legacy-ee/src/lib/routes.js:244-258 | The list has exactly 1 hook, plus one when some load is planned, plus one more when options load, and starts with `validateAccessToRoute` and starts with `validateAccessToRoute`. `requireAsyncGlobals` with the plan's flags comes second exactly when some load is planned. `requireSource` is present exactly when options load, and then comes last, after `requireAsyncGlobals` |
| Hooks.LoadsNothingIff | frontend/libs/console/legacy-ee/src/lib/routes.js:230-256 | With a token, nothing loads, and the chain is the access check alone, exactly when neither `hasDataAccess` nor `hasGraphQLAccess` is truthy |
| Hooks.MoreAccessLoadsMore | frontend/libs/console/legacy-ee/src/lib/routes.js:230-256 | If every flag truthy in one access state is truthy in another, the second loads whatever the first loads and its chain is no shorter |
| Hooks.NoTokenRunsEveryHook | frontend/libs/console/legacy-ee/src/lib/routes.js:210-256 | A session without a token gets all three hooks, with both loads |
| Hooks.MetricsOnlyLoadsNothing | frontend/libs/console/legacy-ee/src/lib/routes.js:230-256 | A metrics-only session's chain is `validateAccessToRoute` alone |
| Admin.CheckIfAdmin | frontend/libs/console/legacy-ee/src/lib/routes.js:260-268 | Redirects once to `api/security/access_denied` exactly when the console type is not `pro-lite` and the privileges lack `admin`; otherwise does nothing; never calls `cb` nor alerts |
| Admin.OnlyAdminPrivilegeMatters | frontend/libs/console/legacy-ee/src/lib/routes.js:263-266 | Two privilege lists that agree on containing `admin` get the same effect |
| Admin.ProLiteNeverRedirects | frontend/libs/console/legacy-ee/src/lib/routes.js:262-263 | A `pro-lite` console never redirects, whatever the privileges |
| Admin.AdminPrivilegeAdmits | frontend/libs/console/legacy-ee/src/lib/routes.js:263-266 | Privileges that include `admin`, whatever else they hold, are never redirected |
| Migration.FailureAlert | frontend/libs/console/legacy-ee/src/lib/routes.js:67-82 | A rejection picks exactly one of three alerts: with code `data_api_error`, the CLI message if an admin secret is set and the configuration prompt naming the secret label if not; with any other or no code, the unreachable-engine message |
| Migration.RequireMigrationStatus | frontend/libs/console/legacy-ee/src/lib/routes.js:61-89 | No redirects. `cb` is called at most once: outside CLI mode always, in CLI mode exactly when the status loads. An alert is raised exactly when `cb` is not called, and its text is the failure's alert |
| Migration.AlertText | frontend/libs/console/legacy-ee/src/lib/routes.js:70-80 | The literal text of each of the three alerts, the CLI message and the secret label spliced in where the source splices them |
| Migration.AlertTextInjective | frontend/libs/console/legacy-ee/src/lib/routes.js:68-81 | Distinct alerts have distinct texts, so the text shown identifies the branch taken and the message or label it carries |
| Metadata.LoadInconsistentMetaDataObjects | frontend/libs/console/legacy-ee/src/lib/routes.js:139-155 | After a successful load: exactly one `cb`, and a single redirect to the metadata status page exactly when objects or inherited roles are inconsistent and the page is not already the status page. A rejected load does nothing |
| Metadata.AbsentRolesActAsEmpty | frontend/libs/console/legacy-ee/src/lib/routes.js:146 | An absent `inconsistentInheritedRoles` gives the same effect as an empty list (optional chaining) |
| Metadata.ConsistentIgnoresPage | frontend/libs/console/legacy-ee/src/lib/routes.js:144-152 | Without inconsistencies the guard only continues, whichever page is current |
| Metadata.StatusPageIsFixpoint | frontend/libs/console/legacy-ee/src/lib/routes.js:144-152 | On the status page the guard only continues |

## Left out

- The JSX route tree (`routes.js:270-363`) and the React/Redux wiring. They are declarative UI plumbing; store reads are inputs here.
- `decodeToken`, `checkAccess`, `restrictedPathsMetadata` and the metrics `relativeModulePath` are defined in files that are not part of this model. The decoded access state, the restricted-path table (as an ordered sequence) and the module path are parameters.
- The path of `this.invalidateToken()` on an undecodable token (`routes.js:96-99`, `176-179`, `217-220`). `this` is unbound there and the next line dereferences the failed decode, so the source crashes. `Access.Decodes` is a precondition instead.
- `getSchemaAccess` / `getTableAccess`: field extraction from the token payload, which the model does not see.
- `requireAsyncGlobals`, `requireSource` and `composeOnEnterHooks` are not part of this model. Hooks are tags, and the composed chain is not executed.
- `prefetchSurveysData` / `prefetchOnboardingData`: fire-and-forget prefetches with no effect on the guards' decisions.
- Promise timing and `alert` as UI. A fetch is an input saying how it settled. An alert is a returned string.
- `isMetadataStatusPage()` reads the browser location; it is an input. The target path of `redirectToMetadataStatus()` is not shown, so it is the symbolic redirect `ToMetadataStatus`.
- Paths.IndexOf: counts indices in Dafny characters (Unicode scalar values), whereas JavaScript counts UTF-16 code units, so a positive index can differ from the source's on text outside the Basic Multilingual Plane. The guards compare the result only with 0 and -1, where the two agree.
- Access-state values are booleans. JavaScript allows any value there; only its truthiness matters to the guards.
