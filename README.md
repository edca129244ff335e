# Session-gated navigation, request proxy and per-user todos: a Dafny model

This project models the decision logic of a cross-platform todo application
(an Expo/React Native app, a Next.js web app and an RPC API over one `todo`
table) and proves what that logic promises:

- **Native route gate** (`NativeLayout`): the root layout's effect that, once
  the session is no longer loading, sends a signed-out user away from the
  `(protected)` group to `/(public)` and a signed-in user from anywhere else to
  `/(protected)`. It is a pure decision function `Decide`, a `Router` class
  whose `replace` history and segments the effect updates, and a `RootLayout`
  class for the one-shot mount latch and the loading screen.
- **Web proxy** (`WebProxy`): prefix classification of the request path
  (`/dashboard`, `/todos` protected; `/login` an auth route) and redirects
  decided by the presence of the `better-auth.session_token` cookie.
- **Todo router** (`TodoRouter`): `getAll`, `create`, `toggle` and `delete`
  over a `TodoTable` class holding the rows; each handler's SQL `where`
  filter, update and delete are modelled as functions on the row sequence.
  The security property — a user sees and changes only their own rows — is
  proved as lemmas about those functions.
- **Dev-host URL rewriting** (`AuthClient`, `OrpcClient`, with `Strings` for
  the JavaScript string operations): `getBaseUrl`, which replaces the first
  `localhost` in the server URL by the dev server's host or the Android
  emulator's `10.0.2.2`, the RPC endpoint URL and the cookie-forwarding
  request headers.

Inputs the app reads from its environment are parameters: the configured
server URL (`EXPO_PUBLIC_SERVER_URL`), `Platform.OS`, the Expo config's
`hostUri`, the auth client's stored cookie string, the session and its
loading flag, and the router's current segments.

The comment at apps/native/app/_layout.tsx:78 speaks of signed-in users
"trying to access public routes", but the `else if` at line 77 redirects them
from every route outside `(protected)`, `modal` and `+not-found` included; the
model follows the code. While `isPending` is true (line 69) no decision is
taken, even if a cached session is present.

## Model

| member | source | states |
|---|---|---|
| `Strings.IndexOf` | apps/native/utils/orpc.ts:26 | the result is the least index at or after `from` where the pattern occurs, or None when it occurs nowhere there (JavaScript's `indexOf` for the non-empty patterns used here) |
| `Strings.Includes` | apps/native/lib/auth-client.ts:13 | `includes` holds exactly when the pattern occurs at some index |
| `Strings.ReplaceFirst` | apps/native/utils/orpc.ts:31-35 | a string without the pattern comes back unchanged |
| `Strings.ReplaceFirstAt` | apps/native/lib/auth-client.ts:18-22 | when the first occurrence is at `i`, the result is the text before `i`, the replacement, then the text after the occurrence; only the first occurrence is replaced |
| `Strings.BeforeFirst` | apps/native/utils/orpc.ts:28 | `split(":")[0]` is a prefix of the input containing no separator, and is followed by a separator unless it is the whole input |
| `Strings.BeforeFirstOfJoin` | apps/native/lib/auth-client.ts:15 | for `host:rest` with no separator in `host`, the split yields `host` |
| `Strings.BeforeFirstWhole` | apps/native/lib/auth-client.ts:15 | a string without the separator splits to all of itself |
| `AuthClient.DevHost` | apps/native/lib/auth-client.ts:14-15 | the optional chain is absent exactly when `hostUri` is, and otherwise is its text up to the first `:`, or all of it when there is no `:` |
| `AuthClient.UsableHostCases` | apps/native/lib/auth-client.ts:14-17 | the `if (localhost)` test holds exactly when `hostUri` is present with non-empty text before its first `:`; a missing `hostUri` or `:8081` fails it |
| `AuthClient.GetBaseUrl` | apps/native/lib/auth-client.ts:8-27 | the URL is kept on web and whenever it does not mention `localhost`; otherwise it is kept, or its first `localhost` is replaced by a usable dev host, or on Android by `10.0.2.2` |
| `AuthClient.BaseUrlUnchanged` | apps/native/lib/auth-client.ts:11-13 | on web, and for a URL without `localhost` on any platform, the configured URL is returned |
| `AuthClient.BaseUrlUsesDevHost` | apps/native/lib/auth-client.ts:14-19 | off the web, a non-empty dev host replaces the first `localhost` and the text around it is kept |
| `AuthClient.BaseUrlOnAndroidEmulator` | apps/native/lib/auth-client.ts:21-23 | on Android without a usable dev host, the first `localhost` becomes `10.0.2.2` and the rest is kept |
| `AuthClient.BaseUrlOtherPlatform` | apps/native/lib/auth-client.ts:21-26 | on iOS, Windows or macOS without a usable dev host the URL is returned unchanged |
| `AuthClient.DevHostOfHostPort` | apps/native/lib/auth-client.ts:14-15 | a `host:port` hostUri contributes exactly its host |
| `OrpcClient.GetBaseUrl` | apps/native/utils/orpc.ts:21-40 | the RPC client's copy of `getBaseUrl` equals the auth client's on every input, so every `AuthClient.BaseUrl*` lemma holds of it too |
| `OrpcClient.RpcUrl` | apps/native/utils/orpc.ts:43 | the endpoint starts with the base URL and continues with exactly `/api/rpc` |
| `OrpcClient.LinkUrl` | apps/native/utils/orpc.ts:42-43 | the RPC link's endpoint is the rewritten base URL followed by exactly `/api/rpc` |
| `OrpcClient.LinkUrlWithoutRewrite` | apps/native/utils/orpc.ts:21-43 | on web, or for a URL without `localhost`, the endpoint is the configured URL followed by `/api/rpc` |
| `OrpcClient.Headers` | apps/native/utils/orpc.ts:44-51 | the headers hold a `Cookie` entry exactly when the stored cookie string is present and non-empty, with that string as value, and no other entry |
| `WebProxy.GetCookie` | apps/web/src/proxy.ts:5 | the session cookie is found exactly when the request carries a cookie of that name, with its value |
| `WebProxy.SessionCookiePresence` | apps/web/src/proxy.ts:5-18 | the proxy answers a request whose session cookie is empty exactly as one whose cookie has any other value, and (on a protected path) differently from one without the cookie |
| `WebProxy.RouteClassification` | apps/web/src/proxy.ts:8-12 | classification is prefix matching: `/dashboard…` and `/todos…` are protected, `/login…` is an auth route, extending a classified path keeps its class, and `/api/todos` is neither |
| `WebProxy.Proxy` | apps/web/src/proxy.ts:4-23 | every redirect goes to `/login` or `/dashboard` |
| `WebProxy.ProtectedAndAuthDisjoint` | apps/web/src/proxy.ts:8-12 | no path is both protected and an auth route, so at most one redirect condition holds |
| `WebProxy.ProxyDecision` | apps/web/src/proxy.ts:14-22 | redirect to `/login` iff protected path without the cookie; redirect to `/dashboard` iff auth path with it; pass-through iff neither |
| `WebProxy.OnlyCookiePresenceMatters` | apps/web/src/proxy.ts:5-18 | two requests to one path that agree on the cookie's presence get the same answer, whatever the cookie values |
| `WebProxy.RedirectTargetPassesThrough` | apps/web/src/proxy.ts:14-22 | the request to a redirect's target, with the same cookies, passes through: no redirect loop |
| `TodoRouter.Owned` | packages/api/src/routers/todo.ts:13 | the owner filter keeps exactly the rows whose `userId` is the user's |
| `TodoRouter.OwnedCounts` | packages/api/src/routers/todo.ts:10-13 | each of the user's rows comes back as often as it is in the table, and no other row does |
| `TodoRouter.OwnedKeepsOrder` | packages/api/src/routers/todo.ts:10-13 | the user's rows come back as a subsequence of the table, in table order |
| `TodoRouter.MatchesNeedsBothColumns` | packages/api/src/routers/todo.ts:32 | another user's row with the same id, or the user's row with another id, does not match the `and(eq(id), eq(userId))` filter; at table level this is `OwnedAfterSetCompleted` and `OwnedAfterRemove` |
| `TodoRouter.SetCompleted` | packages/api/src/routers/todo.ts:28-33 | same length; a row matching both id and owner gets the new `completed` and no other change; every other row is unchanged |
| `TodoRouter.Remove` | packages/api/src/routers/todo.ts:39-43 | the result holds exactly the rows not matching both id and owner |
| `TodoRouter.RemoveCounts` | packages/api/src/routers/todo.ts:39-43 | every row not matching both id and owner survives as often as it is in the table; matching rows are gone |
| `TodoRouter.OwnedAppend` | packages/api/src/routers/todo.ts:9-14 | the owner filter distributes over concatenation (it keeps table order) |
| `TodoRouter.OwnedAfterInsert` | packages/api/src/routers/todo.ts:19-22 | inserting a row for one user leaves every other user's `getAll` unchanged |
| `TodoRouter.OwnedAfterSetCompleted` | packages/api/src/routers/todo.ts:31-33 | a toggle by one user leaves every other user's rows, including those with the same id, unchanged |
| `TodoRouter.OwnedAfterRemove` | packages/api/src/routers/todo.ts:41-43 | a delete by one user leaves every other user's rows unchanged and in order |
| `TodoRouter.SetCompletedIdempotent` | packages/api/src/routers/todo.ts:30 | the flag is set, not flipped: applying the same toggle twice equals applying it once |
| `TodoRouter.SetCompletedNoMatch` | packages/api/src/routers/todo.ts:32 | a toggle on an id the user does not own, or that does not exist, changes nothing |
| `TodoRouter.RemoveNoMatch` | packages/api/src/routers/todo.ts:42 | a delete on an id the user does not own, or that does not exist, changes nothing |
| `TodoRouter.RemoveKeepsOrder` | packages/api/src/routers/todo.ts:39-43 | the surviving rows are a subsequence of the table: same rows, same order |
| `TodoRouter.RemoveKeepsIdsDistinct` | packages/api/src/routers/todo.ts:39-43 | a delete keeps the primary key intact |
| `TodoRouter.SetCompletedAtMostOneRow` | packages/api/src/routers/todo.ts:31-33 | with distinct ids, a toggle changes at most one row |
| `TodoRouter.TodoTable.GetAll` | packages/api/src/routers/todo.ts:9-14 | `getAll` returns exactly the caller's rows, each once per occurrence in the table and in table order, and changes nothing |
| `TodoRouter.TodoTable.Create` | packages/api/src/routers/todo.ts:16-23 | empty text is rejected with the table unchanged; otherwise exactly one row with the text, the caller's id, the new id and the default flag is appended, the key staying unique |
| `TodoRouter.TodoTable.Toggle` | packages/api/src/routers/todo.ts:25-34 | the new table is the old one with the owner-and-id update applied; the key stays unique |
| `TodoRouter.TodoTable.Delete` | packages/api/src/routers/todo.ts:36-44 | the new table is the old one minus the rows matching owner and id; the key stays unique |
| `NativeLayout.Decide` | apps/native/app/_layout.tsx:68-82 | a replace is only issued once the session is resolved, and only to `/(public)` or `/(protected)` |
| `NativeLayout.NoRedirectWhileLoading` | apps/native/app/_layout.tsx:69 | while the session is loading there is no action, whatever the segments |
| `NativeLayout.ProtectedGroupIsFirstSegment` | apps/native/app/_layout.tsx:71 | `InProtectedGroup` holds for every route under `(protected)`, and not for empty segments, `modal`, `+not-found` or any route under `(public)` |
| `NativeLayout.SignedOutInProtectedGoesPublic` | apps/native/app/_layout.tsx:73-76 | with no session inside the protected group the one action is `replace("/(public)")` |
| `NativeLayout.SignedInOutsideGoesProtected` | apps/native/app/_layout.tsx:77-80 | with a session anywhere outside the protected group, `modal` included, the one action is `replace("/(protected)")` |
| `NativeLayout.DecideCases` | apps/native/app/_layout.tsx:73-81 | each of the three actions as an if-and-only-if; no session outside, or a session inside, the group means no action |
| `NativeLayout.ExampleRoutes` | apps/native/app/_layout.tsx:68-82 | loading on `(protected)`, signed out on `(protected)`, signed in on `(public)/login` and signed in on `(protected)` give none, public, protected and none |
| `NativeLayout.LandingGroup` | apps/native/app/_layout.tsx:76-80 | the group named by a replace target is the path after its leading `/` |
| `NativeLayout.NoRedirectStorm` | apps/native/app/_layout.tsx:73-81 | after either redirect, on segments starting with the target group and with the same session, the next evaluation takes no action |
| `NativeLayout.Router.constructor` | apps/native/app/_layout.tsx:56-57 | the router starts on the given segments with no replace issued |
| `NativeLayout.Router.Replace` | apps/native/app/_layout.tsx:76-80 | a replace is recorded once and the router lands on the target group |
| `NativeLayout.Router.RunGate` | apps/native/app/_layout.tsx:68-82 | one run of the effect records exactly the decided replace, or nothing and leaves the route alone; at most one replace per run |
| `NativeLayout.Router.RunGateUntilStable` | apps/native/app/_layout.tsx:73-82 | the run and its re-run on the changed segments record exactly the one replace the first decision names, or none and leave the route alone, and end on a route where the gate takes no action |
| `NativeLayout.RootLayout.constructor` | apps/native/app/_layout.tsx:51-53 | the latch and the colour-scheme flag start false, with no navigation-bar setup done |
| `NativeLayout.RootLayout.MountEffect` | apps/native/app/_layout.tsx:59-66 | the first run sets up the navigation bar once and sets both flags; a later run changes nothing |
| `NativeLayout.RootLayout.ShowsLoading` | apps/native/app/_layout.tsx:84-90 | the content is shown only once the setup has run, exactly once, and the session is no longer loading; otherwise the loading view |

## Left out

- UI rendering: the screens, theme and styles, the sign-up form and header
  button, and the layout's `Stack` tree are not modelled.
- Network and library plumbing: `RPCLink` transport, `createORPCClient`,
  `QueryClient`, `createAuthClient` with secure storage and `getCookie`'s
  storage are foreign code; their results are parameters.
- React scheduling: effect ordering, the `useLayoutEffect`/`useEffect` choice
  and re-render timing. Each effect run is one synchronous method call;
  `RunGateUntilStable` stands for the re-run React performs when `segments`
  changes.
- `NativeLayout.Router.Replace`: the router is foreign code. The model assumes
  that after `replace(path)` the segments are exactly the group named by
  `path`, i.e. the group's index screen.
- `setAndroidNavigationBar` itself is foreign; the model records each call's
  colour scheme.
- The proxy's `config.matcher` regular expression belongs to the framework and
  is not modelled; every request is taken to reach the proxy.
- `WebProxy.Proxy`: a redirect carries only its target path; resolving it
  against the request URL's origin (`new URL(path, request.url)`) is not
  modelled.
- `protectedProcedure` is not part of this model: each handler takes the
  signed-in user's id, and its unauthorized error path is not modelled.
- ORM and database internals: the new row's id and the column default of
  `completed` are parameters of `Create` (the database assigns them, the id
  fresh), and the values returned by insert, update and delete are not
  modelled.
- `TodoRouter.TodoTable.GetAll`: a `select` without `order by` has no defined
  order; the model returns table order.
- Input validation beyond `min(1)`: `z.number()` also admits non-integers, the
  model's ids are integers; zod counts string length in UTF-16 code units, the
  model in characters.
- `Strings.ReplaceFirst`: the replacement text is inserted literally; the `$`
  patterns JavaScript interprets in a replacement string are not modelled
  (host names and `10.0.2.2` contain none).
- `AuthClient.Platform` lists the five `Platform.OS` values React Native
  defines; the environment variable and the Expo config are read by the
  caller and passed in.
