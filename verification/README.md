# Fetch lifecycle and user breadcrumb of the quetz frontend

This project is a Dafny model of two pieces of the quetz package-registry web console.

**`FetchHoc`** is the apputils component that loads one remote resource for a view (module `Apputils`, file `fetch_hoc.dfy`). The model covers:

- its component state `{ data, apiStatus, error }`, a three-state machine over PENDING, SUCCESS and FAILED;
- `tryFetch`, the single entry point used on mount and by the "Try again" button;
- the error normaliser, which turns a thrown request error into a message. A truthy server `detail` wins. Otherwise the status mapping applies, where only 401 has a message. Otherwise the message is empty;
- the choice `render` makes between the loader, the error paragraph with its retry button, and the caller's `children(data)`.

The component is a `class FetchHoc<T>`. `tryFetch` is split at its `await`:

- `TryFetch` is the synchronous part. It sets PENDING and returns the one GET request it sends.
- `FetchSucceeded(body)` and `FetchFailed(e)` are what runs once the request settles.

`DidMount` and `TryAgain` are the two call sites. `TryAgain` can only be called in FAILED, because the button exists only in that view. Two ghost fields record every request sent (`issued`) and the number answered (`answered`). With them the model proves that every request is a GET to the component's `url`. It also proves that the mount-and-button discipline keeps at most one request outstanding (`SingleFlight`).

**`getBreadcrumbText`** and the `breadcrumbItems` list come from the user-extension page (module `UserExtension`, file `user_extension.dfy`). The model covers:

- JavaScript's `split` and `join` for a one-character separator, with both round trips proved;
- lodash `last` over the split pathname;
- lodash `capitalize` over ASCII;
- the special label for `api-keys`;
- the fixed three-item trail.

The pathname is a parameter instead of `window.location.pathname`.

This model follows the code in the following ways:

- Re-entering PENDING does not clear `error`, and a success does not clear it either. A stale message can sit beside fresh data.
- `data` and `error` are not mutually exclusive.
- There is no guard against retrying other than the button being absent outside FAILED.
- There is no path from SUCCESS back to PENDING other than calling `tryFetch` again.
- The default literal keeps the source's spelling, "Error occured while fetching data".

## Model

| member | source | states |
|---|---|---|
| `Apputils.GenericErrorForStatus` | packages/apputils/src/fetch-hoc.tsx:11-18 | The message is non-empty exactly when the status is 401, and then it is "Unauthorized API request. Please login"; every other or missing status gives "" |
| `Apputils.GetErrorMessage` | packages/apputils/src/fetch-hoc.tsx:20-25 | A truthy `detail` is returned verbatim whatever the status; with no truthy detail, 401 gives the unauthorized message; the result is "" exactly when there is no truthy detail and the status is not 401 (so an empty detail falls through to the status) |
| `Apputils.ErrorText` | packages/apputils/src/fetch-hoc.tsx:78 | The failed view's text is never empty: the stored error if non-empty, else a truthy `genericErrorMessage`, else "Error occured while fetching data" |
| `Apputils.Render` | packages/apputils/src/fetch-hoc.tsx:67-87 | Render is total: PENDING gives the loader carrying `loadingMessage`, FAILED gives the error view (with its retry button) showing `ErrorText`, SUCCESS gives `children(data)`; each view kind occurs exactly for its status, so the retry button is on screen only in FAILED |
| `Apputils.FailureTextPriority` | packages/apputils/src/fetch-hoc.tsx:20-25 | After a failed request the text shown follows the full priority chain: server detail, then the 401 mapping, then `genericErrorMessage`, then the default literal |
| `Apputils.FetchHoc.constructor` | packages/apputils/src/fetch-hoc.tsx:28-35 | A fresh component is PENDING with no data and an empty error, has sent nothing, and satisfies the invariant and single-flight |
| `Apputils.FetchHoc.TryFetch` | packages/apputils/src/fetch-hoc.tsx:41-53 | Sets PENDING and changes neither `data` nor `error`; appends exactly one request, a GET to `url`, to the log and returns it; keeps the invariant |
| `Apputils.FetchHoc.DidMount` | packages/apputils/src/fetch-hoc.tsx:37-39 | Mounting sends the first and only request so far (a GET to `url`) and leaves the component PENDING with one request outstanding |
| `Apputils.FetchHoc.TryAgain` | packages/apputils/src/fetch-hoc.tsx:80-82 | The retry button, reachable only from FAILED, re-enters PENDING with `error` and `data` untouched, sends one more GET to `url`, and preserves single-flight |
| `Apputils.FetchHoc.FetchSucceeded` | packages/apputils/src/fetch-hoc.tsx:55-58 | A settled request with body `b` gives SUCCESS with `data == Some(b)`, `error` unchanged, one more answered request, invariant and single-flight kept |
| `Apputils.FetchHoc.FetchFailed` | packages/apputils/src/fetch-hoc.tsx:59-63 | A thrown error `e` gives FAILED with `error == GetErrorMessage(e)`, `data` unchanged, one more answered request, invariant and single-flight kept |
| `UserExtension.Split` | packages/user-extension/src/index.tsx:84 | JavaScript split always yields at least one piece (`"".split("/")` is `[""]`), so `last` of it is always a string |
| `UserExtension.SplitSingle` | packages/user-extension/src/index.tsx:84 | A string without the separator splits into exactly itself; a string with it splits into more than one piece |
| `UserExtension.SplitPiecesFree` | packages/user-extension/src/index.tsx:84 | No piece of a split contains the separator |
| `UserExtension.JoinSplit` | packages/user-extension/src/index.tsx:84 | Joining the pieces of a split with the separator gives back the original string |
| `UserExtension.SplitJoin` | packages/user-extension/src/index.tsx:84 | Splitting the join of a non-empty list of separator-free pieces gives back that list |
| `UserExtension.SplitLast` | packages/user-extension/src/index.tsx:84 | The last piece of a split is the text after the final separator (the whole string when there is none) |
| `UserExtension.LastSegment` | packages/user-extension/src/index.tsx:84 | `last(pathname.split('/'))` is a `/`-free suffix of the pathname that starts right after a `/` or at its start |
| `UserExtension.LastSegmentAfterSlash` | packages/user-extension/src/index.tsx:84 | For any prefix, the last segment of `prefix + "/" + section` is `section`: only the text after the final `/` matters |
| `UserExtension.Capitalize` | packages/user-extension/src/index.tsx:88 | lodash capitalize over ASCII: same length, same letters up to case, first character not lower-case, every other character not upper-case |
| `UserExtension.CapitalizationUnique` | packages/user-extension/src/index.tsx:88 | Those four properties determine the result: any string meeting them equals `Capitalize(s)` |
| `UserExtension.CapitalizeIdempotent` | packages/user-extension/src/index.tsx:88 | Capitalizing an already capitalized string changes nothing |
| `UserExtension.BreadcrumbText` | packages/user-extension/src/index.tsx:83-89 | A last segment equal to `api-keys` gives exactly "API keys"; any other segment gives its capitalization (so the same length) |
| `UserExtension.BreadcrumbTextOfSection` | packages/user-extension/src/index.tsx:84-88 | The label of `prefix/section` is fixed by `section` alone; a pathname ending in `/` has the label "" |
| `UserExtension.ApiKeysLabel` | packages/user-extension/src/index.tsx:85-87 | Any pathname ending in `/api-keys` is labelled "API keys" |
| `UserExtension.ProfileLabel` | packages/user-extension/src/index.tsx:88 | Any pathname ending in `/profile` is labelled "Profile" |
| `UserExtension.BreadcrumbItems` | packages/user-extension/src/index.tsx:96-108 | The trail is always three items: Home with href "/", User details with link "/", then the section label with neither |

## Left out

- The network: `ServerConnection.makeSettings` and `ServerConnection.makeRequest`. A request's outcome enters the model only as the body passed to `FetchSucceeded` or the error passed to `FetchFailed`.
- `URLExt.join` of the base URL with `/api/me`. The URL is an opaque constructor argument.
- React's asynchronous `setState` batching and the `await` suspension. They are modelled as sequential begin and complete calls, not as concurrency.
- Late responses after unmount. The component has no such guard, and the model adds none.
- `Apputils.GetErrorMessage`: `detail` is modelled as an optional string. A truthy non-string `detail` (an array, a number) would also be returned verbatim by the code, and the model does not cover that. `status` is an optional integer, matched against 401 by value.
- The `children` render prop is not applied. `Content(data)` stands for `children(data)`, whatever view that produces.
- `UserExtension.Capitalize`: works over ASCII only. lodash `capitalize` case-maps all of Unicode; the model does not.
- Plugin registration, the command, the router pattern, the menu item, the JSX layout, `NavLink`/`Route`/`Switch` routing, `ReactNotification` and `ReactWidget`. These are host-platform plumbing and UI.
- src/plugins/channels/channelsApp.tsx. It is an inlined fetch with no error path and no logic beyond listing rows.
