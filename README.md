# vibe-coding-react admin dashboard: a Dafny model of its logic

This project models the logic under the React admin dashboard
`vibe-coding-react`. Rendering is not modelled; each part below is its own
Dafny module:

- **`ApiClient`**: the request gateway `apiClient`. It builds the request
  (headers with their precedence, body, schema validation) and classifies the
  server's answer as a success, an HTTP error or a business error. Its side
  effects are error and success toasts, the session error record, and the
  deferred logout after a 401.
- **`Pagination`**: the five-button page window, the first, previous, next
  and last buttons, and the "showing X to Y of Z" range.
- **`SidebarMenu`**: the sidebar's expanded-menu state. It covers the two
  effects that run when the path or the collapsed flag changes, menu
  toggling, the collapsed pop-up's child click, and the copy kept in
  `localStorage`.
- **`Auth`**: the session held by `AuthProvider`: the token, the
  authenticated flag and the `auth_token` storage entry.
- **`RouteGuard`**: the redirect decisions of the protected and public
  routes.
- **`UseUser`**: the role and permission tests of `useUser`.
- **`Utils`**: the phone and e-mail validators and `truncateText`. Each
  regular expression is proved equal to a character-level scan.
- **`ErrorPage`**: the error page. It loads and clears the session error
  record, then derives the title, description and retry action from it.
- **`ImageUpload`**: the image upload's type and size checks, and its
  `imageUrl`/`loading` state around an upload whose result is an input.

Two shared modules support them. `Js` holds the JavaScript value semantics
the code relies on: JSON values, truthiness, `String(v)`, property lookup,
`includes`. `Browser` holds stored text described by what `JSON.parse` makes
of it, and toasts.

Code that changes state step by step is written imperatively:

- `BuildRequest` and `Invoke` reassign the options and collect effects.
- `PageButtons` fills the window in a loop.
- `MatchedParents` is the menu `reduce`.
- The sidebar, session, error page and upload component are classes whose
  methods update their fields.

Each method is proved against a declarative definition, and the lemmas
state what the source promises about those definitions.

React state updates are applied in the order the source issues them. When
two effects of one commit set the same state, the later one wins.

## Model

| member | source | states |
|---|---|---|
| ApiClient.BuildRequest | src/api/client.ts:40-91 | No request is built exactly when a truthy non-FormData body fails its schema; the thrown text is the fixed prefix plus the formatted error. Otherwise the request matches `Prepared`: URL, method, and body (absent, the FormData, a string verbatim, or a JSON value). JSON bodies default Content-Type to application/json unless the caller set it. A non-empty stored token overrides Authorization. `appid` defaults to the configured id unless the caller set it. All other headers are the caller's. |
| ApiClient.PreparedIsUnique | src/api/client.ts:40-91 | The header-by-header and body-by-case description of the request fixes it completely. |
| ApiClient.Invoke | src/api/client.ts:27-165 | One call issues no request exactly when validation rejects the body. Otherwise it issues the prepared request, and its outcome and ordered effects are those of `Classify` and `SideEffects` for the server's answer. |
| ApiClient.Classify | src/api/client.ts:94-164 | How an issued request ends; its cases are stated by `HttpErrorCarriesStatus`, `UnauthorizedLogsOut`, `NoContentIsEmptySuccess` and `BusinessErrorIff`. A rejected `fetch` or an unreadable 2xx body throws. |
| ApiClient.SideEffects | src/api/client.ts:97-164 | The ordered toasts, session record and deferred logout of a call; stated by `UnauthorizedLogsOut`, `OtherErrorsAreRecorded`, `NoContentIsEmptySuccess`, `SuccessfulAnswerToasts` and `EffectsMatchOutcome`. |
| ApiClient.ErrorData | src/api/client.ts:98 | The error body is never `null`: a parsed non-null body is used as is, and an unreadable or `null` body counts as `{}`. This is the corrected reading. |
| ApiClient.ErrorValue | src/api/client.ts:99 | The value thrown as the error message is always truthy: the body's truthy `message` or the fallback text. |
| ApiClient.ErrorMessageNullBody | src/api/client.ts:98-99 | The source's reading throws on a JSON `null` error body, where the corrected reading gives the fallback message. On every other body the two agree. |
| ApiClient.ErrorMessageAsWritten | src/api/client.ts:98-99 | The message as the source computes it, with the `TypeError` on a `null` body; compared with the corrected message by `ErrorMessageNullBody`. |
| ApiClient.ClassifyAsWritten | src/api/client.ts:97-105 | How a call ends in the source as written: an error answer with a JSON `null` body throws the `TypeError`; compared with `Classify` by `NullBodyEndsCallEarly`. |
| ApiClient.SideEffectsAsWritten | src/api/client.ts:97-130 | The effects in the source as written: none once the `TypeError` is thrown; compared with `SideEffects` by `NullBodyEndsCallEarly`. |
| ApiClient.NullBodyEndsCallEarly | src/api/client.ts:97-130 | The source as written and the corrected gateway agree on outcome and effects for every answer except an error answer whose body is JSON `null`. There the source throws a `TypeError` with no toast, record or logout. The corrected gateway throws the HTTP error with the fallback message and no `errors`, and still has at least one effect. |
| ApiClient.FallbackMessageNamesStatus | src/api/client.ts:99 | Without a server message, the thrown message is the fixed prefix followed by digits that read back as the HTTP status. |
| ApiClient.HttpErrorCarriesStatus | src/api/client.ts:97-105 | Every non-2xx answer throws an HTTP error carrying the status, the body's `errors`, and the server's message (as a string) or the fallback. |
| ApiClient.UnauthorizedLogsOut | src/api/client.ts:108-114 | A 401 produces exactly the expiry toast, then a 1000 ms timer that removes `auth_token` and goes to `/login`. This holds whatever `showErrorMessage` says, and no session record is written. |
| ApiClient.OtherErrorsAreRecorded | src/api/client.ts:115-128 | Any other error status writes exactly one `apiError` record {status, message value, endpoint}, as the last effect. It toasts the optionally prefixed message exactly when `showErrorMessage`, and it never schedules a logout. |
| ApiClient.NoContentIsEmptySuccess | src/api/client.ts:134-136 | A 204 resolves with `{}` and has no effect, whatever its body. |
| ApiClient.BusinessErrorIff | src/api/client.ts:142-155 | A parsed 2xx body (not 204) throws a business error exactly when `code` is `'500'` or `500`. The error carries that code and `msg`, or the fixed text when `msg` is falsy; otherwise the call resolves with the body. |
| ApiClient.EffectsMatchOutcome | src/api/client.ts:97-164 | A call that resolves has at most one effect, a success toast. A call that throws never shows a success toast. |
| ApiClient.SuccessfulAnswerToasts | src/api/client.ts:142-162 | On a parsed 2xx answer other than 204 the effect list is exact. A business failure toasts `msg` or the fixed text, with `prefix: ` in front when a prefix is given, exactly when `showErrorMessage`. Any other body shows the success toast with the body's truthy `msg` (as a string) or else `successMessage`, exactly when `showSuccessMessage`. Nothing else happens. |
| Js.NatTextRoundTrip | src/api/client.ts:99 | The decimal text of a status code reads back as that code. |
| Pagination.PageButtons | src/components/Pagination/index.tsx:25-66 | The case split and the push loop give one button per page from `WindowStart` to `WindowEnd`, in order. Each button is highlighted exactly when it is the current page. |
| Pagination.SmallWindowShowsAll | src/components/Pagination/index.tsx:32-35 | With at most five pages, the window is 1..totalPages. |
| Pagination.LargeWindowCases | src/components/Pagination/index.tsx:36-48 | The source's three cases (near the start, near the end, in the middle) are the clamped window of five around the current page. |
| Pagination.WindowBounds | src/components/Pagination/index.tsx:29-48 | With more than five pages the window has exactly five buttons. For a page in range, it lies inside 1..totalPages and contains the current page. |
| Pagination.OnlyCurrentHighlighted | src/components/Pagination/index.tsx:51-63 | For a page in range, its button is present and is the only highlighted one. |
| Pagination.FirstButton | src/components/Pagination/index.tsx:109-111 | The first-page button selects page 1 and is disabled on page 1; stated by `NavigationTargets`. |
| Pagination.PrevButton | src/components/Pagination/index.tsx:124-126 | The previous button selects `max(1, current - 1)` and is disabled on page 1; stated by `NavigationTargets`. |
| Pagination.NextButton | src/components/Pagination/index.tsx:141-143 | The next button selects `min(totalPages, current + 1)` and is disabled on the last page; stated by `NavigationTargets` and `EmptyListForwardButtons`. |
| Pagination.LastButton | src/components/Pagination/index.tsx:155-157 | The last-page button selects `totalPages` and is disabled on the last page; stated by `NavigationTargets` and `EmptyListForwardButtons`. |
| Pagination.NavigationTargets | src/components/Pagination/index.tsx:109-167 | For a page in range, every target is a valid page; the first button selects page 1 and the last selects `totalPages`. First and previous are disabled exactly on page 1, next and last exactly on the last page. An enabled previous or next button moves by one page. |
| Pagination.EmptyListForwardButtons | src/components/Pagination/index.tsx:141-160 | With zero pages, on page 1, next and last stay enabled and select page 0. |
| Pagination.RangeFrom | src/components/Pagination/index.tsx:101 | The first item shown, `(current - 1) * pageSize + 1`; bounded by `RangeWithinTotal` and `EmptyListRange`. |
| Pagination.RangeTo | src/components/Pagination/index.tsx:102 | The last item shown, `min(current * pageSize, total)`; bounded by `RangeWithinTotal`, `PageInRangeHoldsItems` and `EmptyListRange`. |
| Pagination.RangeWithinTotal | src/components/Pagination/index.tsx:101-102 | On a page that holds items, the shown range lies in 1..total, spans at most one page, and spans a whole page unless it ends the list. |
| Pagination.PageInRangeHoldsItems | src/components/Pagination/index.tsx:101-102 | When totalPages is the ceiling of total/pageSize, every page in range holds at least one item. |
| Pagination.EmptyListRange | src/components/Pagination/index.tsx:101-103 | With no items the range reads "1 to 0". |
| SidebarMenu.HasChildren | src/components/Sidebar/index.tsx:19-21 | An item is a parent exactly when its `children` list exists and is non-empty; used by `ParentsMatchingIff` and `MenuMatches`. |
| SidebarMenu.MatchedParents | src/components/Sidebar/index.tsx:50-67 | The `reduce` loop over the menu yields `ParentsMatching`. |
| SidebarMenu.ParentsMatchingIff | src/components/Sidebar/index.tsx:52-64 | A path is collected exactly when some menu item with that path has children and either the pathname contains its path or equals a child's path. |
| SidebarMenu.Dedup | src/components/Sidebar/index.tsx:108-111 | `[...new Set(xs)]` has the same elements as `xs`, none twice. |
| SidebarMenu.DedupOfDistinct | src/components/Sidebar/index.tsx:108-111 | A list without repeats is unchanged by de-duplication. |
| SidebarMenu.DedupExtends | src/components/Sidebar/index.tsx:108-111 | De-duplicating `a + b` starts with the de-duplication of `a`, and adds nothing when `b`'s elements are all in `a`. |
| SidebarMenu.MergeKeepsPrevious | src/components/Sidebar/index.tsx:88-113 | Re-opening the sidebar keeps every remembered menu open, in order and first. It opens every matched parent and nothing else, with no duplicates. |
| SidebarMenu.Without | src/components/Sidebar/index.tsx:121 | Filtering removes exactly the given path and keeps every other element. |
| SidebarMenu.Toggled | src/components/Sidebar/index.tsx:118-122 | The list `toggleMenu` computes; stated by `ToggleFlips`, `ToggleTwiceRestores` and `ToggleKeepsDistinct`. |
| SidebarMenu.ToggleFlips | src/components/Sidebar/index.tsx:118-122 | Toggling flips whether the path is open and leaves every other menu as it was. An absent path is appended at the end. |
| SidebarMenu.ToggleTwiceRestores | src/components/Sidebar/index.tsx:118-122 | Toggling an absent path twice restores the list. |
| SidebarMenu.ToggleKeepsDistinct | src/components/Sidebar/index.tsx:118-122 | Toggling keeps a list free of repeats. |
| SidebarMenu.SavedRoundTrip | src/components/Sidebar/index.tsx:126 | What toggling writes under `expandedMenus` is read back unchanged by the restore code. |
| SidebarMenu.Sidebar.constructor | src/components/Sidebar/index.tsx:25-115 | After mounting, `previousExpandedState` is empty. `expandedMenus` is empty when collapsed, and otherwise the de-duplicated matched parents, whatever storage holds. Neither list names a menu twice (`Valid`). |
| SidebarMenu.Sidebar.Restoring | src/components/Sidebar/index.tsx:36-43 | The corrected mount starts both lists from the saved menus, each once, so every saved menu is open after mounting the open sidebar, and neither list names a menu twice. |
| SidebarMenu.Sidebar.RunEffects | src/components/Sidebar/index.tsx:32-115 | Collapsed: the open menus are remembered and all are closed. Open: the second effect's merge of remembered menus and matched parents replaces whatever the first effect restored, and the remembered menus come first, in order. Neither list ever names a menu twice. |
| SidebarMenu.Sidebar.Rerender | src/components/Sidebar/index.tsx:77-115 | The effects run only when the collapsed flag or the path changed; otherwise the state stays as it was. Neither list comes to name a menu twice. |
| SidebarMenu.Sidebar.ToggleMenu | src/components/Sidebar/index.tsx:118-133 | The open list becomes the toggled list. While the sidebar is open, it is also saved to storage and remembered; while collapsed, neither is touched. Neither list comes to name a menu twice. |
| SidebarMenu.Sidebar.PopupChildClick | src/components/Sidebar/index.tsx:270-279 | The parent is appended to the remembered list and saved to storage only when it is not already remembered. The open list is untouched. Neither list comes to name a menu twice. |
| SidebarMenu.MenuMatches | src/components/Sidebar/index.tsx:136-161 | In the declared menu only `/users` has children, so only it can be matched. |
| SidebarMenu.UsersListMatchedTwice | src/components/Sidebar/index.tsx:50-67 | On `/users/list` the `reduce` collects `/users` twice; the merge keeps it once. |
| SidebarMenu.SavedMenusLostOnMount | src/components/Sidebar/index.tsx:36-113 | Mounting the open sidebar on `/dashboard` with `["/users"]` saved: the first effect reads `["/users"]` back, but the mounted sidebar opens nothing. |
| SidebarMenu.SavedMenusKeptOnRestoringMount | src/components/Sidebar/index.tsx:36-43 | The same reload with the corrected mount opens exactly `["/users"]`. |
| SidebarMenu.RestoredMenusSurvive | src/components/Sidebar/index.tsx:36-43 | With the corrected mount, for any storage, the saved menus (each once) come first and in order among the open menus; a saved list without repeats comes back exactly. |
| Auth.MockToken | src/contexts/AuthProvider.tsx:47 | The mocked token is `mock_token_` followed by the decimal digits of the clock. |
| Auth.MockTokensDiffer | src/contexts/AuthProvider.tsx:47 | Logins at different times issue different tokens. |
| Auth.AuthProvider.constructor | src/contexts/AuthProvider.tsx:18-19 | A new provider holds no token, is not authenticated, and `checkAuth` is false. |
| Auth.AuthProvider.LoadStored | src/contexts/AuthProvider.tsx:22-28 | A non-empty stored token is taken over and authenticates the session, and storage and state then agree. Otherwise nothing changes. |
| Auth.AuthProvider.SaveToken | src/contexts/AuthProvider.tsx:31-38 | A non-empty token is stored; `null` or `''` removes the key. The in-memory token becomes the argument either way, and storage and state agree afterwards. |
| Auth.AuthProvider.Login | src/contexts/AuthProvider.tsx:41-55 | Login always returns true, stores and holds the mock token for the given time, authenticates, and makes `checkAuth` true. |
| Auth.AuthProvider.Logout | src/contexts/AuthProvider.tsx:58-61 | Logout removes the stored token, clears the token and the flag, and makes `checkAuth` false. |
| Auth.AuthProvider.SetIsAuthenticated | src/contexts/AuthProvider.tsx:72 | The raw setter changes only the flag; `checkAuth` then holds exactly when the new flag is set and the token is non-empty. |
| Auth.AuthProvider.CheckAuth | src/contexts/AuthProvider.tsx:64-66 | `checkAuth`: authenticated and holding a non-empty token; its value after each operation is stated by that operation's row. |
| RouteGuard.ProtectedRoute | src/contexts/RouteGuard.tsx:17-22 | The children render exactly when `checkAuth()` holds. Otherwise the route redirects to `/login` with `replace`, carrying the current path as `from`. |
| RouteGuard.PublicRoute | src/contexts/RouteGuard.tsx:37-41 | The route redirects to `/dashboard` with `replace` exactly when it is restricted and `checkAuth()` holds. |
| RouteGuard.UnrestrictedAlwaysRenders | src/contexts/RouteGuard.tsx:33 | With `restricted` left at its default, a public route renders its children in every session. |
| RouteGuard.GuardsNeverBothRedirect | src/contexts/RouteGuard.tsx:17-39 | A protected page and the restricted login page never both redirect, so no session bounces between them. |
| RouteGuard.VisitAfterLogout | src/contexts/RouteGuard.tsx:17-20 | After `logout`, a protected page redirects to `/login`, carrying the path. |
| RouteGuard.VisitAfterLogin | src/contexts/RouteGuard.tsx:17-39 | After `login`, a protected page renders, and the restricted login page redirects to `/dashboard`. |
| Js.Includes | src/hooks/useUser.ts:15 | `Array.prototype.includes` is membership. |
| UseUser.Listed | src/hooks/useUser.ts:15 | `!!list?.includes(x)` holds exactly when the list is defined and contains `x`. |
| UseUser.HasRole | src/hooks/useUser.ts:14-16 | `hasRole` holds exactly when there is a user, its roles are defined, and the role is among them. |
| UseUser.HasPermission | src/hooks/useUser.ts:21-23 | `hasPermission` holds exactly when there is a user, its permissions are defined, and the permission is among them. |
| UseUser.NoUserNoRights | src/hooks/useUser.ts:15 | Without a user, or without the list, every test fails. |
| UseUser.RolesAreNotPermissions | src/hooks/useUser.ts:14-23 | For every user, changing its roles never changes `hasPermission`, and changing its permissions never changes `hasRole`. So a user holding only the role `name` has that role and not the permission `name`. |
| UseUser.UseUserHook | src/hooks/useUser.ts:9 | The hook returns the context's user, loading flag and error unchanged. |
| Utils.MatchesAll | src/lib/utils.ts:15 | An anchored fixed-length pattern matches exactly the strings of its length whose every character lies in the class at its position. |
| Utils.IsValidPhone | src/lib/utils.ts:14-17 | `/^1[3-9]\d{9}$/` as a scan of the pattern's character classes; characterised by `PhoneCharacterised`. |
| Utils.PhoneCharacterised | src/lib/utils.ts:14-17 | A phone number is accepted exactly when it has 11 characters, all ASCII digits, starting with `1` and then a digit from 3 to 9. Every other length is rejected. |
| Utils.IsValidEmail | src/lib/utils.ts:22-26 | The e-mail test as a scan for the first `@` and the domain's last `.`; equal to the regular expression by `EmailMatchesRegex`. |
| Utils.EmailMatchesRegex | src/lib/utils.ts:22-26 | The scan accepts exactly `''` and the strings the e-mail regular expression matches, stated as a split into local part, `@`, domain, `.` and a top-level label. |
| Utils.EmailScanSound | src/lib/utils.ts:24 | Whatever the scan accepts, the regular expression matches. |
| Utils.EmailScanComplete | src/lib/utils.ts:24 | Any split the regular expression finds is the one the scan finds. |
| Utils.EmailHasOneAt | src/lib/utils.ts:24 | A valid non-empty address holds exactly one `@`. |
| Utils.TruncateText | src/lib/utils.ts:70-73 | Empty text stays empty and text within the bound is unchanged. Longer text becomes exactly its first `maxLength` characters (none for a negative bound) followed by `...`: the result has that prefix, that suffix, and their combined length. |
| Utils.TruncateIdempotent | src/lib/utils.ts:70-73 | Truncating twice with the same bound is truncating once. |
| ErrorPage.ErrorTitle | src/pages/Error/index.tsx:31-41 | `getErrorTitle`; its cases are stated by `TitleCases`. |
| ErrorPage.ErrorDescription | src/pages/Error/index.tsx:43-55 | `getErrorDescription`; its cases are stated by `DescriptionFollowsTitle`. |
| ErrorPage.RetryTarget | src/pages/Error/index.tsx:57-64 | `handleRetry` goes back one entry when the record names an endpoint, and to `/` otherwise; tied to the label by `RetryLabelMatchesTarget`. |
| ErrorPage.RetryLabel | src/pages/Error/index.tsx:99 | The retry button's label, chosen by the same endpoint test; stated by `RetryLabelMatchesTarget`. |
| ErrorPage.TitleCases | src/pages/Error/index.tsx:31-41 | A missing or falsy status gives the generic title, and 401/403/404/500 give their fixed titles. Any other non-negative integer status gives `错误 ` followed by digits that read back as that status (the client always records `response.status`, which is one). |
| ErrorPage.DescriptionFollowsTitle | src/pages/Error/index.tsx:43-55 | A truthy message is always the description. Without one, the description is a string: the generic text exactly when the title is generic, the fixed text for each of 401, 403, 404 and 500, and otherwise `发生了错误，错误代码: ` followed by the same status text as the title, whose digits read back as a numeric status. |
| ErrorPage.RetryLabelMatchesTarget | src/pages/Error/index.tsx:99 | The button reads `返回重试` exactly when retrying goes back, and `刷新页面` exactly when it goes to `/`. |
| ErrorPage.ShowsClientRecord | src/pages/Error/index.tsx:31-64 | A record written by the API client shows the title of its status. Its description is the thrown message value, whose string form is the thrown error's message. Retry goes back exactly when the endpoint is non-empty. |
| ErrorPage.ErrorPage.constructor | src/pages/Error/index.tsx:10-14 | Before loading there is no record: the generic title, and retry goes to `/`. |
| ErrorPage.ErrorPage.Mount | src/pages/Error/index.tsx:17-29 | A stored record that parses becomes the page's record and is removed from session storage. An unparsable or absent one leaves storage and the page's state unchanged. |
| ImageUpload.Lower | src/components/ImageUpload/index.tsx:32 | ASCII lower-casing keeps the length and lowers each capital. |
| ImageUpload.AcceptedType | src/components/ImageUpload/index.tsx:32 | The case-insensitive pattern for jpeg, jpg, png or gif, as "one of the four names occurs in the lower-cased type"; stated by `DefaultAcceptListPasses`, `CapitalsAccepted` and `WebpRefused`. |
| ImageUpload.Check | src/components/ImageUpload/index.tsx:28-41 | A file is accepted exactly when its type names jpeg/jpg/png/gif in any case and its size is at most `maxSize` MiB. It is too large exactly when the type passes and the size exceeds that, and of a bad type exactly when the type fails. |
| ImageUpload.SizeLimitIsInclusive | src/components/ImageUpload/index.tsx:38-41 | A file of exactly the limit is accepted and one byte more is refused. The default limit is 5242880 bytes. |
| ImageUpload.TypeCheckedFirst | src/components/ImageUpload/index.tsx:32-41 | A file of a bad type gets the type verdict whatever its size. |
| ImageUpload.DefaultAcceptListPasses | src/components/ImageUpload/index.tsx:32 | `image/jpeg`, `image/png` and `image/gif` pass the type test. |
| ImageUpload.LowerIdempotent | src/components/ImageUpload/index.tsx:32 | Lower-casing twice is lower-casing once. |
| ImageUpload.CapitalsAccepted | src/components/ImageUpload/index.tsx:32 | For all types: two types that differ only in letter case are both accepted or both refused, and a type is accepted exactly when its lower-case form is. |
| ImageUpload.UpperCaseJpegAccepted | src/components/ImageUpload/index.tsx:32 | An instance: `IMAGE/JPEG` passes. |
| ImageUpload.WebpRefused | src/components/ImageUpload/index.tsx:32 | `image/webp` fails the type test. |
| ImageUpload.ImageUpload.constructor | src/components/ImageUpload/index.tsx:18-24 | The image starts as `initialImage`, not loading, with no notices. The source's default `initialImage = ''` is supplied by the caller, passing `""`. |
| ImageUpload.ImageUpload.HandleImageChange | src/components/ImageUpload/index.tsx:27-43 | No file changes nothing. A bad type or too large a file adds its notice and leaves `loading` and the image alone. An accepted file sets `loading` and is handed to the upload; the image is untouched. |
| ImageUpload.ImageUpload.UploadSettled | src/components/ImageUpload/index.tsx:44-57 | A returned URL replaces the image with a success notice; a failure keeps the image with a failure notice. Either way `loading` ends and the input is cleared. |
| ImageUpload.ImageUpload.RemoveImage | src/components/ImageUpload/index.tsx:60-62 | The image becomes `''` and nothing else changes. |

## Left out

- Rendering (JSX, class names, `cn`) is not modelled. Neither are `formatCurrency`, `formatDateTime` and `formatDate` from src/lib/utils.ts: they are locale and floating-point formatting.
- Sidebar hover handling (timers, `getBoundingClientRect`, the hovered menu) is not modelled: it is presentation timing with no state the menus depend on.
- React scheduling is reduced to "updates apply in order, the later wins". StrictMode's double invocation of effects and updater functions is not modelled.
- JSON values hold integers only; fractional numbers are not modelled. `JSON.stringify` is kept symbolic: a written value is recorded as the value it parses back to.
- SidebarMenu.SavedMenus: a stored array holding non-strings is treated as no saved state, because the menu lists are lists of paths. In the source as written, the second effect overwrites that value anyway.
- ApiClient.BuildRequest: header names are compared exactly, as keys of a JavaScript object. How `fetch` merges names that differ only in case is not modelled. An unset `VITE_API_BASE_URL` (which would prefix `undefined`) is not modelled: the base URL is a string.
- ApiClient.Invoke: follows the corrected reading of src/api/client.ts:98, where a JSON `null` error body counts as `{}`. The source as written throws a `TypeError` there instead; `ClassifyAsWritten` and `SideEffectsAsWritten` model that, and `NullBodyEndsCallEarly` shows it is the only difference.
- ApiClient.Invoke: a toast is recorded by the string form of its message; an object message rendered by the toast library is not distinguished.
- `fetch`, `response.json()`, the Zod validator, the toast library, timers, `window.location` and `navigate` are inputs or emitted events. `Date.now()` in `login` is the parameter `now`.
- Auth.AuthProvider.Login: the `catch` branch returning false is not modelled, because nothing in the mocked body can throw. Logging with `console` is left out.
- ImageUpload: `maxSize` is a whole number of MB (a fractional limit is floating point). `onImageUpload` is an input result. The input's `disabled` flag while loading, the `accept` attribute's filtering of the browser's file picker, and several overlapping uploads are not modelled.
- UseUser.UseUserHook: `refreshUserInfo` is passed through unchanged in the source, but it is a callback and is not carried. The user context's provider (src/contexts/UserProvider.tsx) and src/hooks/useAuth.ts are not part of this model.
- ErrorPage: the details block under the description (endpoint and status text) is rendering only. The page's `Link` to `/` is not modelled.
- Utils.TruncateText: lengths count characters, where JavaScript counts UTF-16 code units. Strings with characters outside the Basic Multilingual Plane are measured differently.

## Findings

| source | as written | input that shows it | evidently intended | confidence | as-written member | corrected member |
|---|---|---|---|---|---|---|
| src/api/client.ts:98-99 | `errorData.message` is read from whatever `response.json()` resolves to. A JSON `null` body makes it throw a `TypeError` instead of the API error. | A 500 answer whose body is `null` | An unreadable error body yields the fallback message, the toast and the session record, as `{}` does | high; not executed | ApiClient.NullBodyEndsCallEarly | ApiClient.ErrorData |
| src/components/Sidebar/index.tsx:32-115 | Both effects run on mount. The second one replaces the menus the first one restored from storage with the merge of the (empty) remembered list and the matched parents. | `expandedMenus` saved as `["/users"]`, sidebar open on `/dashboard`: no menu is open after a reload | The saved menus are open again after a reload | medium; not executed | SidebarMenu.SavedMenusLostOnMount | SidebarMenu.RestoredMenusSurvive |
