# CloudVault client core in Dafny

A model of the logic in the CloudVault web client, a file-storage dashboard in front of a remote
storage API. The model covers two pieces.

- **The authenticated transport and the credential store.** `fetchWithAuth` builds the request
  headers, hands back anything but a 401 untouched, and retries once after a successful
  `refreshToken` when a 401 says the token expired. `refreshToken` rotates or clears the stored
  tokens. `login`, `register` and `logout` in the auth context are the other writers of the store.
  The browser `localStorage` is a `map<string, string>`. The network is an oracle: every reply a
  call site receives is an input, so each operation is a pure function. It returns the outcome,
  the new store, the requests sent in order, and the redirect to `/login` as a flag.
- **The dashboard's path and name helpers.** These are breadcrumbs of the virtual folder path,
  navigation back to a breadcrumb, the search filter, the per-file upload loop, icon choice by
  extension, the preview player choice, child-path construction, double-click and delete
  dispatch, and validation in the new-folder dialog.

Files, one module each:

| file | module | models |
|---|---|---|
| `wrappers.dfy` | `Wrappers` | `Option` (null / undefined) |
| `js_text.dfy` | `JsText` | ASCII `toLowerCase`, `trim`, `split`, `join`, `includes`, `endsWith`, truthiness |
| `http.dfy` | `Http` | request options, responses, replies, toasts |
| `credential_store.dfy` | `CredentialStore` | the `access_token` / `refresh_token` store |
| `api_client.dfy` | `ApiClient` | `src/utils/apiClient.ts` |
| `auth_context.dfy` | `AuthContext` | `src/contexts/AuthContext.tsx` |
| `storage_types.dfy` | `StorageTypes` | `FolderItem` and picked files |
| `dashboard.dfy` | `Dashboard` | `src/pages/Dashboard.tsx` |
| `file_grid.dfy` | `FileGrid` | `src/components/FileGrid.tsx` |
| `new_folder_dialog.dfy` | `NewFolderDialog` | `src/components/NewFolderDialog.tsx` |

Notes on behaviour the model follows exactly:

- A token is *truthy* only when it is stored and non-empty, as in JavaScript's `if (token)`. A token is *stored* when its key is in `localStorage`, whatever the value, even `""` or `"undefined"`.
- `localStorage.setItem` of a missing JSON field stores the string `"undefined"`. Both `login` and
  `refreshToken` can do this.
- `fetchWithAuth` never clears tokens itself. On an unrecovered 401 it only redirects and returns
  the original response. The tokens are gone only if the refresh it attempted failed, because
  `refreshToken` clears them.
- No upload here goes through `fetchWithAuth`. `uploadFile` is one multipart POST per file.
  `handleFileUpload` sends those POSTs one after another. There is no ticket, transfer or confirm
  stage, no size-dependent strategy, no folder creation and no path-existence probe in this code,
  so none are modelled.
- Each credential transition keeps `access_token` and `refresh_token` both stored or both absent
  if they started that way, and leaves every other stored key alone. `AuthContext.SessionKeepsPaired`
  proves this over any sequence of logins, registrations, logouts and authenticated requests.
  Pairing is about storage, not truthiness. A reply with an empty access token leaves both keys
  stored while only the refresh token is truthy. `AuthContext.LoginCanPairAnEmptyAccessToken` and
  `ApiClient.RefreshCanPairAnEmptyAccessToken` exhibit this.

## Model

| member | source | states |
|---|---|---|
| `ApiClient.MergeHeaders` | src/utils/apiClient.ts:7-15 | The default JSON `Content-Type` is added only for a non-form body, and a caller's `Content-Type` overrides it. Every caller header survives, except `Authorization` when the token is truthy (stored and non-empty). A truthy token yields `Authorization: Bearer <token>`. With no truthy token, no `Authorization` header is added and a caller's own `Authorization` is kept. |
| `ApiClient.Refresh` | src/utils/apiClient.ts:75-117 | With no truthy refresh token (absent or stored as ""), it returns null, sends nothing and leaves the store unchanged. Otherwise it sends exactly one POST carrying the stored refresh token. On an ok reply with readable JSON it stores the new access token, replaces the refresh token only if a truthy one came back, and returns the access token. Any other reply or a network error removes both tokens and returns null. It never touches other keys. When the refresh token was truthy, the two tokens are afterwards both stored or both absent. |
| `ApiClient.FetchWithAuth` | src/utils/apiClient.ts:4-69 | The first request carries the merged headers. A network error rethrows with the store unchanged. A non-401 response is returned untouched with one request and no store change. A 401 that is not an expired token (including an unreadable body) returns the 401, redirects, and leaves the store alone. An expired-token 401 calls refresh. If refresh yields a truthy token, one retry is sent and its result is returned as is, with no redirect. Otherwise the 401 is returned with a redirect, and the store is what the refresh left. |
| `ApiClient.AtMostOneRetry` | src/utils/apiClient.ts:18-47 | Per call there are at most two requests to the caller's URL and at most one refresh request. The store is either unchanged or what the refresh left, and no other key changes. |
| `ApiClient.RetryDiffersOnlyInAuthorization` | src/utils/apiClient.ts:42-47 | The retry has the same URL, method and body as the first request and the same headers, except that `Authorization` is `Bearer <newToken>`. |
| `ApiClient.NoSecondRefresh` | src/utils/apiClient.ts:36-47 | When the retry itself comes back as an expired-token 401, that 401 is returned without a redirect, and exactly one refresh was sent. |
| `ApiClient.RedirectExactlyOnUnrecovered401` | src/utils/apiClient.ts:26-60 | The `/login` redirect happens exactly when the first response is a 401 that was not recovered by a refresh returning a token. In that case the original 401 is returned, and the store is the refresh's result if one was attempted, otherwise unchanged. |
| `ApiClient.FetchKeepsPaired` | src/utils/apiClient.ts:102-115 | If both tokens or neither were stored before a request, the same holds after it. |
| `ApiClient.RefreshCanPairAnEmptyAccessToken` | src/utils/apiClient.ts:102-109 | An accepted refresh whose access token is `""` leaves both keys stored. The stored access token is not truthy, and no token is returned. |
| `ApiClient.RefreshWithEmptyRefreshTokenSendsNothing` | src/utils/apiClient.ts:76-80 | A refresh token stored as `""` is not truthy. Even with an accepted reply available, nothing is sent, null is returned, and the unpaired store stays as it was. |
| `ApiClient.RefreshWithoutRefreshTokenKeepsUnpaired` | src/utils/apiClient.ts:76-80 | With an access token but no refresh token stored, a refresh changes nothing, so the store stays unpaired. |
| `AuthContext.Login` | src/contexts/AuthContext.tsx:46-79 | Login sends one form POST. It resolves exactly on an ok reply with readable JSON, writing both tokens from the response (a missing one as "undefined") and setting the user. Otherwise it throws, shows a destructive toast, and changes neither the store nor the user. Only the two token keys are ever written. |
| `AuthContext.Register` | src/contexts/AuthContext.tsx:81-112 | Register sends one JSON POST and resolves exactly on an ok status. In every case the store and the user are unchanged, and a destructive toast appears exactly on failure. |
| `AuthContext.Logout` | src/contexts/AuthContext.tsx:114-139 | Once its request settles, logout resolves with both tokens removed, the user cleared and no other key touched. A failed request counts as settled. It sends a logout POST carrying the stored refresh token exactly when that token is truthy. |
| `AuthContext.ApplyKeepsPaired` | src/contexts/AuthContext.tsx:61-65 | A single login, register, logout or authenticated request keeps the two tokens both stored or both absent, and leaves other keys alone. |
| `AuthContext.SessionKeepsPaired` | src/contexts/AuthContext.tsx:114-139 | Over any sequence of logins, registrations, logouts and authenticated requests, the tokens stay both stored or both absent, and no other stored key changes. |
| `AuthContext.LogoutEndsSession` | src/contexts/AuthContext.tsx:130-133 | Any session that ends with a logout ends with no tokens and no user. |
| `AuthContext.LoginCanPairAnEmptyAccessToken` | src/contexts/AuthContext.tsx:61-65 | A login reply with access token `""` resolves and leaves both keys stored, yet only the refresh token is truthy. |
| `Dashboard.Breadcrumbs` | src/pages/Dashboard.tsx:97-100 | The breadcrumb list is empty exactly at the root, and no breadcrumb contains '/'. |
| `Dashboard.BreadcrumbsRoundTrip` | src/pages/Dashboard.tsx:97-100 | Joining the breadcrumbs with '/' gives back the current path. |
| `Dashboard.NavigateIsPrefix` | src/pages/Dashboard.tsx:102-105 | For any index, navigating to a breadcrumb yields a prefix of the current path. |
| `Dashboard.NavigateToBreadcrumb` | src/pages/Dashboard.tsx:102-105 | Following `slice(0, index + 1)`, an index at or past the last breadcrumb keeps the whole path (at the root too). An index of -1, or a negative index that counts back past the first breadcrumb, leads to the root. |
| `Dashboard.NavigateKeepsLeadingCrumbs` | src/pages/Dashboard.tsx:99-104 | If navigating to breadcrumb i gives a non-root path, that path's breadcrumbs are the first i+1 old ones. |
| `Dashboard.LeadingSlashFirstCrumbIsRoot` | src/pages/Dashboard.tsx:98-104 | For a path starting with '/', the first breadcrumb is empty, and clicking it goes to the root, whose breadcrumb list is empty. |
| `Dashboard.Matches` | src/pages/Dashboard.tsx:108-110 | An item matches exactly when the lowercased term occurs at some offset of the lowercased name. |
| `Dashboard.FilterItems` | src/pages/Dashboard.tsx:108-110 | An item is kept exactly when it is listed and its lowercased name contains the lowercased term. The result is never longer than the listing. |
| `Dashboard.FilterAppend` | src/pages/Dashboard.tsx:108-110 | Filtering a concatenation is the concatenation of the filtered parts, so kept items keep their listed order. |
| `Dashboard.FilterEmptyTermKeepsAll` | src/pages/Dashboard.tsx:108-110 | An empty search term returns the listing unchanged. |
| `Dashboard.FilterIdempotent` | src/pages/Dashboard.tsx:108-110 | Filtering an already filtered list with the same term changes nothing. |
| `Dashboard.HandleFileUpload` | src/pages/Dashboard.tsx:64-91 | With no files picked, nothing is sent and nothing reloads. Otherwise each file is uploaded to the current folder in order, and the i-th toast reports only the i-th reply, so a failure does not stop later files. The folder then reloads once. |
| `FileGrid.ItemIcon` | src/components/FileGrid.tsx:143 | A card shows the folder icon exactly for folders. A file's card shows the icon `getFileIcon` picks for its name. |
| `FileGrid.Extension` | src/components/FileGrid.tsx:23 | The extension is lowercase and contains no '.'. |
| `FileGrid.FileIcon` | src/components/FileGrid.tsx:22-52 | A file never gets the folder icon. The image, video, music and archive icons each appear exactly when the extension is in that list, and any other extension gets the generic icon. |
| `FileGrid.ExtensionOfDottedName` | src/components/FileGrid.tsx:23 | The extension of `stem.ext`, where `ext` has no '.', is `ext` lowercased. |
| `FileGrid.ExtensionOfUndottedName` | src/components/FileGrid.tsx:23 | A name with no '.' uses its whole lowercased self as the extension. |
| `FileGrid.IconIgnoresCase` | src/components/FileGrid.tsx:22-52 | Names that differ only in letter case get the same icon. |
| `FileGrid.EndsWithExtensionIn` | src/components/FileGrid.tsx:230-238 | Only a name containing '.' can match a `/\.(e1...)$/i` pattern. |
| `FileGrid.PreviewKindOf` | src/components/FileGrid.tsx:230-243 | The image player is chosen exactly when the image pattern matches. A name with no '.' always gets the page frame. |
| `FileGrid.EndsWithExtensionInMeansListed` | src/components/FileGrid.tsx:230-243 | For a dotted name, matching the case-insensitive pattern for a list of extensions (a '.' then one of them at the end) is the same as the extension being in the list. |
| `FileGrid.PreviewAgreesWithIcon` | src/components/FileGrid.tsx:230-243 | For a name containing '.', the preview is an image, video or audio player exactly when the icon is Image, Video or Music respectively. |
| `FileGrid.UndottedNameMatchesNoPattern` | src/components/FileGrid.tsx:230-238 | A name with no '.' does not end with '.' followed by any extension, whatever the list. |
| `FileGrid.BareExtensionNameDiverges` | src/components/FileGrid.tsx:23-36 | A file named `png` gets the image icon but is previewed in a page frame. |
| `FileGrid.ChildPath` | src/components/FileGrid.tsx:64 | At the root the new path is the folder's name. Elsewhere it is the current path, one '/', then the name, in that order and nothing else. |
| `FileGrid.OpenFolderPath` | src/components/FileGrid.tsx:126-129 | The Open menu item computes the same new path as a double-click on the folder. |
| `FileGrid.ChildPathAddsOneCrumb` | src/components/FileGrid.tsx:64 | Opening a folder with a non-empty, slash-free name gives the old breadcrumbs plus exactly that name. |
| `FileGrid.OpenThenBackToParent` | src/components/FileGrid.tsx:64-65 | Opening such a folder from a non-root path and then clicking the previous last breadcrumb returns to the old path. |
| `FileGrid.DoubleClick` | src/components/FileGrid.tsx:62-69 | A double-click navigates exactly for folders, to the path the Open item uses. It previews exactly for files with a truthy id, passing that id and the name. For other files it does nothing. |
| `FileGrid.HandleDelete` | src/components/FileGrid.tsx:101-124 | A folder is deleted by its path and a file with a truthy id by its id. A file without one makes no call. The grid refreshes exactly when no call was made or the call succeeded. A toast appears exactly when a call was made, and it is destructive exactly when the refresh is skipped. |
| `FileGrid.HandlePreview` | src/components/FileGrid.tsx:71-83 | An ok reply opens the dialog on the new URL with the file's name. Otherwise the dialog is unchanged and a destructive toast appears. |
| `FileGrid.ClosePreview` | src/components/FileGrid.tsx:131-137 | Closing leaves the dialog closed and nameless. The shown URL is revoked exactly when the dialog was open. |
| `NewFolderDialog.Submit` | src/components/NewFolderDialog.tsx:31-56 | A blank name is refused with "Folder name cannot be empty". Otherwise a name containing `<`, `>`, `:`, `"`, `/`, a backslash, a pipe sign, `?` or `*` is refused with the invalid-characters message. Either way `onCreateFolder` is not called. Otherwise `onCreateFolder` receives the trimmed name, which is non-empty with no forbidden character. On success the name and error reset and the dialog closes. On failure only the error changes. |
| `NewFolderDialog.Edit` | src/components/NewFolderDialog.tsx:74-77 | Typing replaces the name and clears the error, and the dialog stays open or closed as it was. |
| `NewFolderDialog.AcceptedNameAddsOneCrumb` | src/components/NewFolderDialog.tsx:41-48 | For any name that is not blank and has no forbidden character (the names `Submit` hands on), the trimmed name joined onto any current path adds exactly one breadcrumb, namely that trimmed name. |

## Left out

- The storage service (`src/services/storageService.ts`) is not modelled beyond the outcome of each call. It is a set of thin `fetch` wrappers that do not go through `fetchWithAuth`. Their bearer header (which reads "Bearer null" when no token is stored) and the blob and DOM download effects are outside the model.
- `formatFileSize` and the storage-usage card work in floating point (`Math.log`, `toFixed`).
- Navigation (`window.location`), console logging and the rendering of toasts are left out. The redirect is a flag, and toasts are returned as records.
- Concurrent requests that refresh at the same time are left out. Each call is modelled on its own.
- A request that never settles is left out. Every reply is an input, so each operation finishes. In particular, a logout whose POST hangs never reaches its `finally`, and both tokens stay stored. `AuthContext.Logout` promises the cleared state only once the request settles.
- Pairing of the two tokens means both keys are stored. It does not mean both are truthy: an empty token from the server is stored as is.
- Lowercasing and `trim` cover ASCII only. JavaScript's Unicode case mapping and its full whitespace set are not modelled.
- Caller headers are a plain object with case-sensitive names. A `Headers` instance or an array of pairs passed as `options.headers` is not modelled.
- A 401 body is reduced to "unreadable" or an optional `detail.code` string. A body already read by `fetchWithAuth` is returned as is; that it can no longer be read is not modelled.
- A token field that is JSON `null` (which `setItem` would store as "null") is not modelled. Only a missing field is, stored as "undefined".
- The provider's mount effect reads the access token and changes nothing, so it has no transition.
- The Preview and Download menu items guard on the file id just as a double-click does. Download's effect is a browser download and is left out.
- FileGrid.HandlePreview: a blob read that fails after an ok status is not modelled. An ok reply always yields a URL.
- Dashboard.HandleFileUpload: one upload's outcome is an ok status plus a body that parses. The multipart form contents are not modelled.
