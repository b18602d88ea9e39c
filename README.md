# Keep, modelled in Dafny

Keep is a macOS menu-bar app that mirrors Google Keep notes into a local
store. It then serves them to desktop widgets and to a small local HTTP
endpoint. An account is linked in one of two ways:

- through the Play service: a browser sign-in yields an OAuth token, which
  is exchanged for a master token and then for short-lived access tokens
  that fetch the notes over Google's API;
- through a Chrome profile: a headless browser session opens
  keep.google.com on that profile and reads the notes out of the page.

This project models the logic inside that glue and proves what it promises.
The I/O itself is replaced by explicit inputs: JSON is a datatype, the
SwiftData store is an in-memory class, and HTTP, WebDriver, clock and disk
answers are parameters.

One Dafny module per source file:

- `Notes` (note.dfy): the note record and its dictionary codec, with
  `decode(encode(n)) == n` and the flattening `parse` applies.
- `Accounts` (account.dfy): the account object and its token-expiry rule.
- `NoteService` (note_service.dfy): root-note selection, a filter followed
  by a descending sort by the numeric `sortValue`.
- `GoogleApi` (google_api.dfy): the `key=value` reply parser, the outcomes
  of the two token requests, the access-token cache rule, the replace-all
  note sync and the client session id.
- `ChromeDriver` (chrome_driver.dfy): a class holding the driver process
  and the cached Chrome version, with Chrome's argument list, the bounded
  start-up poll and what is taken from W3C WebDriver replies. Requests and
  process actions go to an event log.
- `ChromePlay` (chrome_play.dfy) and `ChromeProfile` (chrome_profile.dfy):
  the two sign-in monitors as classes whose poll iteration is one method.
  ChromeProfile also covers profile discovery on disk, the batch profile
  sync with its per-account error dictionary, and the `Local State` edit
  that deletes a profile.
- `PageText` (page_text.dfy): the `loadChunk(JSON.parse('…'), "…")`
  extractor as a hand matcher, and the in-place right-to-left `\xHH`
  decoder, proved equal to a left-to-right specification.
- `NoteActor`, `NoteEntities`, `NoteView` (note_actor.dfy,
  note_entity.dfy, note_view.dfy): the widget's entities, titles,
  subtitles, colours and link.
- `ContentView` (content_view.dfy): the account list as a class over the
  store. It covers the upsert rule, reconciliation with the profiles on
  disk, deletion, and the two-part sync of every account with its counters,
  error texts and notices.
- `HttpServer` (http_server.dfy): request-line parsing and the 200/404
  replies, including the framing and `Content-Length` of section 8.6 of
  RFC 9110, read back by the rules of section 2.1 of RFC 9112.
- Shared modules: `Common` (results, errors, Swift's two string splits, the
  decimal codec), `Json` (values and conditional casts), `Wire` (replies),
  and `Store` (the `ModelContext` with its account objects and note rows).

## Model

| member | source | states |
|---|---|---|
| Accounts.ExpiredAt | Model/Account.swift:23-29 | empty or unreadable expiry text counts as expired; otherwise the token is valid exactly while the clock is not after the stored instant |
| Accounts.ExpiryRoundTrip | Model/Account.swift:23-35 | an expiry written for instant `d` reads as not expired exactly at the instants up to and including `d` |
| Accounts.Account.constructor | Model/Account.swift:12-21 | the new account holds the five given field values, every field but `email` defaulting to empty text |
| Accounts.Account.SetAccessTokenExpiry | Model/Account.swift:31-35 | only the expiry text changes, and afterwards the token reads as valid exactly up to `date` |
| Notes.KeyInjective | Model/Note.swift:89-107 | the 15 dictionary keys of the note fields are pairwise different |
| Notes.EncodeField | Model/Note.swift:89-107 | the encoded dictionary holds every field's value under that field's key |
| Notes.EncodeKeys | Model/Note.swift:89-107 | the encoded dictionary has exactly the 15 field keys and no other |
| Notes.FieldTyped | Model/Note.swift:89-107 | `isArchived` and `checked` are encoded as JSON booleans, every other field as a JSON string |
| Notes.DecodeField | Model/Note.swift:56-74 | each decoded field is the entry under its key when that entry has the field's type, and the default otherwise |
| Notes.DecodeStored | Model/Note.swift:56-74 | an entry that holds a field's typed value decodes to exactly that value |
| Notes.DecodeEncode | Model/Note.swift:56-107 | decoding the encoding of any note gives the note back |
| Notes.Parse | Model/Note.swift:76-87 | the parsed note's email is the argument, and its `trashed` and `checkedCheckboxesCount` are the nested `timestamps.trashed` and `previewData.checkedCheckboxesCount` strings or empty |
| Notes.ParseIsDecodeWithOverrides | Model/Note.swift:76-87 | every other field of a parsed node is what `decode` reads from the node itself, so top-level `email`, `trashed` and `checkedCheckboxesCount` entries are ignored |
| NoteService.RootFilter | Service/NoteService.swift:7-9 | keeps exactly the notes of the account that have parent `root`, are not archived and whose `trashed` text does not start with `2`, each as often as in the input |
| NoteService.SortDesc | Service/NoteService.swift:10 | the result is a permutation of the input ordered by non-increasing `Int(sortValue) ?? 0` |
| NoteService.GetRootNotesSpec | Service/NoteService.swift:6-11 | the root notes are exactly the visible root notes of the account, each as often as in the input, in non-increasing sort-key order |
| NoteService.NonNumericSortsAsZero | Service/NoteService.swift:10 | a note whose `sortValue` is not a decimal integer sorts with key 0 |
| NoteService.FilterKeepsVisible | Service/NoteService.swift:7-9 | a list of visible root notes passes the filter unchanged |
| NoteService.SortSortedIsIdentity | Service/NoteService.swift:10 | an already ordered list is left exactly as it is, so equal keys keep their order |
| NoteService.GetRootNotesIdempotent | Service/NoteService.swift:6-11 | selecting the root notes of an earlier selection for the same account changes nothing |
| NoteEntities.Truncated | NoteWidgets/NoteEntity.swift:84-90 | a string that fits is kept; a longer one becomes exactly `length` characters, its first `length - 3` characters followed by `...` |
| NoteEntities.TruncatedIdempotent | NoteWidgets/NoteEntity.swift:84-90 | truncating a second time to the same length changes nothing |
| NoteEntities.BuildTitle | NoteWidgets/NoteEntity.swift:43-46 | the title is at most 30 characters: `Untitled` for an empty title, the title itself when it fits, otherwise its first 27 characters and `...` |
| NoteEntities.ListParts | NoteWidgets/NoteEntity.swift:53-66 | a checklist's subtitle has one line for the first unchecked item, one for the further unchecked items and one for the checked items, each only when its count is not zero |
| NoteEntities.TruncateAll | NoteWidgets/NoteEntity.swift:71-73 | every line is cut to 30 characters and the number of lines is kept |
| NoteEntities.BuildSubtitle | NoteWidgets/NoteEntity.swift:48-80 | the appended lines give the subtitle's specification, which is empty for an entity without an email |
| NoteEntities.PhrasesAreLines | NoteWidgets/NoteEntity.swift:57-76 | no count line contains a line break |
| NoteEntities.PhrasesReadBack | NoteWidgets/NoteEntity.swift:57-76 | each count line reads back, as its second word, the count it was built from, and ends in `item` or `line` exactly when that count is one |
| NoteEntities.CutLines | NoteWidgets/NoteEntity.swift:71-73 | cutting lines to 30 characters keeps them free of line breaks |
| NoteEntities.ListSubtitleLines | NoteWidgets/NoteEntity.swift:53-67 | split on line breaks, a checklist's subtitle gives back exactly its parts |
| NoteEntities.TextSubtitleLines | NoteWidgets/NoteEntity.swift:68-78 | split on line breaks, a text's subtitle is its lines cut to 30 characters when there are at most two, and otherwise its first two lines cut and a line counting the rest |
| NoteEntities.LongTextLines | NoteWidgets/NoteEntity.swift:72-76 | the first two lines followed by the count line split back into those three lines |
| NoteEntities.ShortTextIsItsOwnSubtitle | NoteWidgets/NoteEntity.swift:69-71 | a text of at most two lines of at most 30 characters each is its own subtitle |
| NoteEntities.ListSubtitleCounts | NoteWidgets/NoteEntity.swift:53-66 | split on line breaks, a checklist's subtitle states in its second line how many unchecked items follow the first one and in its last line how many items are checked |
| NoteEntities.TextSubtitleCount | NoteWidgets/NoteEntity.swift:68-76 | a text of more than two lines has a three-line subtitle whose last line states how many lines are left out |
| NoteView.WidgetUrl | NoteWidgets/NoteView.swift:10-18 | the link starts with `https://keep.google.com`; without a note it is exactly that, with a note it continues with `/#`, the note's type, `/` and its server id |
| NoteView.WidgetUrlFragment | NoteWidgets/NoteView.swift:12 | the fragment of a note's link splits back into its type and its server id |
| NoteView.Uppercased | NoteWidgets/NoteView.swift:65 | the upper-cased name has the same length, each character upper-cased |
| NoteView.BackgroundHex | NoteWidgets/NoteView.swift:64-81 | the hex string is `#` and six letters or digits: the palette entry for the upper-cased colour name in the current scheme, and the default dark or light colour for any other name |
| NoteView.BackgroundIgnoresCase | NoteWidgets/NoteView.swift:65-67 | two colour names that differ only in letter case give the same background |
| NoteView.LeadingTrim | NoteWidgets/NoteView.swift:86 | the characters cut from the front are exactly the leading run that are not letters or digits |
| NoteView.TrailingTrim | NoteWidgets/NoteView.swift:86 | the characters cut from the back are exactly the trailing run that are not letters or digits |
| NoteView.Trimmed | NoteWidgets/NoteView.swift:86 | the trimmed text is no longer than the input and starts and ends with a letter or digit |
| NoteView.HexRun | NoteWidgets/NoteView.swift:88 | the scanned run is the longest prefix of hex digits |
| NoteView.HexNumberBound | NoteWidgets/NoteView.swift:88 | a number spelt by `n` hex digits is below 16 to the power `n` |
| NoteView.ScanHex | NoteWidgets/NoteView.swift:87-88 | the scanned value of a text of `n` characters is below 16 to the power `n` |
| NoteView.ScanAllHex | NoteWidgets/NoteView.swift:88 | a text made only of hex digits scans as the number it spells |
| NoteView.DecodeHex | NoteWidgets/NoteView.swift:85-110 | every component is a byte; a trimmed length other than 3, 6 or 8 gives opaque white, and 3 or 6 digits give an opaque colour |
| NoteView.Byte | NoteWidgets/NoteView.swift:95-99 | two hex digits make a value below 256 |
| NoteView.DecodeThreeDigits | NoteWidgets/NoteView.swift:94-95 | with three digits each component is its digit repeated, fully opaque |
| NoteView.DecodeSixDigits | NoteWidgets/NoteView.swift:96-97 | with six digits red, green and blue are the three digit pairs in order, fully opaque |
| NoteView.DecodeEightDigits | NoteWidgets/NoteView.swift:98-99 | with eight digits alpha, red, green and blue are the four digit pairs in order |
| NoteView.BackgroundIsOpaque | NoteWidgets/NoteView.swift:64-110 | every background colour of the palette, and the default, decodes as fully opaque |
| NoteView.SevenCharHex | NoteWidgets/NoteView.swift:86 | `#` followed by six letters or digits trims to those six |
| NoteActor.BuildEntityItself | NoteWidgets/NoteActor.swift:32-60 | the entity copies the note's id, email, colour, title, type and server id; a checklist's lines split into unchecked items followed by exactly `max(0, count)` checked items, and any other note shows its `indexableText` |
| NoteActor.UncountedListIsUnchecked | NoteWidgets/NoteActor.swift:33-37 | a checklist whose count is missing, not a number or not positive has every line unchecked |
| NoteActor.Children | NoteWidgets/NoteActor.swift:65-66 | every collected child has the note's id as its parent |
| NoteActor.ChildTextsPartition | NoteWidgets/NoteActor.swift:65-73 | the checked and unchecked texts together are exactly the texts of all children |
| NoteActor.ChildTextsAppend | NoteWidgets/NoteActor.swift:65-73 | each list keeps store order: the children of a later stretch of the store come after those of an earlier one |
| NoteActor.ChildrenEntity | NoteWidgets/NoteActor.swift:62-97 | the entity built from children copies the note's identifying fields |
| NoteActor.BuildEntityWithChildren | NoteWidgets/NoteActor.swift:62-97 | one pass over the store gives the specified entity: a checklist lists its unchecked and checked children's texts, any other note shows its unchecked children's texts joined by line breaks |
| NoteActor.EntityOf | NoteWidgets/NoteActor.swift:18-24 | the entity of a root note copies its identifying fields whichever way it is built |
| NoteActor.RootsBuildable | NoteWidgets/NoteActor.swift:16-20 | in a store whose visible root notes with a checkbox count can be built from themselves, so can every such root note of every account |
| NoteActor.BuildableExactly | NoteWidgets/NoteActor.swift:16-20 | the store condition holds exactly when no root note that `fetchNotes()` builds from itself, for any account, would trap |
| NoteActor.EntitiesFor | NoteWidgets/NoteActor.swift:16-24 | an account contributes one entity per root note, in root-note order, each copying its note's identifying fields |
| NoteActor.EntitiesInOrderAreRoots | NoteWidgets/NoteActor.swift:13-25 | every entity belongs to a visited account and to a visible root note of that account |
| NoteActor.ErrorEntity | NoteWidgets/NoteActor.swift:99-111 | the error entity has no email, the title `Error` and the type `TEXT` |
| NoteActor.FetchNotes | NoteWidgets/NoteActor.swift:10-30 | a `URLError` gives the single error entity, any other failure is passed on, and otherwise every email of the notes is visited exactly once and contributes its accounts' entities in visiting order |
| NoteActor.EmailsIn | NoteWidgets/NoteActor.swift:13 | the set holds exactly the emails some note belongs to |
| NoteActor.VisitEmails | NoteWidgets/NoteActor.swift:14-25 | the loop visits every email of the set exactly once and appends that account's entities after those of the accounts before it |
| NoteActor.EntitiesInOrderSnoc | NoteWidgets/NoteActor.swift:17-24 | visiting one more account appends exactly that account's entities |
| NoteActor.BuildEntity | NoteWidgets/NoteActor.swift:18-24 | a note with a checkbox count is built from itself, any other from its children |
| NoteActor.CollectEntities | NoteWidgets/NoteActor.swift:16-24 | building the root notes' entities one by one gives that account's entities |
| GoogleApi.DropLeadingEquals | Service/GoogleApiClient.swift:193 | the text left is the input with its leading run of `=` removed, and it does not start with `=` |
| GoogleApi.FirstEquals | Service/GoogleApiClient.swift:193 | the position found holds the first `=` of the text, and none is found exactly when the text has no `=` |
| GoogleApi.EntriesNonEmpty | Service/GoogleApiClient.swift:191-198 | every parsed entry has a non-empty key without `=` and a non-empty value, so lines such as `Token=` or `Token` add nothing |
| GoogleApi.ParseLineParts | Service/GoogleApiClient.swift:193-196 | a line gives an entry only when it is some `=` characters, a non-empty key without `=`, one `=` and a non-empty value |
| GoogleApi.ParseLineComplete | Service/GoogleApiClient.swift:193-196 | conversely every line of that shape gives exactly that key and value, the value keeping any further `=` |
| GoogleApi.ParseResponseAppend | Service/GoogleApiClient.swift:191-198 | the entries of two texts joined by a line break are those of the first overwritten by those of the second |
| GoogleApi.ParseLinesAppend | Service/GoogleApiClient.swift:192-197 | reducing two runs of lines one after the other merges their entries, the later run winning |
| GoogleApi.SingleLine | Service/GoogleApiClient.swift:192 | a non-empty text without line breaks is a single line |
| GoogleApi.OneEntry | Service/GoogleApiClient.swift:191-198 | a one-line reply of that shape parses to exactly its one entry |
| GoogleApi.LaterDuplicateWins | Service/GoogleApiClient.swift:192-197 | of two lines with the same key, the value of the later one is kept |
| GoogleApi.LineEntry | Service/GoogleApiClient.swift:191-198 | a `key=value` line without leading `=` parses to exactly that entry |
| GoogleApi.EmptyReply | Service/GoogleApiClient.swift:191-198 | an empty reply has no entries |
| GoogleApi.TokenLine | Service/GoogleApiClient.swift:191-198 | a reply that is one `Token=<tok>` line ended by a line break has exactly the entry `Token` for that token |
| GoogleApi.FetchMasterToken | Service/GoogleApiClient.swift:37-53 | succeeds exactly when the text reply has a `Token` entry, with that non-empty token; otherwise fails with the `Error` entry or `Unknown error`, or with `No data received` for a reply that is not UTF-8 |
| GoogleApi.MasterTokenFromLine | Service/GoogleApiClient.swift:42-45 | a one-line `Token=<tok>` reply gives the token `tok` |
| GoogleApi.FetchAccessToken | Service/GoogleApiClient.swift:89-112 | succeeds exactly when the text reply has an `Auth` entry, with that non-empty token and an expiry of now plus `ExpiresInDurationSec` seconds, else the `Expiry` epoch, else the epoch itself; otherwise fails with the `Error` entry or `Unknown error` |
| GoogleApi.FetchKeepNotes | Service/GoogleApiClient.swift:143-151 | fails exactly when the request fails or the reply is not JSON; a non-empty result is the reply's `nodes` array of objects, and a reply that is not an object or has no `nodes` gives no nodes |
| GoogleApi.GetAccessToken | Service/GoogleApiClient.swift:178-189 | fetches exactly when the cached token is empty or expired; otherwise returns it and changes nothing; a successful fetch stores the new token and expiry and changes nothing else; a failed fetch changes nothing; a returned token is never empty |
| GoogleApi.RefreshedTokenIsReused | Service/GoogleApiClient.swift:178-185 | a token just fetched with a duration of `secs` seconds is reused without a request by every call up to `secs` seconds later |
| GoogleApi.ParseNodes | Service/GoogleApiClient.swift:167-169 | one note per node, each carrying the account's email |
| GoogleApi.ParseNodesAt | Service/GoogleApiClient.swift:167-169 | the `i`-th note is the `i`-th node parsed with the account's email, so the order is kept |
| GoogleApi.TokenAfter | Service/GoogleApiClient.swift:154-160 | only the access token and its expiry may change, and only when the cached token needed a refresh |
| GoogleApi.SyncOutcome | Service/GoogleApiClient.swift:154-176 | a sync succeeds exactly when a needed token refresh succeeds and the notes reply is read |
| GoogleApi.SyncAfterRefreshReusesToken | Service/GoogleApiClient.swift:154-176 | after a successful refresh a second sync at the same time sends no token request, so only its notes reply decides it |
| GoogleApi.SyncNotes | Service/GoogleApiClient.swift:154-176 | the sync ends exactly as the token and notes replies decide and leaves the account with the refreshed token; after a success the account's stored notes are exactly the parsed nodes, appended after the other accounts' notes, which are untouched; a failure leaves the store as it was |
| GoogleApi.ClientSessionIdParts | Service/GoogleApiClient.swift:200-204 | split on `-`, a session id gives `s`, two empty pieces, and its timestamp and random number read back as decimals |
| ChromeDriver.MajorVersionOf | Service/ChromeDriverService.swift:199-204 | a bundle version `major.rest` gives the version `major.0.0.0` |
| ChromeDriver.NoComponentNoVersion | Service/ChromeDriverService.swift:199-206 | a bundle version made only of dots gives no version |
| ChromeDriver.ChromeArgsLayout | Service/ChromeDriverService.swift:151-173 | the five fixed flags come first; `--headless=new` is present exactly in headless mode, sixth, followed by the user agent when a version is known; the data directory and profile flags come last when there is a data directory, and the length counts exactly these flags |
| ChromeDriver.ResponseObject | Service/ChromeDriverService.swift:210-229 | a request fails exactly when it cannot be sent or the reply is not JSON; a JSON object reply is returned as is and any other JSON reply as an empty object |
| ChromeDriver.SessionIdOf | Service/ChromeDriverService.swift:142-148 | the session id is found exactly when the reply's `value.sessionId` is a string, and otherwise the error is `sessionCreationFailed` |
| ChromeDriver.PageSourceOf | Service/ChromeDriverService.swift:39-43 | the page source is the reply's `value` exactly when that is a string, and otherwise the error is `sessionCreationFailed` |
| ChromeDriver.StringIds | Service/ChromeDriverService.swift:242 | the ids are exactly the string `id` entries of the listed sessions, never more than there are sessions |
| ChromeDriver.Probes | Service/ChromeDriverService.swift:97-102 | `n` status probes are `n` requests for `/status` |
| ChromeDriver.DeleteRequests | Service/ChromeDriverService.swift:245-250 | one `DELETE /session/<id>` request per id, in order |
| ChromeDriver.LaunchOutcome | Service/ChromeDriverService.swift:11-24 | a launch succeeds only with the driver and Chrome both found, and then with the session id the New Session reply gives |
| ChromeDriver.LaunchSucceedsOnGoodReplies | Service/ChromeDriverService.swift:11-24 | with both binaries found, a driver that starts, a New Session reply carrying an id and a navigation that goes through, the launch returns that id; without the driver it fails with `chromedriverNotFound`; with the driver but without Chrome it fails with `chromeNotFound` |
| ChromeDriver.DriverService.constructor | Service/ChromeDriverService.swift:4-9 | a new service holds no process, no cached version and has done nothing |
| ChromeDriver.DriverService.GetChromeVersion | Service/ChromeDriverService.swift:175-207 | answers from the cache once it is filled; otherwise reads the major version from Info.plist and caches it, and with no Chrome or no bundle version gives and caches nothing |
| ChromeDriver.DriverService.BuildChromeArgs | Service/ChromeDriverService.swift:151-173 | the argument list is the specified layout, with the version looked up only in headless mode, so the cache changes only then |
| ChromeDriver.DriverService.StartChromeDriver | Service/ChromeDriverService.swift:82-105 | without the binary it fails with `chromedriverNotFound` before doing anything; with a running held process it does nothing, and with a driver already answering it spawns nothing; otherwise a failed spawn is its error; its error and whether a process is held afterwards are those the start rule gives |
| ChromeDriver.DriverService.SendRequest | Service/ChromeDriverService.swift:210-229 | the request is recorded and the reply read as an object |
| ChromeDriver.DriverService.CreateChromeSession | Service/ChromeDriverService.swift:119-149 | without Chrome it fails with `chromeNotFound` and sends nothing; otherwise it posts one New Session request with the binary, the built arguments and the caps, and ends as the session reply decides |
| ChromeDriver.DriverService.LaunchChrome | Service/ChromeDriverService.swift:11-24 | the first step to fail gives the error: starting the driver, creating the session, then, for a non-empty url, navigating; otherwise the New Session reply's id is returned, the url was the last request, and whether the driver process is held afterwards is what its start left |
| ChromeDriver.DriverService.NavigateToURL | Service/ChromeDriverService.swift:30-33 | posts the url to the session's `url` endpoint, and only a failed request is an error |
| ChromeDriver.DriverService.DeleteSession | Service/ChromeDriverService.swift:26-28 | sends one `DELETE` for the session and ignores the outcome |
| ChromeDriver.DriverService.GetPageSource | Service/ChromeDriverService.swift:35-44 | sends one `GET` for the session's source and returns the reply's `value` string or the error |
| ChromeDriver.DriverService.DeleteAllSessions | Service/ChromeDriverService.swift:231-250 | lists the sessions, then deletes each listed id in order; a failed or malformed listing deletes nothing |
| ChromeDriver.DriverService.StopChromeDriver | Service/ChromeDriverService.swift:259-264 | terminates and forgets the held process exactly when it is running |
| ChromeDriver.DriverService.Cleanup | Service/ChromeDriverService.swift:252-257 | deletes every session, then stops the held driver, then kills all driver and browser processes, in that order |
| ChromePlay.OkObject | Service/ChromePlayService.swift:70-80 | a reply is read only when it came back with status 200 and holds a JSON object, and then it is that object |
| ChromePlay.CookiesOf | Service/ChromePlayService.swift:65-85 | the cookies are found exactly when the reply is a status-200 object with a `value` array of objects, and are that array |
| ChromePlay.ScriptResultOf | Service/ChromePlayService.swift:95-123 | the script result is found exactly when the reply is a status-200 object whose `value` is a string, and it is never empty |
| ChromePlay.FirstToken | Service/ChromePlayService.swift:40-44 | no token exactly when no cookie is named `oauth_token` with a string value; a found token is the value of the first such cookie |
| ChromePlay.PlayService.constructor | Service/ChromePlayService.swift:4-9 | a new service is not monitoring, holds no session and has called nobody |
| ChromePlay.PlayService.StopMonitoring | Service/ChromePlayService.swift:59-63 | the monitor is gone and the session forgotten |
| ChromePlay.PlayService.StartLogin | Service/ChromePlayService.swift:11-20 | the driver first lists and deletes every session; the launch of the sign-in page then ends exactly as the driver's replies decide; on success the service monitors that session; the driver holds a spawned process afterwards exactly as its start decides |
| ChromePlay.PlayService.Tick | Service/ChromePlayService.swift:27-55 | with no session or no cookies the monitor stops; with no token cookie nothing changes; with one, the monitor stops, and exactly when the page gives an email the driver is cleaned up and `onLoginSuccess` is called once with that email and the first token |
| ChromeProfile.GetCurrentProfiles | Service/ChromeProfileService.swift:97-122 | without a data directory there are no profiles; otherwise the profiles are exactly the visible directories named `Default` or starting with `Profile ` that hold a `Preferences` file |
| ChromeProfile.OnlyProfileNames | Service/ChromeProfileService.swift:102-114 | a hidden or otherwise named directory is never a profile |
| ChromeProfile.IsExplicitSignIn | Service/ChromeProfileService.swift:71-85 | true exactly when `Preferences` parses to an object whose `signin` object has both flags readable as booleans (a JSON boolean, or the number 0 or 1) and both true |
| ChromeProfile.MissingFlagIsNoSignIn | Service/ChromeProfileService.swift:77-83 | a missing flag, or one that does not read as a boolean, means no explicit sign-in |
| ChromeProfile.ParseProfileAccount | Service/ChromeProfileService.swift:124-140 | an account is found exactly when `account_info` is a non-empty array of objects whose first `email` is a non-empty string; it is that email with this profile name and no master token |
| ChromeProfile.ListsAccountsStep | Service/ChromeProfileService.swift:92-94 | visiting one more profile keeps the list holding the account of every visited profile that has one, once each |
| ChromeProfile.LoadChromeProfiles | Service/ChromeProfileService.swift:87-95 | without a data directory the list is empty; otherwise it holds the account of every profile that has one, each parsed from its own profile, and no profile twice |
| ChromeProfile.Candidates | Service/ChromeProfileService.swift:49-53 | a profile that a tick may report is never in the baseline |
| ChromeProfile.BaselineNeverReported | Service/ChromeProfileService.swift:33-53 | a profile that had an account when monitoring started is never reported, whatever it looks like later |
| ChromeProfile.ProfileMonitor.constructor | Service/ChromeProfileService.swift:5-11 | a new monitor is idle, holds no session, no baseline, and has reported nothing |
| ChromeProfile.ProfileMonitor.StopMonitoring | Service/ChromeProfileService.swift:65-69 | the monitor is gone and the session forgotten |
| ChromeProfile.ProfileMonitor.StartMonitoring | Service/ChromeProfileService.swift:24-38 | without a data directory monitoring ends at once; otherwise the baseline is the set of profiles that have an account and the poll loop runs |
| ChromeProfile.ProfileMonitor.StartAdd | Service/ChromeProfileService.swift:13-22 | the driver first lists and deletes every session; the launch of the help page then ends exactly as the driver's replies decide; on success the session is held and monitoring runs; the driver holds a spawned process afterwards exactly as its start decides |
| ChromeProfile.ProfileMonitor.Tick | Service/ChromeProfileService.swift:39-61 | a missing or dead session stops the monitor; with no candidate nothing changes; otherwise a candidate's own parsed account is reported once and the monitor stops |
| ChromeProfile.PageNotes | Service/ChromeProfileService.swift:179-200 | every note read from the page belongs to the account; a page without the `loadChunk` call fails with `noteParsingFailed` |
| ChromeProfile.SyncNotesForSession | Service/ChromeProfileService.swift:179-203 | succeeds exactly when the page yields notes; then the account's notes are exactly those and every other account's notes are unchanged; on failure the store is unchanged |
| ChromeProfile.ErrorMapSpec | Service/ChromeProfileService.swift:153-167 | the error dictionary holds exactly the failing accounts' emails and, when the emails are distinct, each failing account's own error |
| ChromeProfile.ErrorMapKeys | Service/ChromeProfileService.swift:164-166 | only a failing account's email gets an entry |
| ChromeProfile.ErrorMapFailed | Service/ChromeProfileService.swift:164-166 | every failing account's email gets an entry |
| ChromeProfile.ErrorMapValues | Service/ChromeProfileService.swift:164-166 | with distinct emails each entry is that account's own error |
| ChromeProfile.ApplySyncsLast | Service/ChromeProfileService.swift:191-200 | the last account's replacement comes after all the earlier ones: its old notes are dropped and the synced ones appended, or nothing changes when it was not synced |
| ChromeProfile.ApplySyncsKeepsOthers | Service/ChromeProfileService.swift:191-200 | an account outside the batch keeps its notes |
| ChromeProfile.ApplySyncsDistinct | Service/ChromeProfileService.swift:191-200 | with distinct emails each account ends with its replacement, or its old notes when it was not replaced |
| ChromeProfile.SyncedEntry | Service/ChromeProfileService.swift:162-163 | what one sync stores belongs to that account |
| ChromeProfile.SyncedNotes | Service/ChromeProfileService.swift:153-167 | one entry per account, each holding only that account's notes |
| ChromeProfile.ProfileOutcome | Service/ChromeProfileService.swift:154-166 | one account's sync succeeds exactly when its Keep page launches and the page yields notes |
| ChromeProfile.HoldsBeforeNext | Service/ChromeProfileService.swift:153-167 | whether the driver holds a process before the next account is what the current account's start left |
| ChromeProfile.ProfileOutcomes | Service/ChromeProfileService.swift:153-167 | one outcome per account, in order, each decided by that account's own replies on the driver as the earlier accounts left it |
| ChromeProfile.ProfileOutcomesSnoc | Service/ChromeProfileService.swift:153-167 | one more account adds exactly its own outcome |
| ChromeProfile.BatchOutcomes | Service/ChromeProfileService.swift:142-177 | one outcome per account; a driver that cannot start gives every account its start error |
| ChromeProfile.SyncAccount | Service/ChromeProfileService.swift:154-166 | the sync ends as the account's launch and page replies decide; a success replaced the account's notes by the page's; a failure leaves the store as it was |
| ChromeProfile.FailAll | Service/ChromeProfileService.swift:168-171 | every account gets the driver's start error |
| ChromeProfile.ErrorMapStep | Service/ChromeProfileService.swift:164-166 | recording one more outcome extends the error dictionary by that account alone |
| ChromeProfile.SyncEachStep | Service/ChromeProfileService.swift:153-167 | one more synced account extends the fold over the store by one replacement |
| ChromeProfile.SyncEach | Service/ChromeProfileService.swift:153-167 | each account is synced in order, its outcome decided by its own replies; the errors are exactly the failures and the store is every successful account's notes replaced in turn |
| ChromeProfile.CleanupEndsEvents | Service/ChromeProfileService.swift:174 | any requests followed by one `cleanup()` end with that cleanup |
| ChromeProfile.SyncMultipleAccounts | Service/ChromeProfileService.swift:142-177 | no accounts means nothing happens; otherwise the outcomes are the batch outcomes of the replies, so a driver that cannot start fails every account with its start error; the errors hold exactly the failures; a non-empty batch leaves the driver's requests ending with one cleanup |
| ChromeProfile.ApplyNothing | Service/ChromeProfileService.swift:168-171 | when no account synced the store is unchanged |
| ChromeProfile.SyncMultipleNotes | Service/ChromeProfileService.swift:142-177 | after a batch, accounts outside it keep their notes; with distinct emails each account in it holds its page's notes when its sync succeeded and its old notes when it failed |
| ChromeProfile.WithoutCacheEntry | Service/ChromeProfileService.swift:247-262 | removes `profile.info_cache[name]` and changes nothing else; without a cache the file is unchanged |
| ChromeProfile.DeletionError | Service/ChromeProfileService.swift:239-267 | the deletion succeeds exactly when there is a data directory, `Local State` can be read, its rewrite does not fail when there is a cache to rewrite, and the directory removal does not fail when there is a directory |
| ChromeProfile.DirectoryAfterDeletion | Service/ChromeProfileService.swift:239-267 | a success removes the cache entry and the directory; a failure before the rewrite leaves everything as it was, and a failed removal keeps the rewritten `Local State` |
| ChromeProfile.DeleteProfile | Service/ChromeProfileService.swift:239-267 | fails without a data directory and untouched when `Local State` cannot be read; otherwise rewrites the cache and then removes the directory, failing at the first write that fails and keeping what was done before it |
| Store.FirstIndex | Keep/ContentView.swift:147-151 | the account fetched by email is the first row with that email, and none is found exactly when no row has it |
| Store.NotesOf | Service/ChromeProfileService.swift:191-194 | the fetched notes all belong to the account |
| Store.Without | Service/ChromeProfileService.swift:195 | the notes left after deleting an account's notes belong to other accounts |
| Store.SplitByEmail | Service/ChromeProfileService.swift:191-195 | splitting the notes by one email loses and invents no note |
| Store.ReplaceNotesSpec | Service/ChromeProfileService.swift:191-200 | after deleting an account's notes and inserting new ones for it, its notes are exactly the new ones and every other account's notes are unchanged |
| Store.NotesOfAppend | Service/ChromeProfileService.swift:197-200 | the notes of an account in two stretches of rows are its notes in each, in order |
| Store.NotesOfWithout | Service/ChromeProfileService.swift:195 | after deleting an account's notes it has none |
| Store.NotesOfWithoutOther | Service/ChromeProfileService.swift:195 | deleting one account's notes leaves every other account's notes as they were |
| Store.Drop | Keep/ContentView.swift:252 | deleting an account object keeps exactly the other objects |
| Store.DropMembers | Keep/ContentView.swift:252 | an object survives the delete exactly when it is not the deleted one |
| Store.RecordsDrop | Keep/ContentView.swift:252 | when the deleted object is the only one with its email, the table loses exactly the rows with that email |
| Store.EmailsIdentify | Keep/ContentView.swift:147-151 | while emails are distinct, an email identifies its account object |
| Store.ModelContext.constructor | Keep/ContentView.swift:99-107 | a new context holds no accounts and no notes and keeps emails distinct |
| Store.ModelContext.InsertAccount | Keep/ContentView.swift:159-161 | the new account is appended and the notes are untouched |
| Store.ModelContext.DeleteAccount | Keep/ContentView.swift:252 | the account leaves the table, the others keep their order, and the notes are untouched |
| Store.ModelContext.DeleteNotesOf | Keep/ContentView.swift:243-250 | every note of the account is deleted and nothing else changes |
| Store.ModelContext.InsertNote | Service/ChromeProfileService.swift:197-200 | the note is appended and the accounts are untouched |
| Store.ReplaceAccountNotes | Service/ChromeProfileService.swift:191-200 | the account's notes are deleted and the new ones inserted one by one: afterwards its notes are exactly the new ones and no other account's notes changed |
| ContentView.TableOfKeys | Keep/ContentView.swift:10 | the accounts by email hold exactly the listed emails, each account under its own email |
| ContentView.TableOfRows | Keep/ContentView.swift:10 | with distinct emails each account is found under its email |
| ContentView.TableOfUpdate | Keep/ContentView.swift:151-157 | updating one account in place changes that account's entry and nothing else, and keeps the emails distinct |
| ContentView.TableOfAppend | Keep/ContentView.swift:158-161 | inserting an account with a new email adds exactly that entry and keeps the emails distinct |
| ContentView.TableOfDropRows | Keep/ContentView.swift:252 | deleting an email's rows removes exactly that email |
| ContentView.DropRowsDistinct | Keep/ContentView.swift:252 | deleting rows keeps the emails distinct |
| ContentView.Upsert | Keep/ContentView.swift:141-166 | an unknown email gets a new account with the given links; a known one takes each non-empty link and keeps every other field; no other account changes |
| ContentView.UpsertProperties | Keep/ContentView.swift:141-166 | adding the same links twice is the same as adding them once; each account stays under its own email; a link once present is never cleared |
| ContentView.UpsertAllSpec | Keep/ContentView.swift:118-124 | upserting the current profiles adds exactly their emails, leaves every other account as it was and never loses a master token |
| ContentView.UpsertAllLinks | Keep/ContentView.swift:118-124 | every current profile with a profile name leaves its account linked |
| ContentView.ReconcileSpec | Keep/ContentView.swift:109-139 | after reconciling, every current profile has an account, linked when the profile has a name; only current profiles' accounts are linked; no master-token account is lost; an account whose profile vanished and has no master token is gone; an untouched account keeps its row; no other email appears |
| ContentView.UnlinkOne | Keep/ContentView.swift:126-134 | a vanished account with a master token loses only its profile name, and one without is deleted |
| ContentView.Select | Keep/ContentView.swift:259-262 | the filter keeps exactly the accounts that pass, and only objects of the list |
| ContentView.SelectDistinct | Keep/ContentView.swift:259-262 | filtering keeps the emails distinct |
| ContentView.SelectDisjoint | Keep/ContentView.swift:259-262 | the Play accounts and the profile-only accounts have distinct emails, within and across the two groups |
| ContentView.FailureCount | Keep/ContentView.swift:274-305 | no more failures than syncs, and none exactly when every sync succeeded |
| ContentView.ErrorMapSize | Keep/ContentView.swift:299-304 | with distinct emails the error dictionary has one entry per failed sync, so the success count is the number of accounts that did not fail |
| ContentView.AfterSyncSpec | Keep/ContentView.swift:277-302 | after a sync, a synced account shows a text exactly when its sync failed, and that text describes its error; every other account keeps its text |
| ContentView.AfterBothSyncs | Keep/ContentView.swift:277-302 | after both parts of the sync every account that took part shows its own error exactly when its sync failed, and every other account keeps its text |
| ContentView.AfterSyncStep | Keep/ContentView.swift:277-286 | syncing one more account clears its text, then sets it exactly when its sync failed |
| ContentView.EndNoticeReportsFailures | Keep/ContentView.swift:310-314 | the end notice reads "Sync Successful" exactly when no Play sync and no profile sync failed |
| ContentView.EndNoticeTitle | Keep/ContentView.swift:311 | the end notice reads "Sync Successful" exactly when the failure count is zero |
| ContentView.PlaySynced | Keep/ContentView.swift:277-286 | one entry per Play account, each holding only that account's notes |
| ContentView.PlayEntry | Service/GoogleApiClient.swift:167-173 | what one Play sync stores holds notes of that account only |
| ContentView.PlaySyncedAt | Keep/ContentView.swift:277-286 | entry `i` holds the `i`-th account's fetched notes exactly when its sync succeeded, nothing otherwise |
| ContentView.OwnNotesSnoc | Keep/ContentView.swift:277-286 | one more account storing only its own notes keeps every entry its own account's |
| ContentView.OutcomeStep | Keep/ContentView.swift:279-285 | one more Play outcome adds one failure exactly when it failed, and a success only where that account's reply parsed |
| ContentView.PlayOutcomes | Keep/ContentView.swift:277-286 | one outcome per Play account |
| ContentView.PlayOutcomeAt | Keep/ContentView.swift:277-286 | the `k`-th outcome is the `k`-th account's sync on its own token and notes replies, whatever the other accounts' replies |
| ContentView.PlayOutcomesAllSucceed | Keep/ContentView.swift:277-286 | no Play account fails exactly when every account's own replies let its sync through (both directions) |
| ContentView.PlayOutcomesSnoc | Keep/ContentView.swift:277-286 | one more Play account adds exactly its own outcome |
| ContentView.SyncNoticeFromReplies | Keep/ContentView.swift:274-314 | a finished sync announces "Sync Successful" exactly when every Play account's and every profile account's replies let its sync through; a driver that cannot start makes a sync with profile accounts announce "Sync Failed" |
| ContentView.SyncAllNotes | Keep/ContentView.swift:277-305 | after syncing every account with distinct emails, each account holds its fetched notes when its sync succeeded and its old notes when it failed |
| ContentView.Icon | Keep/ContentView.swift:38-40 | a key for a master token, a person for a profile, both for both, and nothing for neither |
| ContentView.SameLinksDistinct | Keep/ContentView.swift:258-315 | accounts whose email fields are unchanged keep their emails distinct |
| ContentView.AccountList.constructor | Keep/ContentView.swift:7-20 | the list starts on the store with no error texts |
| ContentView.AccountList.SetLinks | Keep/ContentView.swift:151-157 | one stored account's two link fields are overwritten; nothing else changes and the emails stay distinct |
| ContentView.AccountList.RemoveStoredAccount | Keep/ContentView.swift:131 | the account and only it leaves the store; the notes are untouched |
| ContentView.AccountList.AddOrUpdateAccount | Keep/ContentView.swift:141-166 | the stored accounts become the upsert of the old ones; no account object is lost; the notes are untouched |
| ContentView.AccountList.InsertNewAccount | Keep/ContentView.swift:158-161 | an account for a new email is stored with the given links; the others are untouched |
| ContentView.AccountList.SyncChromeProfiles | Keep/ContentView.swift:109-139 | the stored accounts become the reconciliation of the old ones with the profiles on disk; the notes are untouched |
| ContentView.AccountList.UpsertProfiles | Keep/ContentView.swift:118-124 | the stored accounts become the upsert of every current profile, in order |
| ContentView.AccountList.UnlinkVanished | Keep/ContentView.swift:126-134 | every account whose profile vanished loses its profile name when it has a master token and is deleted otherwise |
| ContentView.AccountList.UnlinkIfVanished | Keep/ContentView.swift:127-133 | one pass of the loop unlinks the account exactly when its profile vanished |
| ContentView.AccountList.UnlinkAccount | Keep/ContentView.swift:128-132 | the account loses its profile name or, without a master token, is deleted |
| ContentView.AccountList.DeleteAccount | Keep/ContentView.swift:236-256 | the account's profile is deleted from disk when it has one, the data directory left as that deletion left it even when it failed; then its notes and itself go; every other account's notes are untouched; an "Account Deleted" notice names it |
| ContentView.AccountList.DeleteStored | Keep/ContentView.swift:243-253 | the account's notes and the account leave the store, and nothing else does |
| ContentView.AccountList.HandleProfileAdded | Keep/ContentView.swift:202-212 | the profile's account is added or linked, and an "Account Added" notice names it |
| ContentView.AccountList.HandlePlayLoginSuccess | Keep/ContentView.swift:179-189 | a failed token exchange changes nothing and sends no notice; otherwise the master token is stored on the account and an "Account Added" notice names it |
| ContentView.TokenRefreshes | Service/GoogleApiClient.swift:154-160 | the Play records after their syncs, one per record, each keeping its email, profile name and master token |
| ContentView.AccountList.SyncPlayAccount | Keep/ContentView.swift:277-286 | one pass of the Play loop clears the account's text and syncs it, ending as its own replies decide; no other Play account changes; a failure is counted and recorded exactly when it happened; the account's access token and expiry become what its own token reply leaves |
| ContentView.AccountList.SyncStoredNotes | Keep/ContentView.swift:280 | the sync ends exactly as the account's token and notes replies decide and leaves it with the refreshed token; a success replaces its notes by the fetched ones, a failure changes no note, and every account keeps its links |
| ContentView.AccountList.SyncPlayAccounts | Keep/ContentView.swift:277-286 | every Play account is synced in order, each ending as its replies decide; the counts add up, the failures are counted, each text is set exactly for the failures, and each success stored its notes; each Play account's access token and expiry become what its own token reply leaves |
| ContentView.AccountList.ClearMessages | Keep/ContentView.swift:289-291 | the texts of exactly the given accounts are cleared |
| ContentView.AccountList.RecordErrors | Keep/ContentView.swift:299-302 | each error in the dictionary sets its account's text, and the count is the number of errors |
| ContentView.AccountList.SyncProfileAccounts | Keep/ContentView.swift:288-305 | without profile accounts nothing happens; otherwise their texts are cleared and they are synced together, their outcomes being the batch outcomes of the replies; the counts add up and each text is set exactly for the failures; without profile accounts the driver is untouched, otherwise its requests end with one cleanup |
| ContentView.AccountList.RunSync | Keep/ContentView.swift:274-305 | the Play accounts one by one, then the profile accounts together, each outcome decided by that account's replies: every account counted once, texts and notes as their own syncs left them; each Play account's record is refreshed by its own token reply; without profile accounts the driver is untouched, otherwise its requests end with one cleanup |
| ContentView.AccountList.SyncSelection | Keep/ContentView.swift:259-305 | the Play and profile-only accounts are selected with distinct emails and synced with outcomes decided by their replies, and the accounts keep their links; each selected Play account's record is refreshed by its own token reply and every other account is untouched; without profile accounts the driver is untouched, otherwise its requests end with one cleanup |
| ContentView.AccountList.SyncAllAccounts | Keep/ContentView.swift:258-315 | nothing happens without an account to sync; otherwise every account is synced once, with the outcome its own replies decide, its text is set exactly when its sync failed, its notes are replaced after a success, and with `notify` a start and an end notice are sent, the end one reading "Sync Successful" exactly when nothing failed; each Play account's record is refreshed by its own token reply and every other account is untouched; without profile accounts the driver is untouched, otherwise its requests end with one cleanup |
| PageText.NextQuote | Service/ChromeProfileService.swift:206 | the first `'` at or after the start, or the end of the text when there is none |
| PageText.ClosesOnLineMeaning | Service/ChromeProfileService.swift:206 | the tail of the pattern matches exactly when `")` follows later on the same line |
| PageText.MatchAt | Service/ChromeProfileService.swift:206 | a match at a position is the call's opening text, a non-empty payload without `'`, and the text after it; the payload is the text between them |
| PageText.FirstMatchFrom | Service/ChromeProfileService.swift:206-208 | a found payload is that of the leftmost match from the start position, and none is found exactly when nothing matches there |
| PageText.ExtractLoadChunkJSON | Service/ChromeProfileService.swift:205-216 | the result is the non-empty, quote-free payload of the leftmost `loadChunk(JSON.parse('…'), "…")` call, and there is none exactly when the pattern matches nowhere |
| PageText.ExtractFromCall | Service/ChromeProfileService.swift:205-216 | a page starting with the call gives back exactly its payload |
| PageText.MatchAtCall | Service/ChromeProfileService.swift:205-216 | a call found by its pieces at the start of the page gives back the text up to the closing quote |
| PageText.EscapedChar | Service/ChromeProfileService.swift:227-230 | the character of `\xHH` has code point 16 times the first hex digit plus the second |
| PageText.MatchesFrom | Service/ChromeProfileService.swift:221-223 | every position the scan reports starts a `\xHH` escape at or after the start |
| PageText.MatchesAfterFirst | Service/ChromeProfileService.swift:223 | the scan resumes four characters after each match |
| PageText.DecodeUpToMatch | Service/ChromeProfileService.swift:224-232 | between the start and the next match the text is copied unchanged |
| PageText.DecodeWithoutMatch | Service/ChromeProfileService.swift:224-232 | with no match left the rest is copied unchanged |
| PageText.ReplaceEscape | Service/ChromeProfileService.swift:224-232 | replacing the `k`-th match in place, right to left, gives the decoding from the previous gap on |
| PageText.UnescapeJSONString | Service/ChromeProfileService.swift:218-237 | the matches of the original text are replaced from last to first and then doubled backslashes collapse, which is the decoding `Unescape` describes |
| PageText.NoBackslashUnchanged | Service/ChromeProfileService.swift:218-237 | text without a backslash is left as it is |
| PageText.TrailingBackslashKept | Service/ChromeProfileService.swift:218-237 | a lone backslash at the end is kept |
| PageText.HexEscapeDecoded | Service/ChromeProfileService.swift:221-232 | `\xHH` becomes the character with code point `HH` |
| PageText.DoubledBackslashCollapses | Service/ChromeProfileService.swift:234 | an escaped backslash not followed by `x` collapses to one backslash |
| PageText.EscapedBackslashBeforeHex | Service/ChromeProfileService.swift:221-234 | in `\\x41` the hex scan matches at the second backslash, so the result is a backslash and `A`, not `\x41` |
| Json.AsBool | Service/ChromeProfileService.swift:78-80 | a JSON boolean is read as itself, and a string, null, array or object is not a boolean |
| Json.AsObjectArray | Service/ChromeProfileService.swift:132 | an array is read as objects exactly when every element is an object, and then as those objects in order |
| Wire.ObjectOf | Service/ChromePlayService.swift:76 | a body is read as an object exactly when it parsed as a JSON object, and then it is that object |
| Common.ComponentsJoin | Keep/HttpServer.swift:30-31 | no piece contains the separator, and joining the pieces with it gives back the text |
| Common.JoinComponents | Keep/HttpServer.swift:31 | joining pieces free of the separator and splitting the result gives back the pieces |
| Common.ComponentsAppend | Keep/HttpServer.swift:31 | a separator splits the pieces on its two sides apart |
| Common.SplitOmittingAppend | Service/GoogleApiClient.swift:192 | splitting while omitting empty pieces also splits the pieces on the two sides of a separator apart |
| Common.ParseInt | Service/NoteService.swift:10 | a signed decimal is read exactly when it fits in 64 bits |
| Common.NatRoundTrip | Service/GoogleApiClient.swift:200-204 | a printed natural number reads back as itself |
| Common.IntRoundTrip | Service/NoteService.swift:10 | a printed 64-bit integer reads back as itself |
| HttpServer.FirstLine | Keep/HttpServer.swift:30 | the first line is a prefix of the request without CRLF, and it is either the whole request or followed by CRLF |
| HttpServer.ParseRequestLine | Keep/HttpServer.swift:30-33 | neither the method nor the path contains a space |
| HttpServer.FirstLineOf | Keep/HttpServer.swift:30 | the first line of a request is the text before its first CRLF |
| HttpServer.RequestLineRoundTrip | Keep/HttpServer.swift:30-33 | a request line `method SP target SP version CRLF` gives back its method and target |
| HttpServer.RequestLineWithoutTarget | Keep/HttpServer.swift:32-33 | a request line without a space gives that text as the method and an empty path |
| HttpServer.Utf8Width | Keep/HttpServer.swift:53 | a character takes one to four UTF-8 bytes, and one exactly when it is ASCII |
| HttpServer.Utf8LengthBounds | Keep/HttpServer.swift:53 | the UTF-8 length lies between the character count and four times it, and equals the count exactly for ASCII text |
| HttpServer.Utf8LengthAppend | Keep/HttpServer.swift:53 | the UTF-8 length of two texts joined is the sum of their lengths |
| HttpServer.EncodeAll | Keep/HttpServer.swift:49 | one dictionary per note, each the encoding of that note |
| HttpServer.ReadFrame | Keep/HttpServer.swift:52-56 | a head of CRLF-terminated lines ended by an empty line reads back as those lines and the body |
| HttpServer.OkResponseFrame | Keep/HttpServer.swift:52-53 | the 200 reply is its head of status, content type and length lines, an empty line, and the body |
| HttpServer.OkContentLength | Keep/HttpServer.swift:52-53 | the Content-Length field of a 200 reply is the UTF-8 length of its body |
| HttpServer.ResponseFraming | Keep/HttpServer.swift:46-58 | `GET /notes` gives a 200 head with a JSON content type and the body's UTF-8 length, then the body; every other request gives a bare 404 head and no body |
| HttpServer.RoutesRequest | Keep/HttpServer.swift:30-58 | a well-formed request line for `GET /notes` gets the notes reply, and any other gets the 404 reply |

## Left out

- Networking, process spawning, `killall`, `Task.sleep`, task cancellation and the concurrency of the monitors are not modelled. Replies, process liveness, status-probe answers and session liveness are parameters, and one poll iteration is one method call.
- `JSONSerialization` and `PropertyListSerialization` are left out. JSON is a datatype; where the app parses or serialises JSON text, a function parameter stands for the library. The `Info.plist` read is a `Host` value.
- `NSRegularExpression` is replaced by hand matchers with the same first-match behaviour.
- SwiftData is an in-memory store, and `save()` is taken to succeed, so a failed save or fetch is not modelled. The app's fetch-then-delete loop over an account's notes is the single step `Store.ModelContext.DeleteNotesOf`. The store's fetch order is unspecified, so `ContentView` reads the accounts as a table keyed by email.
- `ContentView`'s `@State` copy of the accounts is read directly from the store, because `loadAccounts()` refreshes it after every change the model covers. `loadAccounts` itself, the notification permission request, the 900-second timer and `NSWorkspace` are left out.
- SwiftUI, AppKit, WidgetKit, AppIntents rendering and notification delivery are left out. Notifications are returned as `Notice` values.
- The HTTP listener, connections and byte transport are left out. The 1024-byte read limit and the UTF-8 decoding of the request are not modelled.
- `Date()`, `UUID()` and `UInt32.random` are parameters: an integer clock in milliseconds and a random number below 2^32.
- The ISO 8601 expiry text is written as the decimal number of milliseconds. That codec is lossless like the app's fractional-seconds format, but it is not the same text.
- GoogleApi.FetchAccessToken: `Double` seconds and epochs are whole numbers here. A fractional `ExpiresInDurationSec` or `Expiry` counts as unparsable rather than being rounded.
- The request bodies of the Google endpoints are not modelled: their field order is unspecified and their percent-encoding is a library call. Only the decisions taken on the replies are modelled.
- The division of colour bytes by 255 into `Double` components is not modelled, and neither is the `Color` value itself.
- Characters are Unicode scalar values, not grapheme clusters, and upper-casing is ASCII-only. This differs from Swift on text outside ASCII and also on CRLF, which Swift reads as one `Character`: `GoogleApi.ParseResponse` splits a line ended by `\r\n` at its `\n`, where Swift's `split(separator: "\n")` does not split it, and `NoteEntities.Truncated` and `NoteEntities.BuildTitle` count `\r\n` as two characters where Swift counts one.
- `URL(string:)` validity is not modelled. Every URL the app builds from a note is taken to be valid.
- `ChromeProfile.SyncMultipleAccounts`: the session ids the app collects but never reads are not modelled.
- NoteActor.BuildEntityItself: the trap of a checklist that claims more checked items than it has lines (a negative prefix length) is excluded by a precondition, and the store condition `NoteActor.Buildable` asks it of every visible root note that carries a checkbox count, rather than modelled as a crash.
- `killProcess` is modelled only as one recorded `killall` event per process name.
- `Notes.Parse` is total: the Swift function is declared `throws` but has no throwing path.
- NoteService.SortDesc: Swift's `sorted(by:)` does not promise a stable order. The model sorts stably, so the order among notes with equal keys is one admissible choice, not the app's guaranteed order.
- Framework glue is not part of this model: NoteWidgets/NoteProvider.swift, NoteWidgets/NoteWidget.swift, NoteWidgets/NoteConfigurationIntent.swift, NoteWidgets/NoteEntry.swift, NoteWidgets/NoteQuery.swift, Service/LocalApiClient.swift, Keep/KeepApp.swift and Model/ModelContainer.swift.
