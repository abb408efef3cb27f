# naziwatch: the anonymous-report safety path in Dafny

naziwatch is a mobile app for reporting right-wing extremist incidents
anonymously. A report goes through a wizard: category, location, time,
description and media. The location step keeps a raw map pin. The
description step screens the text for personal data (phone numbers,
street addresses, postal codes) and asks the reporter to confirm that no
person can be identified. The review step checks that the draft is
complete, consults a device-local cooldown guard and inserts one row
with status `pending` and privacy-rounded coordinates. It then records
the submission and resets the draft. The guard lets a submission
through when fewer than three submissions are recorded for the last
thirty minutes, and also when the stored history cannot be read: it
fails open. The public read path lists only `approved` rows, filtered by
category, time range and map area, newest first, one page at a time. A
moderation screen behind a code lists the pending rows with their media
and approves or rejects them.

This project models that path; one Dafny module stands for each source file:

| module | source | form |
|---|---|---|
| `Cooldown` | lib/cooldown.ts | pure decision `CanSubmit`; class `HistorySlot` for the storage entry |
| `Validation` | lib/validation.ts | pure: the three patterns as match predicates, a left-to-right search, the rule chain |
| `ReportStore` | store/report-store.ts | class `Store` with one field per draft field |
| `HomeFilters` | store/home-filters-store.ts | class `Store` |
| `ReviewStep` | app/report/review.tsx | pure `Rounded`/`InsertRow`; class `Screen` with `OnSubmit` |
| `DescriptionStep` | app/report/description.tsx | class `Screen` |
| `LocationStep` | app/report/location.tsx | class `Screen`, pure initial values |
| `IncidentsApi` | lib/incidents-api.ts | query builder method, page fetch, by-id fetch |
| `Admin` | app/admin.tsx | class `AdminScreen`; grouping and signing loops; pure card thumbnail |
| `UploadMedia` | lib/upload-media.ts | pure `RandomId`; array-filling `BinaryToBytes`; upload sequence |
| `Env` | lib/env.ts | pure configuration selection |
| `Types` | types/index.ts | the shared records |
| `Text` | (JavaScript built-ins) | `trim`, `\s`, `\d`, `\w`, UTF-16 `.length` |
| `Datastore` | (the backend) | a reference evaluator of the query: filter, order by `occurred_at` descending, `range(from, to)` |

Modelling choices:

- Backend answers (an insert's error, the procedure results of the
  moderation screen, a signer) are parameters. So are storage
  read/write outcomes, the clock, the random nibbles of `randomId`, the
  decoded file content and `roundCoordsForPrivacy`. Effects are recorded
  as sequences of calls.
- Timestamps are integers in milliseconds. A draft's `occurred_at` stays
  a string, because the completeness test treats `''` as missing.
- `trim` and `\s` use ECMAScript's white-space set.
- `.length` counts UTF-16 code units.
- The `i` flag folds ASCII letters and `ü`. That is exact for comparing
  against the address tokens, because without the `u` flag no
  non-ASCII character folds onto an ASCII one.
- The address pattern is modelled as written, including its mis-encoded
  first alternative `stra√üe` (the UTF-8 bytes of "straße" read as Mac
  Roman). Two consequences of the pattern as written:
  - `"Hauptstraße 12 in der Nähe"` is not caught by the address rule at
    the street name (`EszettSpellingIsNoToken`); only the `ss` spelling
    is caught (`StrasseSpellingIsCaught`).
  - `"Postleitzahl 10115 Berlin"` gets the phone message, not the
    postal one (`PostalCodeBetweenBlanksIsPhone`): the blank before the
    digits makes a six-character phone run, and the phone rule is
    tried first.

## Model

| member | source | states |
|---|---|---|
| Text.SkipLeading | lib/validation.ts:6 | the `\s*` scan stops at the first non-space at or after `i`, and everything it skips is white space |
| Text.SkipTrailing | lib/validation.ts:13 | the trailing scan stops after the last non-space, and everything it drops is white space |
| Text.SpacesBetweenAt | lib/validation.ts:6 | a run checked character by character is white space at every position |
| Text.SpacesBetweenJoin | lib/validation.ts:6 | two adjacent white-space runs form one |
| Text.TrimOffset | lib/validation.ts:13 | the start of the trimmed text lies inside the input |
| Text.TrimLimit | lib/validation.ts:13 | the end of the trimmed text lies between its start and the input's end |
| Text.Trim | lib/validation.ts:13 | `trim` never makes a text longer (its meaning is in `TrimIsInnerSlice`) |
| Text.TrimIsInnerSlice | lib/validation.ts:13 | the trimmed text is the slice between a white-space prefix and a white-space suffix, and it neither starts nor ends with white space |
| Text.SpacePrefix | lib/validation.ts:13 | a prefix of white-space characters is all white space |
| Text.SpaceSuffix | lib/validation.ts:13 | a suffix of white-space characters is all white space |
| Text.TrimFixesTrimmed | lib/validation.ts:13 | a text without surrounding white space is its own trim |
| Text.TrimIdempotent | lib/env.ts:19 | trimming twice equals trimming once |
| Text.TrimEmptyIffAllSpace | app/report/review.tsx:32 | a text trims to `''` exactly when it is all white space (the blank test of the wizard) |
| Text.Utf16Length | lib/validation.ts:14 | `.length` is between the number of characters and twice that |
| Validation.Canon | lib/validation.ts:6 | the case folding of the `i` flag maps each lowercase ASCII letter to its uppercase form |
| Validation.TokenAt | lib/validation.ts:6 | the token occurs at the position, ignoring case as the `i` flag does; `SpecAlternative` and `EszettSpellingIsNoToken` state matches through it |
| Validation.NumberFollows | lib/validation.ts:6 | the greedy scan of `\s*\.?\s*\d+`; `NumberFollowsCorrect` proves it equal to the pattern |
| Validation.TokenThenNumber | lib/validation.ts:6 | some token followed by the number part; `TokenThenNumberCorrect` proves it equal to the pattern |
| Validation.PhoneAt | lib/validation.ts:5 | six phone characters (digits, white space, `-`, `+`, `(`, `)`) start at the position; what it decides is stated by `PhoneRunRejects` and `ValidateDescription` |
| Validation.AddressAt | lib/validation.ts:6 | an address token followed by the number part starts at the position; `AddressAtCorrect` proves it equal to the pattern as written |
| Validation.PostalAt | lib/validation.ts:7 | five digits with no word character on either side start at the position; `PostalMessageNeedsNonPhoneNeighbours` states when it gives the message |
| Validation.Search | lib/validation.ts:17 | the scan of `test` finds a match exactly when some match starts at or after the given position |
| Validation.ValidateDescription | lib/validation.ts:12-27 | on the trimmed text, too short, then phone, then address, then postal decides the message; the text is valid exactly when no rule fires |
| Validation.SkipLeadingStopsAt | lib/validation.ts:6 | the white-space scan from `j` stops at any non-space reached through white space only |
| Validation.NumberFollowsSound | lib/validation.ts:6 | what the greedy scan of `\s*\.?\s*\d+` accepts, the pattern matches |
| Validation.NumberFollowsComplete | lib/validation.ts:6 | every reading of spaces, optional dot, spaces and a digit is accepted by the greedy scan |
| Validation.NumberFollowsFromSpec | lib/validation.ts:6 | a match of the number part is accepted by the scan |
| Validation.NumberFollowsCorrect | lib/validation.ts:6 | the greedy scan of the number part accepts exactly what the pattern matches |
| Validation.TokenThenNumberSound | lib/validation.ts:6 | a token found by the scan, followed by the scanned number part, is a pattern match |
| Validation.TokenThenNumberComplete | lib/validation.ts:6 | a pattern match of a token and the number part is found by the scan |
| Validation.SpecAlternative | lib/validation.ts:6 | a pattern match names the alternative that matched |
| Validation.AlternativeMatches | lib/validation.ts:6 | one matching alternative makes the address predicate hold |
| Validation.TokenThenNumberCorrect | lib/validation.ts:6 | token-then-number as scanned holds exactly when it holds as the pattern reads it |
| Validation.AddressAtCorrect | lib/validation.ts:6 | the address predicate at a position agrees with the address pattern there |
| Validation.AddressRuleMeaning | lib/validation.ts:20-22 | the address rule fires exactly when some token, ignoring case, occurs anywhere (inside words too) followed by spaces, an optional dot, spaces and a digit |
| Validation.PhoneRunRejects | lib/validation.ts:17-19 | any run of at least six digits, white space, `-`, `+`, `(` or `)` in a long enough trimmed text gives the phone message |
| Validation.PostalMessageNeedsNonPhoneNeighbours | lib/validation.ts:17-25 | the postal message is only given for five digits whose neighbours are not phone characters (so not white space) |
| Validation.ValidIsNotBlank | lib/validation.ts:26 | a text that passes is not blank after trimming |
| Validation.EszettSpellingIsNoToken | lib/validation.ts:6 | "straße" with a real ß matches no alternative where it is written, in any letter case |
| Validation.StrasseSpellingIsCaught | lib/validation.ts:6 | "Hauptstrasse 12" contains an exact address |
| Validation.TokenInsideWordIsCaught | lib/validation.ts:20-22 | a token inside a word ("Hinterweg 5") is an exact address |
| Validation.BlankRunRejected | lib/validation.ts:5 | six inner blanks alone give the phone message |
| Validation.PostalCodeBetweenBlanksIsPhone | lib/validation.ts:17-25 | "Postleitzahl 10115 Berlin" gets the phone message |
| Validation.PhoneNumberRejected | lib/validation.ts:17-19 | "Ruf mich an unter 0151 2345678" gets the phone message |
| Validation.ShortTextRejected | lib/validation.ts:14-16 | "ab" gets the too-short message |
| Cooldown.History | lib/cooldown.ts:13-14 | a missing entry is the empty history, an unreadable one is the `catch` path, a list is itself |
| Cooldown.InWindow | lib/cooldown.ts:16 | a timestamp counts when it is strictly less than 1 800 000 ms old; `Recent` keeps exactly those |
| Cooldown.Recent | lib/cooldown.ts:16 | the in-window entries: exactly the stored timestamps less than thirty minutes old (strictly), no more of them than stored |
| Cooldown.MinOf | lib/cooldown.ts:18 | `Math.min` of a non-empty list is an element no larger than any other |
| Cooldown.CeilDiv | lib/cooldown.ts:19 | `Math.ceil(a / b)` is the least `q` with `a <= b * q` |
| Cooldown.CanSubmit | lib/cooldown.ts:11-25 | allowed exactly when storage is unreadable or fewer than three entries are in the window; a refusal's wait is at least one second and exactly long enough for the oldest entry to leave |
| Cooldown.RetryAtMostWindow | lib/cooldown.ts:18-19 | with no timestamp in the future the wait is at most 1800 seconds |
| Cooldown.RecentAppend | lib/cooldown.ts:16 | the window filter keeps order: filtering a concatenation filters each part |
| Cooldown.RecentIdempotent | lib/cooldown.ts:32 | filtering twice at the same instant changes nothing |
| Cooldown.Recorded | lib/cooldown.ts:32-34 | the list written back is the in-window entries in stored order, with `now` last |
| Cooldown.RecordAddsOne | lib/cooldown.ts:32-33 | the written list has one more in-window entry at the same instant |
| Cooldown.RecentShrinks | lib/cooldown.ts:16 | an entry that leaves the window lowers the count |
| Cooldown.RecentMonotone | lib/cooldown.ts:16 | the count never grows as time passes |
| Cooldown.FullWindowRefused | lib/cooldown.ts:17-19 | three or more entries in the window are refused |
| Cooldown.BelowLimitAllowed | lib/cooldown.ts:17-21 | fewer than three entries in the window are allowed |
| Cooldown.OldestLeaves | lib/cooldown.ts:18-19 | the oldest entry of a refused window is stored, in the window now, and out of it once the wait is over |
| Cooldown.LeavingReopens | lib/cooldown.ts:16-21 | once one of exactly three entries leaves the window, the guard allows |
| Cooldown.WaitingSuffices | lib/cooldown.ts:18-19 | with exactly three entries, waiting the refused wait is enough to be allowed again |
| Cooldown.AfterRecord | lib/cooldown.ts:27-38 | an unreadable entry or a failed write leaves storage as it was; otherwise it holds the recorded list |
| Cooldown.HistorySlot.constructor | lib/cooldown.ts:13 | the entry starts with what storage holds |
| Cooldown.HistorySlot.RecordSubmission | lib/cooldown.ts:27-38 | the entry afterwards is `AfterRecord` of the entry before; every failure is swallowed |
| Cooldown.AfterRecordCounts | lib/cooldown.ts:29-34 | after a recorded submission the next check at the same instant counts one more entry |
| Cooldown.UnreadableFailsOpen | lib/cooldown.ts:13-24 | unreadable storage and missing storage are both allowed |
| ReportStore.WithoutIndex | store/report-store.ts:38 | filtering out index `i` removes exactly entry `i`; an out-of-range index keeps the list whole |
| ReportStore.Store.constructor | store/report-store.ts:18-29 | the store starts as the initial draft: nothing set, empty text, no media |
| ReportStore.Store.SetCategory | store/report-store.ts:30 | only the category changes |
| ReportStore.Store.SetLocation | store/report-store.ts:31 | lat, lon and precision change together, nothing else |
| ReportStore.Store.SetOccurredAt | store/report-store.ts:32 | only the time changes |
| ReportStore.Store.SetDescription | store/report-store.ts:33 | only the description changes |
| ReportStore.Store.AddMedia | store/report-store.ts:34-35 | one attachment is appended; earlier ones are kept |
| ReportStore.Store.RemoveMedia | store/report-store.ts:36-39 | exactly entry `i` is removed when it exists, else the list is unchanged; nothing else changes |
| ReportStore.Store.Reset | store/report-store.ts:40 | from any state the store holds the initial draft (so it is idempotent) |
| HomeFilters.Store.constructor | store/home-filters-store.ts:14-15 | both filters start cleared |
| HomeFilters.Store.SetTimeRange | store/home-filters-store.ts:16 | sets or clears the time range; the category is untouched |
| HomeFilters.Store.SetCategory | store/home-filters-store.ts:17 | sets or clears the category; the time range is untouched |
| ReviewStep.Rounded | app/report/review.tsx:20-23 | a point exists exactly when lat, lon and precision are set, and it is the rounding of the raw values |
| ReviewStep.Complete | app/report/review.tsx:26-33 | category, point, precision and a non-empty time are set and the trimmed description is not blank; `Screen.OnSubmit` stops with the incomplete message, before anything else, when it fails |
| ReviewStep.InsertRow | app/report/review.tsx:47-59 | the row a complete draft is inserted as; its fields are stated by `InsertRowContents` |
| ReviewStep.InsertRowContents | app/report/review.tsx:47-59 | the inserted row is pending, has no region, carries the draft's category and `occurred_at` unchanged, the trimmed non-blank description, the rounded point and the precision, and ignores the media |
| ReviewStep.InsertedRowIsNotListed | app/report/review.tsx:58 | a pending row is never listed by the public read path |
| ReviewStep.WaitMinutes | app/report/review.tsx:41 | the shown wait is the least whole number of minutes covering the seconds |
| ReviewStep.WaitMinutesBounds | app/report/review.tsx:37-44 | a refusal asks for at least one minute, and at most thirty when no timestamp lies ahead |
| ReviewStep.Screen.constructor | app/report/review.tsx:18 | not submitting at first |
| ReviewStep.Screen.OnSubmit | app/report/review.tsx:25-73 | incomplete stops first; a refusal stops before the insert; an insert error keeps draft and history; success records, then resets; `submitting` is off again past the cooldown |
| DescriptionStep.Screen.constructor | app/report/description.tsx:17-18 | unticked, with the draft's description as the local text |
| DescriptionStep.Screen.SetLocalDesc | app/report/description.tsx:44 | only the local text changes |
| DescriptionStep.Screen.ToggleAgreed | app/report/description.tsx:48 | each press flips the agreement |
| DescriptionStep.Screen.OnNext | app/report/description.tsx:20-32 | validator first, then agreement; either failure alerts and leaves the draft; only both passing write the untrimmed text |
| LocationStep.InitialPin | app/report/location.tsx:18-20 | the draft's point when both coordinates are set, else none |
| LocationStep.InitialPrecision | app/report/location.tsx:21 | the draft's precision, else 500 |
| LocationStep.Screen.constructor | app/report/location.tsx:18-21 | pin and precision start from the draft |
| LocationStep.Screen.OnMapPress | app/report/location.tsx:47-50 | the pin becomes the pressed point |
| LocationStep.Screen.SelectPrecision | app/report/location.tsx:93-96 | the precision becomes one of 200, 500, 1000, 2000 |
| LocationStep.Screen.CenterOnUser | app/report/location.tsx:52-63 | with a known position and a map the pin moves there, otherwise an alert and the pin stays |
| LocationStep.Screen.OnNext | app/report/location.tsx:65-72 | no pin: alert, draft unchanged; a pin: the raw pin and precision are written together |
| LocationStep.ReopenShowsWrittenLocation | app/report/location.tsx:18-21 | reopening the step on what its `OnNext` wrote shows the same pin and precision |
| Datastore.Select | lib/incidents-api.ts:23 | the kept rows are exactly the table rows the condition accepts |
| Datastore.SelectAgrees | lib/incidents-api.ts:20-23 | conditions that agree on every row select the same rows |
| Datastore.InsertDesc | lib/incidents-api.ts:24 | inserting into a newest-first listing keeps it newest first and adds exactly that row |
| Datastore.SortDesc | lib/incidents-api.ts:24 | `order('occurred_at', descending)` is newest first and a permutation of its input |
| Datastore.Range | lib/incidents-api.ts:51 | `range(from, to)` is positions `from` to `to` inclusive, as far as they exist |
| Datastore.RangeOfRows | lib/incidents-api.ts:51 | a range holds rows of its input only, and a range of a sorted input is sorted |
| Datastore.MediaOf | lib/incidents-api.ts:61 | an incident's media are exactly the media rows naming it |
| Datastore.Run | lib/incidents-api.ts:20-51 | the rows meeting every condition, newest first, cut to the range; `IncidentsApi.RunIsListing` ties it to the listing |
| IncidentsApi.TimeFrom | lib/incidents-api.ts:29-40 | the lower bound is local midnight, 604 800 000 ms back, or 2 592 000 000 ms back |
| IncidentsApi.PageOf | lib/incidents-api.ts:19 | the page, `0` when not given; `FetchIncidents` starts its range at `page * pageSize` |
| IncidentsApi.PageSizeOf | lib/incidents-api.ts:19 | the page size, `20` when not given; `PageSizeAndHasMore` bounds a page by it |
| IncidentsApi.InBox | lib/incidents-api.ts:41-47 | the row lies in the box, borders included; `BuildQuery` proves the four bound conditions equal to it |
| IncidentsApi.Matches | lib/incidents-api.ts:23-47 | a row is approved, has the category if one is chosen, is no older than the time bound and lies in the box; `BuildQuery` proves the chained conditions equal to it |
| IncidentsApi.Listing | lib/incidents-api.ts:20-47 | the rows to page through: newest first, exactly the table rows that are approved and meet every filter |
| IncidentsApi.BuildQuery | lib/incidents-api.ts:20-47 | the chained conditions hold of a row exactly when it is approved, has the category, is no older than the bound and lies in the box, borders included |
| IncidentsApi.FetchIncidents | lib/incidents-api.ts:15-56 | a query error is returned as an error; otherwise the page is rows `page * pageSize` to `page * pageSize + pageSize - 1` of the listing, and `hasMore` is whether it came back full |
| IncidentsApi.RunIsListing | lib/incidents-api.ts:49-51 | running the built query cuts the range out of the listing |
| IncidentsApi.ListedRangeMatches | lib/incidents-api.ts:20-51 | every row of a page is stored, approved and meets every filter, and a page is newest first |
| IncidentsApi.PageSizeAndHasMore | lib/incidents-api.ts:49-55 | a page holds at most `pageSize` rows, and it is full exactly when at least `(page + 1) * pageSize` rows match |
| IncidentsApi.ConsecutivePages | lib/incidents-api.ts:49-51 | consecutive ranges of one fixed listing concatenate: two consecutive pages are one range twice as long, no row skipped or repeated |
| IncidentsApi.NoFiltersListsAllApproved | lib/incidents-api.ts:19-24 | without filters and box the listing is exactly the approved rows |
| IncidentsApi.FetchIncidentById | lib/incidents-api.ts:58-67 | a row comes back exactly when no error is reported and exactly one approved row has the id; it carries exactly that incident's media |
| Admin.AsList | app/admin.tsx:47 | an error or a non-array answer is the empty list |
| Admin.MediaOfAppend | app/admin.tsx:58-62 | appending a row extends exactly its own incident's group |
| Admin.MediaOfCounts | app/admin.tsx:58-62 | each row is in its own incident's group as often as in the input, and in no other group |
| Admin.Grouped | app/admin.tsx:58-62 | the media grouped by incident; `GroupedAt` states its keys and groups and `GroupByIncident` computes it |
| Admin.GroupedAt | app/admin.tsx:58-62 | the grouping has a group for exactly the ids that occur, and each group is that id's rows in input order |
| Admin.GroupByIncident | app/admin.tsx:58-63 | the loop builds that grouping |
| Admin.ImageRows | app/admin.tsx:64 | the kept rows are exactly the image rows |
| Admin.ImagePaths | app/admin.tsx:64 | the paths are the urls of the image rows, in order |
| Admin.ImagePathsAreImageUrls | app/admin.tsx:64 | every image row's url is a path to sign |
| Admin.ImagePathsIgnoreVideos | app/admin.tsx:64 | a video row adds no path |
| Admin.ImageRowsAppendVideo | app/admin.tsx:64 | a video row adds no image row |
| Admin.SignAll | app/admin.tsx:65-71 | the URL map holds exactly the paths whose signing gave a non-empty URL, each with that URL |
| Admin.SignedUrls | app/admin.tsx:65-71 | the paths whose signing gave a non-empty URL, each with that URL; `SignAll` computes it |
| Admin.Signed | app/admin.tsx:69 | `if (url)`: a signing result is kept exactly when it is a non-empty string; `SignedUrls` keeps exactly those paths and `SignAll` computes that map |
| Admin.FirstImage | app/admin.tsx:147 | `find` gives the first image row, and nothing exactly when there is none |
| Admin.CardThumb | app/admin.tsx:146-157 | a picture exactly when the first image has a known non-empty URL, nothing exactly when there is no media, a placeholder otherwise |
| Admin.Loaded | app/admin.tsx:39-73 | the screen after a load; `LoadErrorKeepsLists`, `NonArrayIsEmpty`, `LoadGroupsMedia`, `MediaErrorIsIgnored` and `UrlMergeKeepsAndOverrides` state its cases, `AdminScreen.LoadPending` computes it |
| Admin.LoadErrorKeepsLists | app/admin.tsx:43-46 | a failing pending query leaves list, media and URLs as they were |
| Admin.NonArrayIsEmpty | app/admin.tsx:47-52 | a non-array answer lists nothing and clears the media, keeping the URLs |
| Admin.LoadGroupsMedia | app/admin.tsx:53-63 | with pending rows every media row lands in its incident's group, and every group holds only its incident's rows |
| Admin.MediaErrorIsIgnored | app/admin.tsx:54-57 | a failing media query groups nothing and adds no URL, but the load goes on |
| Admin.UrlMergeKeepsAndOverrides | app/admin.tsx:65-72 | earlier URLs stay unless re-signed, freshly signed ones override, failed signings add nothing |
| Admin.AdminScreen.constructor | app/admin.tsx:19-24 | locked, nothing typed, nothing loaded |
| Admin.AdminScreen.SetCode | app/admin.tsx:111 | only the typed code changes |
| Admin.AdminScreen.TryUnlock | app/admin.tsx:33-37 | unlocks exactly when the trimmed code equals the admin code, else alerts and changes nothing |
| Admin.AdminScreen.LoadPending | app/admin.tsx:39-73 | the new state is `Loaded` of the old; an error alerts with its message; media are queried only for a non-empty list |
| Admin.AdminScreen.Moderate | app/admin.tsx:79-89 | approve sends `approved`, reject `rejected`; an error alerts and changes nothing; success reloads |
| UploadMedia.Hex | lib/upload-media.ts:14 | `toString(16)` of a nibble is a lowercase hex digit |
| UploadMedia.Variant | lib/upload-media.ts:13 | `(r & 0x3) \| 0x8` is 8 to 11 and keeps the low two bits of `r` |
| UploadMedia.Template | lib/upload-media.ts:11 | the template has 36 characters, each fixed by its position |
| UploadMedia.TemplateText | lib/upload-media.ts:11 | the template is `xxxxxxxx-xxxx-4xxx-yxxx-xxxxxxxxxxxx` |
| UploadMedia.Fill | lib/upload-media.ts:11-15 | `replace(/[xy]/g, …)` keeps every other character and gives the k-th placeholder the k-th nibble's digit |
| UploadMedia.TemplateSlots | lib/upload-media.ts:11 | the template has 31 placeholders |
| UploadMedia.RandomId | lib/upload-media.ts:10-16 | an id has 36 characters |
| UploadMedia.RandomIdAt | lib/upload-media.ts:11-14 | fixed characters stay, `x` becomes a hex digit, `y` one of `8`, `9`, `a`, `b` |
| UploadMedia.RandomIdLayout | lib/upload-media.ts:11-14 | the version-4 layout of section 4.4 of RFC 4122: dashes at 8, 13, 18, 23, `4` at 14, the variant digit of section 4.1.1 at 19, lowercase hex elsewhere |
| UploadMedia.RandomIdInjective | lib/upload-media.ts:10-16 | equal ids come from equal nibbles (the variant nibble up to its two low bits) |
| UploadMedia.HexInjective | lib/upload-media.ts:12-14 | one placeholder's digit determines its nibble |
| UploadMedia.SlotPosition | lib/upload-media.ts:11 | every placeholder index has a position in the template |
| UploadMedia.Extension | lib/upload-media.ts:30 | `jpg` exactly for images, `mp4` exactly for videos |
| UploadMedia.ContentType | lib/upload-media.ts:39 | `image/jpeg` exactly for images, `video/mp4` exactly for videos |
| UploadMedia.StoragePath | lib/upload-media.ts:31 | `incidentId/id.ext`; `StoragePathRoundTrip` reads it back |
| UploadMedia.StoragePathRoundTrip | lib/upload-media.ts:31 | a storage path reads back into the incident id, the random id and the kind's extension |
| UploadMedia.Latin1Bytes | lib/upload-media.ts:20-21 | as many bytes as characters, byte `i` the code of character `i` modulo 256 |
| UploadMedia.BinaryToBytes | lib/upload-media.ts:18-23 | the filled array is those bytes |
| UploadMedia.UploadIncidentMedia | lib/upload-media.ts:25-50 | a failed read uploads nothing; the upload carries the path, bytes and content type; an upload error stops before the insert; the insert records the uploaded path; every error is returned; a metadata insert comes right after the upload of the same path, and that path reads back as the incident, the id and the kind's extension |
| Env.Coalesce | lib/env.ts:9 | `??` falls through only on `undefined` and `null` |
| Env.SupabaseUrl | lib/env.ts:9 | the trimmed first non-nullish value; not a string means `trim` throws |
| Env.RawCandidates | lib/env.ts:12-17 | the candidates are exactly the string values that are not blank after trimming, no more of them than values |
| Env.KeyValues | lib/env.ts:12-16 | the four key values in the listed order of preference (the list the candidates are filtered from) |
| Env.RawCandidatesAppend | lib/env.ts:12-17 | the filter keeps the listed order |
| Env.FindFirst | lib/env.ts:18 | `find` gives the first accepted position, and nothing exactly when none is accepted |
| Env.LooksLikeJwt | lib/env.ts:18 | the trimmed value starts with `eyJ`; `AnonKeyChoice` proves the key starts with it whenever a candidate does |
| Env.FirstJwt | lib/env.ts:18 | the first JWT-looking candidate, by `FindFirst`'s contract |
| Env.AnonKey | lib/env.ts:18-19 | the anon key; `AnonKeyChoice` states which candidate it is |
| Env.AnonKeyChoice | lib/env.ts:18-19 | the key is trimmed, empty exactly when there is no candidate, the trimmed first JWT-looking candidate when there is one, else the trimmed first candidate |
| Env.AdminMode | lib/env.ts:20-21 | on exactly when either value is the string `true`, untrimmed and case-sensitive |
| Env.DefaultCodeIsTrimmed | lib/env.ts:25 | the default code is non-empty and trimmed |
| Env.AdminCode | lib/env.ts:23-25 | the trimmed configured code, or the default when it is missing, not a string or blank; `AdminCodeNonEmpty` and `EmptyExtraWins` state its properties |
| Env.AdminCodeNonEmpty | lib/env.ts:23-25 | the admin code is never empty and never has surrounding white space |
| Env.EmptyExtraWins | lib/env.ts:9-25 | an empty string in `extra` beats the environment: the URL is empty and the code is the default |

## Left out

- `roundCoordsForPrivacy` (lib/rounding.ts): floating point with `Math.cos` and `Math.round`; it is a function parameter.
- The backend (the datastore client, its procedures, storage and signed URLs): only success or error answers are modelled. The query semantics are the reference evaluator `Datastore`. Server-side status rules are not modelled.
- `SecureStore` and `JSON.parse`/`JSON.stringify`: a stored value is missing, unreadable or a list of numbers. A list holding non-numbers or `NaN` is not modelled.
- `FileSystem.readAsStringAsync` and `atob`: the decoded string, or the read error, is a parameter.
- `Math.random`, `Date.now()`, `new Date()` and the computation of local midnight are parameters. ISO timestamp strings are milliseconds in the datastore.
- `Promise.all` in the moderation screen: the signer is modelled as a function of the path, so signing in sequence gives the same map. Real signings of one path can give different URLs, and for a path listed twice the signing that resolves last wins; neither is modelled.
- The `ADMIN_MODE` redirect and the `null` render (app/admin.tsx:26-31, 91) are UI behaviour. `Env.AdminMode` models the flag itself.
- The effect that loads the pending list once the screen unlocks (app/admin.tsx:75-77) is not modelled as a reaction; `LoadPending` models the load it starts.
- Alerts, navigation, styles and the map region are not modelled. The success navigation with the returned id is the `Submitted(id)` outcome.
- The media step, the time step and the category step write the draft through the store setters modelled here. Their screens are not modelled.
- `uploadIncidentMedia` has no caller in the submit path. Draft media are never uploaded; `Reset` discards them.
- IncidentsApi.FetchIncidents: requires `page >= 0` and `pageSize >= 0`. A negative range start is rejected by the backend, which is not modelled here.
- IncidentsApi.FetchIncidents: a reply with neither data nor error (`data ?? []`) is not modelled. The evaluator always returns rows.
- IncidentsApi.FetchIncidents: rows with equal `occurred_at` get one fixed order, and the table is the same for every page. The backend promises neither, so consecutive pages are only gap- and repeat-free under those two assumptions.
- The order in which the media procedure returns rows is taken as given; the groups keep that order.
- UploadMedia.UploadIncidentMedia: requires the 31 nibbles `Math.random` supplies for the 31 placeholders.
- LocationStep.Screen.SelectPrecision: requires the index of an existing button.
- ReviewStep.Screen.OnSubmit: modelled as one uninterrupted run. The button is disabled only once `submitting` is set (app/report/review.tsx:45), after the awaited guard, so a second press before then starts a second run; two overlapping runs can both pass the guard and both insert. The three-per-window limit holds only for runs that do not overlap.
- Cooldown.HistorySlot.RecordSubmission: modelled as one uninterrupted read, update and write (lib/cooldown.ts:27-34). Two overlapping calls can both read the same list and both write it with one new timestamp, recording one submission for two.
- Admin.AdminScreen.LoadPending: modelled as one uninterrupted run. A reload after approve or reject can overlap the load started on unlock (app/admin.tsx:75-89), and the reply that arrives last sets the lists; that is not modelled.
