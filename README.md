# plaka — a verified model of the found-plate board

plaka is a small web application for lost and found licence plates: people
report a plate they found (title, description, photo, optional location and
plate number), and others browse and search the reports. This project
models its core in Dafny and proves what the code promises:

- **Validation** (`src/utils/validation.ts`): the input sanitiser, the
  Turkish plate-number pattern (as a hand-written recogniser proved equal
  to the pattern's language), the image, title, description and location
  checks, and the per-key `RateLimiter` as a class over a map.
- **The table** (`backend/src/utils/database.js`): `plaka_posts` as a class
  holding a map from id to row and the set of ids ever issued (SQLite's
  AUTOINCREMENT), with the six queries. `searchPlakalar` builds its
  condition list and parameter list step by step, as the source does, and
  is proved against SQL `LIKE` (modelled in full, with `%`, `_` and ASCII
  case folding).
- **The routes** (`backend/src/routes/plakalar.js`): the upload filter, the
  5 MiB limit and the `plaka-<ms>-<random><ext>` file names (with a parser
  and a round trip), and the six handlers as a class over the table and the
  set of files on disk, each deciding between 200/201, 400, 404 and 500.
  An invariant, "every row's image is on disk and no two rows share an
  image", is proved to be kept by each handler except the update as written.
- **The listing page** (`src/pages/BulunanPlakalarPage.tsx`): `filterPosts`
  (local sort without filters, the server's answer with filters, and the
  local filter-and-sort when the request fails), `handleFilterChange` and
  `clearFilters`, with the sort proved sorted, a permutation and stable.
- **The report page** (`src/pages/PlakaBildirPage.tsx`): `handleInputChange`,
  `handleImageChange`, `validateForm` (field by field) and `handleSubmit`
  (rate limiter first, then validation, then the sanitised request, then a
  limiter reset on success).
- **The API client** (`src/services/api.ts`): `getImageUrl`, the query
  string of `searchPlakalar`, the form fields of `createPlaka` and
  `updatePlaka`, and the error message `request` throws.
- **Local storage** (`src/utils/storage.ts`): save and delete as list
  operations on the stored list.
- **Agreement** between the listing page's local fallback and the server's
  search: for ASCII text and filters without LIKE wildcards they keep the
  same posts.

`escapeHtml` (which goes through the browser's DOM) is modelled as the
"escaping a string" algorithm of section 13.3 of the WHATWG HTML Living
Standard (`&`, U+00A0, `<`, `>`), with an unescaping partner. Lengths are
JavaScript lengths, counted in UTF-16 code units. Clocks (`Date.now()`) and
randomness (`Math.random()`) are parameters.

Files: `text.dfy` (string helpers), `html.dfy`, `types.dfy`,
`validation.dfy`, `sql_like.dfy`, `database.dfy`, `routes.dfy`,
`found_page.dfy`, `report_page.dfy`, `api.dfy`, `storage.dfy`,
`search_agreement.dfy`.

## Model

| member | source | states |
|---|---|---|
| Text.TrimStart | src/utils/validation.ts:10 | the result is a suffix of the input, starts with no white space, and only white space was dropped |
| Text.TrimEnd | src/utils/validation.ts:10 | the result is a prefix of the input, ends with no white space, and only white space was dropped |
| Text.Trim | src/utils/validation.ts:10 | the result has no white space at either end, and is empty exactly when the input is all white space |
| Text.TrimIsSlice | src/utils/validation.ts:10 | the trimmed text is a slice of the input with only white space before and after it |
| Text.TrimUntouched | src/utils/validation.ts:10 | text with no white space at either end is left as it is |
| Text.TrimIdempotent | src/utils/validation.ts:10 | trimming twice is trimming once |
| Text.Lower | src/pages/BulunanPlakalarPage.tsx:93 | position by position, ASCII capitals are lowered and nothing else changes |
| Text.Upper | src/utils/validation.ts:17 | position by position, ASCII small letters are raised and nothing else changes |
| Text.UpperIdempotent | src/utils/validation.ts:17 | upper-casing twice is upper-casing once |
| Text.LowerAppend | src/pages/BulunanPlakalarPage.tsx:93 | lower-casing distributes over concatenation |
| Text.FirstIndexFrom | src/services/api.ts:179 | the position found holds the pattern and no earlier one does; none is found only when the pattern occurs nowhere |
| Text.ReplaceFirstCases | src/services/api.ts:179 | `replace` with a string pattern changes nothing when the pattern is absent, and otherwise replaces exactly its first occurrence |
| Text.JsLength | src/utils/validation.ts:46 | the JavaScript length lies between the number of characters and twice that |
| Text.JsLengthAppend | src/utils/validation.ts:46 | JavaScript lengths add up over concatenation |
| Text.JsLengthBmp | src/utils/validation.ts:46 | text within the Basic Multilingual Plane has one code unit per character |
| Text.Decimal | backend/src/routes/plakalar.js:26 | a number's decimal text is non-empty, all digits, and has no leading zero |
| Text.DecimalRoundTrip | backend/src/routes/plakalar.js:26 | reading back a number's decimal text gives the number |
| Text.DecimalInjective | backend/src/routes/plakalar.js:26 | different numbers have different decimal texts |
| Html.EscapeChar | src/utils/validation.ts:2-6 | an ordinary character is kept; `&`, U+00A0, `<` and `>` become a character reference `&…;` |
| Html.EscapeHtml | src/utils/validation.ts:2-6 | escaped text holds no `<`, `>` or U+00A0, is at least as long as the input, and is empty only for empty input |
| Html.UnescapeEscape | src/utils/validation.ts:2-6 | escaping loses nothing: decoding the escaped text gives the input back |
| Html.UnescapeChar | src/utils/validation.ts:2-6 | decoding an escaped character followed by any text gives the character, then the decoded text |
| Html.EscapePlain | src/utils/validation.ts:2-6 | text with no character that needs escaping is left as it is |
| Html.EscapeEnds | src/utils/validation.ts:2-6 | the escaped text starts with the first character or `&`, and ends with the last character or `;` |
| Html.EscapeEndsNonWhite | src/utils/validation.ts:2-6 | escaping text with no white space at either end gives text with none at either end |
| PlakaTypes.OrNull | backend/src/routes/plakalar.js:133 | `s \|\| null`: present exactly when the value is a non-empty string, and then unchanged |
| Validation.SanitizeInputDecodes | src/utils/validation.ts:9-11 | decoding the sanitised text gives the trimmed input, so trimming comes before escaping; the result is empty iff the input is all white space |
| Validation.SanitizeInputClean | src/utils/validation.ts:9-11 | sanitised text holds no `<` or `>` and has no white space at either end |
| Validation.SanitizeUntrimmed | src/utils/validation.ts:9-11 | for text with no white space at either end, sanitising is only escaping |
| Validation.Skip | src/utils/validation.ts:16 | the run found has only characters of the class and stops at the first other character |
| Validation.SkipStops | src/utils/validation.ts:16 | any maximal run of the class is the run found |
| Validation.ScanPlateCorrect | src/utils/validation.ts:16 | the recogniser accepts exactly the pattern's language: 2 digits, white space, 1 to 3 capitals A–Z, white space, 2 to 4 digits, nothing before or after |
| Validation.ScanPlateSound | src/utils/validation.ts:16 | every text the recogniser accepts splits into the pattern's five parts |
| Validation.ScanPlateComplete | src/utils/validation.ts:16 | every text that splits into the pattern's five parts is accepted |
| Validation.PlateNumberCaseInsensitive | src/utils/validation.ts:17 | the plate check gives the same answer for the text and its upper-cased form |
| Validation.PlateNumberAcceptsSpaced | src/utils/validation.ts:15-16 | "34 ABC 123" passes |
| Validation.PlateNumberAcceptsUnspaced | src/utils/validation.ts:15-16 | "34ABC1234" passes |
| Validation.PlateNumberLowerCase | src/utils/validation.ts:16-17 | "06 a 12" passes, because the text is upper-cased first |
| Validation.PlateAccepted | src/utils/validation.ts:16-17 | any upper-case text laid out as digits, white space, letters, white space, digits in the pattern's bounds passes |
| Validation.PlateNumberRejects | src/utils/validation.ts:16-17 | "AB 12 345", " 34 ABC 123" (leading space) and "34 ABCD 123" (four letters) fail |
| Validation.ValidateImageFile | src/utils/validation.ts:21-40 | valid iff the MIME type is one of the four listed and the size is at most 5 MiB; a wrong type reports the type error even when the file is also too large |
| Validation.Bounded | src/utils/validation.ts:43-61 | valid iff the JavaScript length of the sanitised text lies within the bounds; otherwise the "too short" or "too long" reason |
| Validation.ValidateLocation | src/utils/validation.ts:85-105 | an all-white-space location is valid; any other must have a sanitised length from 3 to 100 |
| Validation.PlainSanitized | src/utils/validation.ts:9-11 | text with no white space at its ends, nothing to escape and no astral characters is unchanged by sanitising and its length is its character count |
| Validation.PlainBounds | src/utils/validation.ts:43-105 | for such text: a title passes iff 5 to 100 characters, a description iff 10 to 1000, a non-empty location iff 3 to 100 |
| Validation.EscapedLengthCounts | src/utils/validation.ts:44-46 | lengths are measured after escaping: the 3-character title `<c>` passes because it becomes 9 characters long |
| Validation.EscapeBracketed | src/utils/validation.ts:2-6 | `<c>` escapes to `&lt;c&gt;` |
| Validation.Lookup | src/utils/validation.ts:120 | `attempts.get(key)`: present iff the key is in the map, with its entry |
| Validation.Outcomes | src/utils/validation.ts:118-142 | one answer per call |
| Validation.BurstFrom | src/utils/validation.ts:128-141 | within one window, a key that has made `count` attempts is let through exactly while its count stays below the limit |
| Validation.BurstAllowsFirstMax | src/utils/validation.ts:118-142 | for calls within one window of a fresh key's first call, the first `maxAttempts` (and at least the first) are let through and every later one is refused |
| Validation.ResetForgetsAttempt | src/utils/validation.ts:144-146 | resetting a key right after an attempt leaves the other keys as they were before it |
| Validation.RateLimiter.constructor | src/utils/validation.ts:113-116 | the limit and the window are as given (5 and 60000 by default) and no key has been tried |
| Validation.RateLimiter.CanAttempt | src/utils/validation.ts:118-142 | an unseen key, or one whose last attempt is more than a window ago, is let through with count 1; a key at the limit is refused and nothing changes; otherwise the count rises and the time is recorded; no other key changes |
| Validation.RateLimiter.Reset | src/utils/validation.ts:144-146 | the key is forgotten and nothing else changes |
| Validation.ResetThenAttempt | src/utils/validation.ts:118-146 | after `reset(key)` the next `canAttempt(key)` is let through, with count 1 |
| SqlLike.LikeAnything | backend/src/utils/database.js:183-188 | `%` matches any text |
| SqlLike.LikeLeadingPercent | backend/src/utils/database.js:183-188 | `%` then a pattern matches iff the pattern matches some suffix |
| SqlLike.LikePrefix | backend/src/utils/database.js:183-188 | a wildcard-free pattern then `%` matches iff it is a case-insensitive prefix |
| SqlLike.LikeContains | backend/src/utils/database.js:182-190 | `%q%` with a wildcard-free `q` matches iff the lower-cased `q` occurs in the lower-cased text |
| SqlLike.UnderscoreMatchesAnyText | backend/src/utils/database.js:184 | a search for `_` (the pattern `%_%`) matches every non-empty text |
| Database.OrderedByCreation | backend/src/utils/database.js:192 | a listing in table order is sorted by `created_at`, descending or ascending |
| Database.OrderedUnique | backend/src/utils/database.js:192 | two listings in the same order with the same rows are equal |
| Database.Insert | backend/src/utils/database.js:192 | inserting into a listing adds exactly the row |
| Database.InsertOrdered | backend/src/utils/database.js:192 | inserting a row with a new id into an ordered listing keeps it ordered |
| Database.PlakaStore.constructor | backend/src/utils/database.js:23-32 | the table starts empty and no id has been issued |
| Database.PlakaStore.Select | backend/src/utils/database.js:194-197 | the answer holds exactly the rows that pass every condition with its parameters bound in order, sorted in the requested direction |
| Database.PlakaStore.GetAll | backend/src/utils/database.js:119-126 | every row of the table and nothing else, newest `created_at` first |
| Database.PlakaStore.GetById | backend/src/utils/database.js:129-136 | the row with that id, or no row (not an error) for an absent id |
| Database.PlakaStore.Add | backend/src/utils/database.js:139-150 | the new row has the given fields and both timestamps `now`, under an id never issued before (not even to a deleted row); no other row changes |
| Database.PlakaStore.Update | backend/src/utils/database.js:153-164 | for an absent id reports 0 and changes nothing, whatever the values (SQLite checks NOT NULL only on rows it writes); for an existing row fails, changing nothing, iff title, description or image URL is missing, and otherwise overwrites exactly the five fields (keeping id, `created_at` and `updated_at`) and reports 1 |
| Database.PlakaStore.Delete | backend/src/utils/database.js:167-174 | removes only that row and reports 1, or reports 0 with the table unchanged |
| Database.PlakaStore.Search | backend/src/utils/database.js:177-199 | a row is returned iff it is in the table and passes the query filter (title, description or plate number) and the location filter; a falsy filter is not applied; ascending iff `sortBy` is `oldest` |
| Database.SearchConditions | backend/src/utils/database.js:179-190 | the conditions and parameters built step by step bind one parameter per placeholder and keep a row iff both filters keep it |
| Database.SatisfiesBoth | backend/src/utils/database.js:182-190 | with both filters, a row passes iff it matches the query in one of three columns and its location matches |
| Database.SatisfiesText | backend/src/utils/database.js:182-185 | with the query alone, a row passes iff it matches in title, description or plate number |
| Database.SatisfiesLocation | backend/src/utils/database.js:187-190 | with the location alone, a row passes iff its location is present and matches |
| Database.UnfilteredSearchIsGetAll | backend/src/utils/database.js:177-199 | with both filters falsy and newest-first order, the search returns the same list as `getAllPlakalar` |
| Database.QueryKeepsLiteral | backend/src/utils/database.js:182-185 | a wildcard-free query keeps a row iff it occurs, ignoring ASCII case, in the title, the description or a present plate number |
| Database.LocationKeepsLiteral | backend/src/utils/database.js:187-190 | a wildcard-free location keeps a row iff the row has a location in which it occurs, ignoring ASCII case |
| Routes.StripTrailingSlashes | backend/src/routes/plakalar.js:38 | the result is a prefix that does not end in `/`, and only slashes were dropped |
| Routes.LastSegment | backend/src/routes/plakalar.js:38 | the result is the longest slash-free suffix |
| Routes.LastDot | backend/src/routes/plakalar.js:38 | the position of the last `.`, or none when there is no dot |
| Routes.ExtName | backend/src/routes/plakalar.js:25-38 | `path.extname`: empty or a dot followed by neither dots nor slashes |
| Routes.LastSegmentWhole | backend/src/routes/plakalar.js:38 | a name without slashes is its own last segment |
| Routes.LastDotAt | backend/src/routes/plakalar.js:38 | a dot followed by no other dot is the last dot |
| Routes.ExtNameOfBase | backend/src/routes/plakalar.js:25-38 | for a base name: empty without a dot, for a leading dot only, or for `..`; otherwise from the last dot on |
| Routes.ExtNameOfFileName | backend/src/routes/plakalar.js:25-38 | `stem.ext` has the extension `.ext` |
| Routes.ExtNameAtLastDot | backend/src/routes/plakalar.js:25-38 | a base name's extension starts at its last dot when that dot is not the first character |
| Routes.ExtNameOfDotFile | backend/src/routes/plakalar.js:25-38 | a name such as `.png` has no extension |
| Routes.FormTypesPassFilter | backend/src/routes/plakalar.js:37-39 | every MIME type the report form accepts passes the MIME half of the upload filter |
| Routes.ImageUrl | backend/src/routes/plakalar.js:130 | the image URL is `/uploads/` followed by the file name |
| Routes.DigitRun | backend/src/routes/plakalar.js:26 | the longest run of digits at the start |
| Routes.DigitRunOf | backend/src/routes/plakalar.js:26 | digits followed by a non-digit form that run |
| Routes.ParseStampOf | backend/src/routes/plakalar.js:26-27 | `<digits>-<digits><ext>` reads back as its two numbers and the extension |
| Routes.SplitAtDash | backend/src/routes/plakalar.js:26 | `a-t` splits at the dash into `a` and `t` |
| Routes.ParseUploadNameOf | backend/src/routes/plakalar.js:27 | `plaka-<digits>-<digits><ext>` reads back as its two numbers and the extension |
| Routes.UploadNameRoundTrip | backend/src/routes/plakalar.js:25-28 | the stored name reads back as the timestamp, the random suffix and the original name's extension |
| Routes.UploadNameInjective | backend/src/routes/plakalar.js:25-28 | two uploads get the same name only with the same timestamp, random suffix and extension |
| Routes.UploadNamePrefix | backend/src/routes/plakalar.js:27 | every stored name starts with `plaka-` |
| Routes.UploadUrlPrefix | backend/src/routes/plakalar.js:27-130 | every image URL starts with `/uploads/plaka-` |
| Routes.Receiving | backend/src/routes/plakalar.js:31-47 | a file is refused iff its lower-cased extension or its MIME type names no image type, or it exceeds 5 MiB; a stored file's URL starts with `/uploads/plaka-` |
| Routes.SortParam | backend/src/routes/plakalar.js:52 | `sortBy` defaults to `newest` |
| Routes.ConsistentUpload | backend/src/routes/plakalar.js:17-29 | writing a file breaks no row |
| Routes.ConsistentAdd | backend/src/routes/plakalar.js:130-133 | a new row for a newly stored file keeps every image on disk and unshared |
| Routes.ConsistentEdit | backend/src/routes/plakalar.js:170-184 | editing a row that keeps its image keeps the invariant |
| Routes.ConsistentReplace | backend/src/routes/plakalar.js:173-184 | moving a row to a new file and removing its old one keeps the invariant |
| Routes.ConsistentRemove | backend/src/routes/plakalar.js:220-226 | removing a row and its file keeps the invariant |
| Routes.PlakaRouter.constructor | backend/src/routes/plakalar.js:14 | the router serves the given table and files |
| Routes.PlakaRouter.Receive | backend/src/routes/plakalar.js:17-47 | the upload is judged as `Receiving` says, and a stored file is added to the disk |
| Routes.PlakaRouter.Unlink | backend/src/routes/plakalar.js:177-180 | the file is gone afterwards, whether or not it was there |
| Routes.PlakaRouter.Prepare | backend/src/routes/plakalar.js:154-168 | receives the upload, then finds the row named by the id unless the upload was refused |
| Routes.PlakaRouter.SearchRoute | backend/src/routes/plakalar.js:50-69 | 200 with exactly the rows the search keeps, in its order, and `count` equal to the number of rows |
| Routes.PlakaRouter.ListRoute | backend/src/routes/plakalar.js:72-87 | 200 with every row, newest first, and `count` equal to the number of rows |
| Routes.PlakaRouter.GetRoute | backend/src/routes/plakalar.js:90-113 | 200 with the row, or 404 when there is none |
| Routes.PlakaRouter.PostRoute | backend/src/routes/plakalar.js:116-151 | a refused file gives 500; a falsy title or description or no file gives 400 and inserts nothing; otherwise 201 with the new row, stored with `location \|\| null` and `plateNumber \|\| null`, under a fresh id |
| Routes.PlakaRouter.PutRoute | backend/src/routes/plakalar.js:154-202 | 404 for an unknown id; without a new file the image URL is kept; with one the old file is unlinked before the update, so a missing title or description gives 500 after the old image is gone; fields are not merged |
| Routes.PlakaRouter.PutSafely | backend/src/routes/plakalar.js:154-202 | as `PUT /:id`, but the old file is removed only once the update succeeded, so every handler outcome keeps the images of all rows on disk |
| Routes.PlakaRouter.DeleteRoute | backend/src/routes/plakalar.js:205-240 | 404 with nothing removed for an unknown id; otherwise the image file and then the row are removed |
| Routes.PutAfterFailedUpdate | backend/src/routes/plakalar.js:170-184 | posting a row and then updating it with a new photo but no title answers 500 and leaves the row pointing at a file no longer on disk |
| Routes.PutSafelyAfterFailedUpdate | backend/src/routes/plakalar.js:170-184 | the same requests with the corrected handler answer 500 and the row's image is still on disk |
| FoundPlatesPage.CreatedAt | src/pages/BulunanPlakalarPage.tsx:66-72 | the posts created at one tick form a subsequence |
| FoundPlatesPage.Place | src/pages/BulunanPlakalarPage.tsx:66-72 | placing a post in a list adds exactly that post |
| FoundPlatesPage.PlaceSorted | src/pages/BulunanPlakalarPage.tsx:66-72 | placing a post in a sorted list keeps it sorted |
| FoundPlatesPage.SortedCons | src/pages/BulunanPlakalarPage.tsx:66-72 | a post that may come before every post of a sorted list may head it |
| FoundPlatesPage.PlaceKeepsTies | src/pages/BulunanPlakalarPage.tsx:66-72 | placing a post keeps the order of posts with equal timestamps, and puts it first among them |
| FoundPlatesPage.SortPosts | src/pages/BulunanPlakalarPage.tsx:66-72 | the sorted list is a permutation of the input |
| FoundPlatesPage.SortPostsSorted | src/pages/BulunanPlakalarPage.tsx:66-72 | the sorted list is newest first for `newest` and oldest first otherwise |
| FoundPlatesPage.SortPostsStable | src/pages/BulunanPlakalarPage.tsx:66-72 | the sort is stable: posts with equal timestamps keep their order |
| FoundPlatesPage.SortPostsSortedInput | src/pages/BulunanPlakalarPage.tsx:66-72 | sorting an already sorted list changes nothing |
| FoundPlatesPage.Keep | src/pages/BulunanPlakalarPage.tsx:94-105 | `filter` never lengthens the list |
| FoundPlatesPage.KeepMembers | src/pages/BulunanPlakalarPage.tsx:94-105 | `filter` keeps a post iff it was in the list and passes the test |
| FoundPlatesPage.FallbackMembers | src/pages/BulunanPlakalarPage.tsx:90-116 | the fallback shows a post iff it is one of the page's posts and passes each filter that is set (query in title, description or non-empty plate number; location present and containing the filter, ignoring case), sorted by `sortBy` |
| FoundPlatesPage.FoundPlates.constructor | src/pages/BulunanPlakalarPage.tsx:13-19 | no posts, nothing on show, empty filters and newest first |
| FoundPlatesPage.FoundPlates.FilterPosts | src/pages/BulunanPlakalarPage.tsx:61-118 | the posts on show become what `Shown` gives for the filters and the search outcome; the page's posts and filters are untouched |
| FoundPlatesPage.FoundPlates.HandleFilterChange | src/pages/BulunanPlakalarPage.tsx:120-122 | only the named filter changes |
| FoundPlatesPage.FoundPlates.ClearFilters | src/pages/BulunanPlakalarPage.tsx:124-130 | the filters become empty query, empty location, newest first |
| FoundPlatesPage.UnfilteredShowsAll | src/pages/BulunanPlakalarPage.tsx:63-75 | without text filters every post is shown, sorted, whatever the server would answer |
| FoundPlatesPage.ClearedShowsNewestFirst | src/pages/BulunanPlakalarPage.tsx:124-130 | after clearing, all posts are shown newest first |
| SearchAgreement.QueryAgrees | src/pages/BulunanPlakalarPage.tsx:92-99 | for an ASCII, wildcard-free query and an ASCII post, the fallback's query test and the server's agree on every post |
| SearchAgreement.LocationAgrees | src/pages/BulunanPlakalarPage.tsx:101-106 | for an ASCII, wildcard-free location and an ASCII post, the fallback's location test and the server's agree on every post |
| SearchAgreement.FallbackAgreesWithSearch | src/pages/BulunanPlakalarPage.tsx:78-116 | for ASCII, wildcard-free filters and an ASCII post, the fallback keeps the post iff it is one of the page's posts and the server's search would keep it |
| SearchAgreement.OrderedIsSorted | backend/src/utils/database.js:192 | the server's order is the page's order in the same direction |
| SearchAgreement.FallbackShowsSearchAnswer | src/pages/BulunanPlakalarPage.tsx:84-116 | when the page holds the whole table, all its text and the filters are ASCII and the filters are wildcard-free, the fallback shows the same posts as the server's answer, both sorted the same way |
| ReportPage.CreateData | src/pages/PlakaBildirPage.tsx:132-138 | the image is passed on; the location and the plate number are sent iff they are not empty |
| ReportPage.WhiteLocationNotSent | src/pages/PlakaBildirPage.tsx:96-136 | an all-white-space location passes and is not sent |
| ReportPage.SentLengths | src/pages/PlakaBildirPage.tsx:72-134 | a title and a description that pass are sent with lengths from 5 to 100 and from 10 to 1000 |
| ReportPage.PlateShape | src/utils/validation.ts:16 | a matching plate starts and ends with a digit and holds only digits, capitals and white space |
| ReportPage.ValidPlateSentUpper | src/pages/PlakaBildirPage.tsx:89-137 | a valid plate number (without U+00A0) is sent upper-cased and otherwise unchanged |
| ReportPage.PaddedPlateRejected | src/pages/PlakaBildirPage.tsx:89-93 | a plate number with white space at either end is rejected, because the check runs on the untrimmed text |
| ReportPage.ErrorsFields | src/pages/PlakaBildirPage.tsx:68-105 | each field has an error exactly when its check failed, with that check's message; the map is empty iff every check passed |
| ReportPage.LocationVerdict | src/pages/PlakaBildirPage.tsx:96-101 | checking the location only when it is not blank gives the same verdict as `validateLocation` |
| ReportPage.FormErrorsEmpty | src/pages/PlakaBildirPage.tsx:68-105 | the form passes iff title and description pass, an image is chosen, a non-blank plate number matches as typed, and the location passes |
| ReportPage.PassingFormHasImage | src/pages/PlakaBildirPage.tsx:84-135 | a passing form has an image |
| ReportPage.BlankFormErrors | src/pages/PlakaBildirPage.tsx:68-105 | the empty form has exactly a title, a description and an image error |
| ReportPage.Cleared | src/pages/PlakaBildirPage.tsx:36-42 | the field's error is dropped and every other error is kept |
| ReportPage.Note | src/pages/PlakaBildirPage.tsx:72-81 | a failed check records its message under the field; a passed one changes nothing |
| ReportPage.NotePlateNumber | src/pages/PlakaBildirPage.tsx:89-93 | a non-blank plate number that does not match records the plate error |
| ReportPage.NoteLocation | src/pages/PlakaBildirPage.tsx:96-101 | a non-blank location that fails records its message |
| ReportPage.CollectErrors | src/pages/PlakaBildirPage.tsx:68-102 | the map filled field by field is the form's error map |
| ReportPage.FailureMessage | src/pages/PlakaBildirPage.tsx:158 | the thrown message when there is one, a generic message otherwise; never empty |
| ReportPage.Outcome | src/pages/PlakaBildirPage.tsx:120-163 | a form with errors is rejected; a passing form is created iff the request does not fail |
| ReportPage.Dispatch | src/pages/PlakaBildirPage.tsx:129-163 | a passing form is sent as title, description and image, plus the location and the plate number when not empty, all sanitised |
| ReportPage.ReportForm.constructor | src/pages/PlakaBildirPage.tsx:21-32 | an empty form, no errors and a limiter of 3 attempts a minute with no key tried |
| ReportPage.ReportForm.HandleInputChange | src/pages/PlakaBildirPage.tsx:34-43 | only the named field changes and only its error is cleared |
| ReportPage.ReportForm.HandleImageChange | src/pages/PlakaBildirPage.tsx:45-66 | no file changes nothing; a refused file reports the reason and changes nothing; an accepted one becomes the image and clears its error |
| ReportPage.ReportForm.ValidateForm | src/pages/PlakaBildirPage.tsx:68-105 | the errors become the form's error map, and the answer is true iff it is empty |
| ReportPage.ReportForm.Proceed | src/pages/PlakaBildirPage.tsx:120-163 | validates, then sends the sanitised form only when it passes |
| ReportPage.ReportForm.HandleSubmit | src/pages/PlakaBildirPage.tsx:107-167 | the limiter is asked first, so a rejected form still uses up an attempt; a throttled submit sends nothing; the limiter is reset only after a successful create |
| Api.ApiBaseUrl | src/services/api.ts:3 | the configured base URL when it is not empty, else `http://localhost:5000/api` |
| Api.Rooted | src/services/api.ts:181 | a path starting with `/` is kept, any other gets one |
| Api.GetImageUrl | src/services/api.ts:169-183 | empty stays empty, absolute URLs are returned as they are, any other path is joined to the base without its first `/api` |
| Api.ReplaceFirstAt | src/services/api.ts:179 | replacing the first occurrence at a known position |
| Api.NoApiWithoutSlash | src/services/api.ts:179 | `/api` starts only where there is a `/` |
| Api.BaseParts | src/services/api.ts:3-179 | how `scheme//host/api` is laid out |
| Api.FirstApiOfBase | src/services/api.ts:179 | for a host not starting with `api`, the first `/api` of `scheme//host/api` is the trailing one |
| Api.FirstApiOfApiHost | src/services/api.ts:179 | for a host starting with `api`, the first `/api` is the one after the scheme's first slash |
| Api.PlainHostImageUrl | src/services/api.ts:169-183 | with such a base, an image path is joined to `scheme//host` |
| Api.ApiHostImageUrl | src/services/api.ts:179-182 | with a host starting with `api`, the joined URL loses a slash of `//` and keeps `/api` |
| Api.ServerOrigin | src/services/api.ts:179 | the server origin is a prefix of the base URL |
| Api.GetImageUrlFixed | src/services/api.ts:169-176 | empty stays empty and absolute URLs are returned as they are |
| Api.FixedImageUrlJoinsOrigin | src/services/api.ts:177-182 | a relative image path is joined to the base without its trailing `/api` |
| Api.FixedImageUrlAgrees | src/services/api.ts:169-183 | the corrected join agrees with `getImageUrl` wherever that one is right, and always gives `scheme//host` plus the path |
| Api.Get | src/services/api.ts:81-91 | the first value under a key is in the list; none means the key is absent |
| Api.GetAppend | src/services/api.ts:81-91 | looking up in a concatenation finds the first list's value first |
| Api.Append | src/services/api.ts:81-91 | appending a pair keeps the earlier pairs and adds the key only if it was absent |
| Api.SearchParams | src/services/api.ts:158-166 | `q`, `location` and `sortBy` are each sent iff truthy, in that order |
| Api.Optional | src/services/api.ts:86-91 | an optional field is sent iff its value is truthy |
| Api.CreateFields | src/services/api.ts:80-91 | title, description and image are always sent; location and `plateNumber` (from `plate_number`) only when truthy |
| Api.AppendOptional | src/services/api.ts:86-91 | appending an optional field sets that key only and leaves every other key as it was |
| Api.UpdateFields | src/services/api.ts:122-129 | every field, the image included, is sent only when truthy |
| Api.Rewrite | src/services/api.ts:57-60 | a message containing `Failed to fetch` becomes the backend-down message; any other is kept |
| Api.FirstTruthy | src/services/api.ts:50 | `a \|\| b \|\| c` on optional strings |
| Api.RequestError | src/services/api.ts:28-62 | no error iff the reply is ok; status 0 gives the backend-down message; otherwise `error`, else `message`, else the fallback, rewritten; a network failure's message is rewritten |
| Api.UpdateError | src/services/api.ts:131-147 | `updatePlaka` throws the reply's `error` or its default, and passes other failures on unchanged |
| Api.ErrorFieldWins | src/services/api.ts:49-51 | a non-empty `error` is the thrown message, whatever `message` says |
| Storage.Read | src/utils/storage.ts:15-29 | the stored list, or `[]` when nothing is stored or it cannot be read |
| Storage.Without | src/utils/storage.ts:34 | filtering never lengthens the list |
| Storage.WithoutMembers | src/utils/storage.ts:34 | a post is kept iff it was there and has another id |
| Storage.WithoutAppend | src/utils/storage.ts:34 | the filter keeps the order: it distributes over concatenation |
| Storage.WithoutAbsent | src/utils/storage.ts:34 | deleting an id that is not present changes nothing |
| Storage.WithoutRemovesAll | src/utils/storage.ts:34 | no post with the id is left |
| Storage.SaveThenDelete | src/utils/storage.ts:5-36 | deleting a just-saved post's id is deleting it from the older list |
| Storage.PostStorage.constructor | src/utils/storage.ts:3 | nothing is stored |
| Storage.PostStorage.GetPosts | src/utils/storage.ts:15-29 | the posts read from the slot, never an error |
| Storage.PostStorage.Save | src/utils/storage.ts:5-13 | the new post is put first and the older ones follow in order; a failed write changes nothing and is not reported |
| Storage.PostStorage.Delete | src/utils/storage.ts:31-39 | every post with the id is removed and the rest keep their order; a failed write changes nothing and is not reported |

## Left out

- I/O and services: SQLite itself and the sqlite3 callbacks; multer's disk writes, where the set of files on disk stands in; `fs.existsSync` and `unlinkSync`; `fetch`; the wire encoding of `FormData` and `URLSearchParams`; `localStorage` and JSON, where a slot that holds a list, is absent, or cannot be parsed stands in; notifications; navigation; `setTimeout`; `FileReader` previews.
- `Date.now()` and `Math.random()` are parameters. `created_at` is an integer tick, not a parsed date string. `Math.round(Math.random() * 1E9)` is any natural number.
- JavaScript's Unicode case mapping is limited to ASCII letters. This matches SQLite's `LIKE` exactly; for non-ASCII text the page's `toLowerCase` and `toUpperCase` do more.
- `escapeHtml` goes through the DOM and is modelled as the WHATWG algorithm. The DOM escapes the same four characters.
- The white-space set of `trim` and of `\s` is ECMAScript's (WhiteSpace plus LineTerminator).
- `backend/src/server.js` is not part of this model. Only its error handler's 500 reply is used: multer's filter and size errors go there. Its `message` field, which depends on `NODE_ENV`, is not modelled.
- `createTables`, the `users` table and the indexes are not modelled. Rows with equal `created_at` are listed in rowid order in the query's direction.
- `loadPosts`, `getPlakalar`, `getPlaka`, `deletePlaka`, `healthCheck` and the detail page only fetch and display, and are not modelled.
- Rendering (JSX, cards, the spinner, the footer, dark mode) is not modelled.
- `ecosystem.config.js` is deployment configuration and is not modelled.
- Response bodies carry the fields the handlers decide. `success` is implied by the status. The `data` of `PUT` and `POST` is the row re-read from the table.
- `FoundPlatesPage.FoundPlates.FilterPosts`: the server's answer arrives asynchronously. It is passed in as the search outcome, and a later filter change racing an earlier answer is not modelled.
- `SearchAgreement.QueryAgrees`, `SearchAgreement.LocationAgrees`, `SearchAgreement.FallbackAgreesWithSearch`, `SearchAgreement.FallbackShowsSearchAnswer`: agreement is promised for ASCII text only. The page's `toLowerCase` folds `Ş` to `ş` and `İ` to `i̇`, which SQLite's `LIKE` does not, so a location filter "şişli" keeps a post in "Şişli" in the fallback but not in the search.
- `Routes.PutAfterFailedUpdate`, `Routes.PutSafelyAfterFailedUpdate`: the two uploads are parameters, with the filter's verdict as a precondition, rather than fixed example files.

## Findings

| source | as written | input that shows it | evidently intended | confidence | as-written member | corrected member |
|---|---|---|---|---|---|---|
| backend/src/routes/plakalar.js:170-184 | with a new file, `PUT /:id` unlinks the old image before `updatePlaka` runs. The update fails on the NOT NULL title or description when either is missing, which answers 500 and leaves the row pointing at the deleted file | an existing row, then `PUT /:id` with a new image and no title | remove the old image only after the update succeeded, so every row's image stays on disk | high (not executed) | Routes.PlakaRouter.PutRoute, Routes.PutAfterFailedUpdate | Routes.PlakaRouter.PutSafely, Routes.PutSafelyAfterFailedUpdate |
| src/services/api.ts:179 | `getImageUrl` removes the FIRST `/api` of the base URL, wherever it is | base `https://api.plaka.com/api` with `/uploads/a.png` gives `https:/.plaka.com/api/uploads/a.png` | drop only the trailing `/api`, giving `https://api.plaka.com/uploads/a.png` | high (not executed) | Api.ApiHostImageUrl | Api.GetImageUrlFixed, Api.FixedImageUrlAgrees |

Other behaviours the model states as written, without calling them bugs:

- A file refused by `fileFilter` or over the size limit answers 500 rather than 400 (see `Routes.PlakaRouter.PostRoute`).
- A file stored before a 400 or 404 reply stays on disk.
- `%` and `_` in a search are not escaped: a search for `_` matches every row (`SqlLike.UnderscoreMatchesAnyText`).
- `updatePlaka` does not refresh `updated_at`.
- A plate number containing U+00A0 passes the check but is sent escaped as `&nbsp;`.
