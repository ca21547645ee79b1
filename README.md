# jvSite in Dafny

A model of the logic of jvSite, a small music site. The site lists the audio
files of its media folder as songs, plays them one at a time, and lets
visitors rate them with a like or dislike button and leave comments with an
optional uploaded picture.

The model covers six pieces:

- **The song catalogue** (`Songs`, api/songs.js). The audio files of a listing
  are sorted newest first by a stable in-place sort on an array. Each one
  becomes a song whose id, title and cover come from the override table or
  are derived from its name. `normalizeName` finds covers by name.
- **The ratings endpoint** (`Ratings`, api/ratings.js). It validates the song
  id and clamps the deltas. It decides between GET, POST, 405 and a thrown
  error. The counter store is a class whose one `increment_rating` step
  applies both deltas to a record.
- **The comments endpoint** (`Comments`, api/comments.js). It validates,
  clamps author and text, and decides what to list and what to insert.
- **The upload endpoint** (`Upload`, api/upload.js). It runs the validation
  chain: method, fields, the data-URL pattern, the MIME allowlist and the
  size limit. It also builds the extension, the storage path and the public
  address.
- **The shared helpers** (`Utils`, api/_lib/utils.js): `validateSongId`,
  `getSongId`, `clampText`, `clampDelta` and `parseJsonBody`.
- **The browser script** (assets/app.js):
  - `Display` holds `safeInt` and `formatTime`. `formatTime` is proved against
    a reader of the clocks it writes.
  - `Voting` holds the vote kept in local storage (`VoteStore`) and the
    rating buttons' click handler (`RatingWidget`).
  - `Playback` holds the single `currentAudio` (`Player`) and the seek bar
    with its `isSeeking` flag (`SeekBar`).

Three modules support the rest:

- `Strings` covers the JavaScript string built-ins the code calls: `trim`,
  `\s`, `toLowerCase`, `indexOf`, `replace`, case-insensitive search and
  `String(n)`.
- `Js` covers JavaScript values, truthiness, `String(v)` and `Number(v)`.
- `Http` covers requests, responses and thrown errors.

Each endpoint is an `IntentOf` function (what the handler reads from the
request) followed by `Decide` (the response). `Decide` is given, as an input,
the reply of the one store call that `CallFor` names. The clock, randomness,
configuration, base64 decoding, `fs.readdir` and `fs.stat` are also inputs.

Where the design description and the code differ, the model follows the code:

- The stored vote values are `'like'` and `'dislike'`, not `liked` and
  `disliked`.
- The POST bodies carry `song_id`.
- A POST whose deltas are both 0 answers `{ok: true, likes: null, dislikes: null}`
  without reading the store.
- No floor clamp of the counters appears in the code.

## Model

| member | source | states |
|---|---|---|
| Strings.Trim | api/_lib/utils.js:26 | `trim()` leaves no white space at either end, returns a piece of the input, leaves trimmed text alone, and empties all-space text |
| Strings.TrimBounds | api/_lib/utils.js:49 | the trimmed text is the slice `s[k..k+n]` with only white space before and after it |
| Strings.IndexOf | api/upload.js:48 | `indexOf` with a string pattern: the first position where the pattern occurs, or no occurrence at all |
| Strings.ReplaceFirst | api/upload.js:48 | `replace` with a string pattern rewrites only the first occurrence and leaves text without one unchanged |
| Strings.IndexOfIgnoringCase | api/songs.js:131 | `/pat/i` finds the first position where the pattern matches with ASCII letters folded |
| Strings.CollapseRuns | api/songs.js:78 | `replace(/[class]+/g, ' ')` leaves only characters outside the class and single spaces, never two spaces in a row, and starts with a space exactly when the input started in the class |
| Strings.AlnumOnly | api/songs.js:138 | `replace(/[^a-z0-9]/g, '')` keeps only `[a-z0-9]` |
| Strings.ToLower | api/songs.js:77 | `toLowerCase()` leaves no ASCII capital, never shortens the text, and leaves text with no character that has a lower-case form here unchanged |
| Js.StringOrEmpty | api/_lib/utils.js:26 | `String(v \|\| '')` is empty for every falsy value and is the string itself for a string |
| Js.StringToNumberOfIntToString | api/_lib/utils.js:58 | `Number` reads the decimal text of an integer back as that integer |
| Js.StringToNumber | api/_lib/utils.js:58 | `Number` of a string that is empty or all white space is 0, and a value that is not an integer carries a non-empty literal |
| Js.ToNumber | api/_lib/utils.js:58 | `Number` of a falsy value is NaN or 0, blank text is 0, and a non-integer read from text carries a non-empty literal |
| Js.StringToNumberOfPointZero | api/_lib/utils.js:58 | the decimal text of an integer followed by `.0` reads as that integer |
| Js.StringToNumberOfExponent | api/_lib/utils.js:58 | `<whole>.<fraction>e<E>` reads as the number whose digits are `whole` then `fraction`, times 10 to the power `E` minus the length of `fraction` |
| Js.StringToNumberOfFractionExponent | api/_lib/utils.js:58 | `.<fraction>e<E>`, with no digit before the point, reads as the fraction's digits times 10 to the power `E` minus their count |
| Js.StringToNumberOfWholeExponent | api/_lib/utils.js:58 | `<digits>e<E>` reads as the digits' value times 10 to the power `E` |
| Js.StringToNumberOfUnsigned | api/_lib/utils.js:58 | an unsigned decimal literal that needs no trimming and is no radix literal reads as its scaled value |
| Js.StringToNumberOfRadix | api/_lib/utils.js:58 | `0x`, `0o` or `0b` (either case) followed by digits of base 16, 8 or 2 reads as their value in that base |
| Http.FailureStatus | api/ratings.js:87 | a thrown error answers with its non-zero integer `statusCode`, otherwise 500 |
| Http.FailureMessage | api/ratings.js:88 | a thrown error answers with its non-empty message, otherwise `Server error` |
| Http.ReadOfNull | api/ratings.js:49 | reading a property of `null` throws an error with no `statusCode` and a non-empty message |
| Http.FirstRow | api/ratings.js:43 | the first row exists exactly when the reply is a non-empty array, and it is that array's first element |
| Utils.ParseJsonBody | api/_lib/utils.js:10-18 | an absent or empty body is `{}`, an object body is returned unchanged, text that is not JSON or parses to a non-object is `{}`, text that parses to an object is that object, and the result is `null` exactly for non-empty text that parses to `null` |
| Utils.BodyFailure | api/ratings.js:48-49 | a POST whose body is `null` throws when it reads `song_id`, answered with 500 and the error's message; nothing else throws here |
| Utils.ValidateSongId | api/_lib/utils.js:25-31 | an accepted id is the trimmed text of the input and is well-formed (non-empty, at most 64 characters, all in `[A-Za-z0-9_-]`); the input is rejected exactly when its trimmed text is not well-formed |
| Utils.ValidateWellFormedSongId | api/_lib/utils.js:25-31 | every well-formed id, given as text, is accepted as itself |
| Utils.ValidateSongIdIdempotent | api/_lib/utils.js:25-31 | validating an accepted id again gives the same id |
| Utils.GetSongId | api/_lib/utils.js:38-40 | `getSongId(req)` is `validateSongId` of the query's `song_id` |
| Utils.ClampText | api/_lib/utils.js:48-50 | the result is a prefix of the trimmed text, of length `min(length, maxLength)` |
| Utils.ClampTextNotIdempotent | api/_lib/utils.js:48-50 | clamping is not idempotent: when the cut falls just after white space, a second clamp changes the text |
| Utils.ClampChangesSpaceEnded | api/_lib/utils.js:48-50 | text that fits the limit but ends with white space is changed by clamping |
| Utils.ClampDelta | api/_lib/utils.js:57-62 | the result is -1, 0 or 1; it is 1 exactly when `Number(delta)` is 1, and -1 exactly when it is -1 (NaN and everything else give 0) |
| Utils.ClampDeltaFixesUnits | api/_lib/utils.js:57-62 | clamping is the identity on -1, 0 and 1 |
| Utils.ClampDeltaOfPointZero | api/_lib/utils.js:57-62 | the text of an integer followed by `.0` clamps as that integer does, so `"1.0"` gives 1 and `"-1.0"` gives -1 |
| Utils.ClampDeltaOfNumericText | api/_lib/utils.js:57-62 | `"1.0"`, `"1e0"`, `".1e1"`, `"10e-1"` and `"0x1"` all clamp to 1 |
| Ratings.IntentOf | api/ratings.js:34-55 | the handler reads the method, and clamped deltas that lie in [-1, 1] |
| Ratings.CallFor | api/ratings.js:34-72 | no store call is made for another method or an invalid id; GET makes one select; POST makes one `increment_rating` carrying the clamped deltas, unless both are 0 |
| Ratings.Decide | api/ratings.js:32-89 | 405 with `Allow: GET, POST` for any other method; 400 for an invalid id, with no store call; 200 with null counts for two zero deltas; GET gives 200 with the first row's counts, null or missing read as 0; POST gives 500 on an empty result and 200 with the new counts otherwise; a thrown error keeps its status; every response sets no-store |
| Ratings.Handle | api/ratings.js:32-89 | every response sets no-store; another method gets 405; a GET with an invalid query id gets 400 `Missing or invalid song_id`; a POST whose body is `null` gets 500 with the TypeError's message |
| Ratings.NoCallIgnoresReply | api/ratings.js:50-58 | a request that makes no store call gets the same answer whatever the store would have said |
| Ratings.Incremented | api/ratings.js:60-72 | `increment_rating` applies both deltas to the song's record in one step, creates the record from (0, 0), and changes no other record |
| Ratings.IncrementsCompose | api/ratings.js:60-62 | two increments in a row equal one increment by their sums: no update is lost |
| Ratings.RatingStore.Select | api/ratings.js:38-41 | the select returns the song's record when there is one, and no row otherwise |
| Ratings.RatingStore.Increment | api/ratings.js:62-72 | the table becomes `Incremented` of the old table, and the reply is the new record |
| Ratings.RatingStore.ServeIntent | api/ratings.js:32-89 | the handler makes at most the one call `CallFor` names; the response is `Decide` of that call's reply, and the table changes only by a successful increment |
| Ratings.RatingStore.Serve | api/ratings.js:32-89 | serving a request is `Handle` against this store, with the same effect on the table |
| Ratings.TwoLikesCountTwice | api/ratings.js:54-72 | two likes of one song, served one after the other, raise its likes by exactly two and leave its dislikes alone |
| Ratings.FreshSongReadsZero | api/ratings.js:38-44 | a song nobody has voted on reads as 0 likes and 0 dislikes |
| Comments.IntentOf | api/comments.js:31-51 | the handler reads the method, an author of at most 30 characters and a text of at most 500 |
| Comments.IntentFrom | api/comments.js:45-51 | the author is clamped to 30 characters and the text to 500; the song id comes from the query on GET and from the body otherwise |
| Comments.ImageUrlIgnored | api/comments.js:44-59 | an `image_url` field in the body changes nothing the handler reads |
| Comments.CallFor | api/comments.js:31-60 | GET selects author, body and created_at of the song's newest 100 comments; POST inserts one record of exactly song id, author and text, and only when both are non-empty; no call is made for another method or an invalid id |
| Comments.InsertedRecordIsValid | api/comments.js:45-59 | every inserted record has a well-formed song id, an author of 1 to 30 characters and a text of 1 to 500 |
| Comments.ListedRows | api/comments.js:40 | the listing is the reply when that is an array, and empty otherwise |
| Comments.Decide | api/comments.js:29-71 | 405 with `Allow: GET, POST` for any other method; 400 for an invalid id or an empty author or text; 200 with the listed rows on GET and with the first inserted row on POST; a thrown error keeps its status and message; without a thrown error, 400 is given exactly when no store call is made for GET or POST |
| Comments.Handle | api/comments.js:29-71 | no response sets no-store; another method gets 405; a GET with an invalid query id gets 400 `Missing or invalid song_id`; a POST whose body is `null` gets 500 with the TypeError's message |
| Upload.ParseDataUrl | api/upload.js:32-36 | a match is a non-empty MIME type without `;` and a non-empty single-line payload, and it rebuilds the input exactly |
| Upload.ParseDataUrlText | api/upload.js:32-36 | every text the pattern can match is read back into the type and payload it was built from |
| Upload.Extension | api/upload.js:48 | there is an extension exactly when the type contains `/` |
| Upload.ExtensionOfImage | api/upload.js:48 | the extension of `image/<sub>` is `sub` with its first `jpeg` written `jpg` |
| Upload.ImageSubtypeExtension | api/upload.js:48 | jpeg, png, gif and webp map to jpg, png, gif and webp, and `MimeFor` maps each back |
| Upload.AllowedExtensions | api/upload.js:6 | each allowed MIME type has one of the four extensions, which maps back to the type |
| Upload.MimeFor | api/upload.js:48 | the type named by an extension is an `image/` type, and the four extensions name allowed types |
| Upload.StoragePath | api/upload.js:49-50 | the path lies under `comment-uploads/` and ends with `.` and the extension |
| Upload.StorageBase | api/upload.js:54 | an address without `/rest/v1` is kept, and one with it loses exactly those eight characters |
| Upload.StorageBaseOfRestUrl | api/upload.js:54 | the base of `<origin>/rest/v1` is the origin, when the origin does not itself contain `/rest/v1` |
| Upload.UploadUrl | api/upload.js:55 | the upload address starts with the base, ends with the storage path, and has the bucket's route of fixed length between them |
| Upload.PublicUrl | api/upload.js:55-73 | the public address is the upload address with `public/` inserted before the bucket, and it ends with the storage path |
| Upload.UploadBody | api/upload.js:12-17 | an object body is used as it is, and text that parses to a JSON object is that object; an absent body, empty text, text that is not JSON and `null` give `null`, and so does any other parsed value, which has no `dataUrl` and leads to the same 400 |
| Upload.IntentOf | api/upload.js:26-29 | there is a data URL exactly when the body exists and both `dataUrl` and `filename` are truthy |
| Upload.Accepted | api/upload.js:20-45 | an image is accepted exactly when the method is POST, the fields are present, the data URL matches, the type is allowed and the decoded size is at most 5 MB |
| Upload.PutFor | api/upload.js:47-65 | an accepted image with a configuration is uploaded with its own content type and size, to `storage/v1/object/media/comment-uploads/<stamp>.<ext>` under the base without `/rest/v1` |
| Upload.Decide | api/upload.js:19-78 | 405 with `Allow: POST` for any other method; then 400 for missing fields, a bad format, a disallowed type or too many bytes, checked in that order; 400 exactly when a POST is not accepted; 200 exactly when the upload was made and stored, with the public address of the path |
| Upload.Handle | api/upload.js:19-78 | another method gets 405 `Allow: POST`; a POST without a usable body gets 400 `Missing dataUrl or filename`; nothing is stored without a configuration; a refused upload of an accepted image gets 500 `Failed to upload image` |
| Upload.StoredPathIsTyped | api/upload.js:38-50 | a stored image is a JPEG, PNG, GIF or WEBP whose extension names its content type |
| Songs.Select | api/songs.js:89-95 | the filter keeps exactly the names that pass, and no more of them than there are names |
| Songs.IsAudioFile | api/songs.js:89-91 | an audio file name ends with a dot and three characters |
| Songs.IsImageFile | api/songs.js:93-95 | an image file name ends with a dot and three or four characters |
| Songs.ImageSuffixMatch | api/songs.js:93-98 | every image file name ends with one of the suffixes the base-name pattern removes |
| Songs.AudioIsNotImage | api/songs.js:89-95 | no file name passes both the audio and the image filter |
| Songs.StripSuffix | api/songs.js:98 | removing the extension leaves a prefix of the name: the name itself when no listed suffix ends it, and otherwise the name without one listed suffix that ends it |
| Songs.BaseNameOfAudioFile | api/songs.js:115 | the base name of an audio file is its name without the last four characters |
| Songs.NormalizeName | api/songs.js:75-80 | a normalised name holds only `[a-z0-9]` and single spaces, with no space at either end |
| Songs.SongIdIsNormalizedNameWithoutSpaces | api/songs.js:138 | the derived id has exactly the letters and digits of the normalised name, in order |
| Songs.SongId | api/songs.js:138 | the derived id holds only `[a-z0-9]` |
| Songs.SpacedTitle | api/songs.js:130 | the spaced title contains no `_` and no `-`, its only white space is single spaces, and it neither starts nor ends with a space |
| Songs.Title | api/songs.js:130-139 | a song's title is never empty, because the file name stands in for an empty title |
| Songs.UnderscoreCutsChangeNothing | api/songs.js:130-131 | the `_Cover_KLICKAUD` and `_KLICKAUD` removals never find anything: only the plain `KLICKAUD` cut changes a title |
| Songs.FindCover | api/songs.js:134 | `find` returns the first matching image; when it finds none, no image matches |
| Songs.ImageMetaOf | api/songs.js:97-100 | the image keeps its name; its base name is a prefix of that name ending where the extension's dot is; its normalised name holds only `[a-z0-9]` and spaces |
| Songs.CoverFor | api/songs.js:133-135 | a found cover is `media/` followed by the name of one of the listed images |
| Songs.CoverIsFirstMatch | api/songs.js:133-135 | a found cover is `media/` plus the first image, in listing order, whose non-empty normalised name contains or is contained in the audio's |
| Songs.CoverIsDefaultWhenNothingMatches | api/songs.js:133-135 | the placeholder cover is used exactly when no image matches |
| Songs.SongFor | api/songs.js:113-144 | every song has `audioSrc = media/<file>` and `filename = <file>`; an override gives id, title and cover, the cover falling back to the placeholder; otherwise id, title and cover are derived from the base name |
| Songs.SongsOf | api/songs.js:113 | one song per entry, in the entries' order |
| Songs.NewestFirst | api/songs.js:110 | sorting is a permutation of the entries |
| Songs.NewestFirstIsOrdered | api/songs.js:110 | after sorting, no entry comes before a strictly newer one |
| Songs.NewestFirstIsStable | api/songs.js:110 | the sort is stable: entries with the same time keep their listing order |
| Songs.SortNewestFirst | api/songs.js:110 | the in-place sort leaves the array as `NewestFirst` of its old contents |
| Songs.AudioEntries | api/songs.js:102-107 | each audio file is paired with its time, in listing order; the result fails exactly when one `stat` fails |
| Songs.ImagesOf | api/songs.js:93-100 | one image entry per image file |
| Songs.Catalog | api/songs.js:82-151 | an unreadable folder or a failed `stat` gives 500 `Failed to fetch songs`; otherwise 200 with the songs of the sorted entries |
| Songs.CatalogOf | api/songs.js:113-146 | a readable listing answers 200 with one song per audio entry, and the songs' file names are those of the entries, counted with repeats |
| Songs.CatalogCoversAudioFiles | api/songs.js:89-144 | every audio file of the listing becomes a song as many times as it is listed, and every song is one of them |
| Songs.CatalogIsNewestFirst | api/songs.js:109-113 | the catalogue's songs follow the sorted entries, which are ordered newest first, are a permutation of the entries, and are stable |
| Display.SafeInt | assets/app.js:25-28 | a negative count comes from text whose trimmed form starts with `-`, and a non-zero count from text with a digit at its start or right after its sign |
| Display.SafeIntWithoutDigits | assets/app.js:25-28 | text with no digit after its optional sign reads as 0 |
| Display.SafeIntOfIntToString | assets/app.js:25-28 | the decimal text of an integer, alone or followed by a tail that does not start with a digit, reads back as that integer |
| Display.Pad2 | assets/app.js:41-42 | `padStart(2, '0')` of a number below 100 is two digits whose value is the number |
| Display.ClockParts | assets/app.js:37-40 | the minutes and seconds are below 60, and the hours, minutes and seconds make up the position |
| Display.FormatTime | assets/app.js:35-43 | the result is `--:--` exactly for a non-finite or negative position |
| Display.ReadClock | assets/app.js:41-42 | an `H:MM:SS` clock with an hour and an `M:SS` clock without one both read back as their number of seconds |
| Display.FormatTimeRoundTrip | assets/app.js:35-43 | the clock written for any non-negative position is `H:MM:SS` or `M:SS`, with two-digit fields below 60, and it reads back as that position |
| Voting.VoteStorageKey | assets/app.js:50-52 | the key is `jvhub.vote.` followed by the song id |
| Voting.VoteStorageKeyInjective | assets/app.js:50-52 | two songs share a key exactly when they are the same song |
| Voting.ParseVote | assets/app.js:62 | a vote is read exactly from the stored text `like` or `dislike`, and is the vote of that name |
| Voting.StoredVoteAfterWrite | assets/app.js:59-80 | reading a song's vote after writing it gives what was written, including no vote |
| Voting.WriteKeepsOtherEntries | assets/app.js:73-80 | writing a vote leaves every other storage entry as it was |
| Voting.WriteKeepsOtherVotes | assets/app.js:50-80 | writing a song's vote leaves every other song's vote as it was |
| Voting.VoteStore.GetStoredVote | assets/app.js:59-66 | the stored vote, or none when storage throws |
| Voting.VoteStore.SetStoredVote | assets/app.js:73-80 | no vote removes the entry and a vote writes its name; nothing changes when storage throws |
| Voting.PressOutcome | assets/app.js:499-521 | pressing the current vote's button clears the vote, and any other press sets the pressed vote; each delta is the change in this visitor's vote for that counter |
| Voting.PressDeltasAreSmall | assets/app.js:499-521 | both deltas lie in {-1, 0, 1}, and at least one of them is non-zero |
| Voting.PressTwice | assets/app.js:499-521 | two presses of the same button move each counter by the total change of the vote; starting from the other vote, the vote ends cleared, and otherwise it ends as it started |
| Voting.PressTwiceUndoes | assets/app.js:499-521 | from no vote, or from the pressed vote, two presses restore the vote and sum to zero deltas |
| Voting.Optimistic | assets/app.js:524-525 | the optimistic count is the larger of 0 and the shown count moved by the delta |
| Voting.OptimisticReadsBack | assets/app.js:524-525 | the optimistic count is `max(0, safeInt(text) + delta)`, and the page text it writes reads back as that count |
| Voting.Shown | assets/app.js:529-530 | `value ?? text` keeps the text for null and undefined, and shows `String(n)` for a number |
| Voting.ShownCountReadsBack | assets/app.js:529-530 | a count the server sends is shown so that it reads back as that count |
| Voting.RatingWidget.constructor | assets/app.js:470-473 | the card starts with the stored vote, and only that vote's button is active |
| Voting.RatingWidget.Click | assets/app.js:492-525 | the vote and the deltas follow `PressOutcome`; the new vote is stored; exactly the new vote's button is active; each counter shows its optimistic count |
| Voting.RatingWidget.ChangeVote | assets/app.js:494-521 | the vote, the active buttons and the deltas follow `PressOutcome`, and the counters are untouched |
| Voting.RatingWidget.ShowCounts | assets/app.js:524-525 | the counters show the given counts, and the vote and buttons are unchanged |
| Voting.RatingWidget.Settle | assets/app.js:528-530 | each count the server sends replaces the shown one; null keeps it |
| Voting.RatingWidget.Reload | assets/app.js:360-364 | the counters show the server's counts, and a missing count shows as 0 |
| Playback.Player.constructor | assets/app.js:18 | the page starts with no `currentAudio`, and with every card paused and unmarked the invariant holds |
| Playback.Player.Click | assets/app.js:321-343 | another current card is paused and unmarked first, keeping its position and duration; a paused card is rewound when at its end, marked and made current whether or not it plays; a playing card is paused and unmarked, and nothing is current; at most one card is active afterwards |
| Playback.Player.Ended | assets/app.js:345-349 | the card is rewound and unmarked, and `currentAudio` is cleared only when it was this card |
| Playback.AtMostOneActive | assets/app.js:18 | with the invariant, at most one card is playing or marked as playing |
| Playback.Remaining | assets/app.js:256 | the time left is `max(0, dur - cur)` |
| Playback.LabelsReadBack | assets/app.js:253-261 | the position label reads back as the position; with a known duration the other label is `-` followed by a clock of the time left; otherwise it is `--:--` |
| Playback.SeekBar.constructor | assets/app.js:282-284 | the first paint sets the range from the duration, the value from the position, and both labels |
| Playback.SeekBar.SetTimes | assets/app.js:253-261 | both labels are written from the given position and duration, and nothing else changes |
| Playback.SeekBar.SyncDuration | assets/app.js:263-273 | the range follows the duration, and the value changes only when no seek is under way |
| Playback.SeekBar.SyncTime | assets/app.js:275-280 | nothing changes during a seek; otherwise the value and the labels follow the position |
| Playback.SeekBar.BeginSeek | assets/app.js:290-292 | the seek flag is set, and nothing else changes |
| Playback.SeekBar.EndSeek | assets/app.js:293-296 | the flag is cleared, and the value and labels catch up with the position |
| Playback.SeekBar.Input | assets/app.js:302-309 | the bar takes the dragged value within its range, the position jumps to that value at once, seek or no seek, and the labels follow it |

## Left out

- Network and storage plumbing are inputs to the model: the REST calls, `fetch`, `fs.readdir`, `fs.stat` and the storage upload. Their replies appear as `Reply`, `Outcome`, `Listing` and `mtimeOf`.
- api/_lib/supabaseRest.js, supabase-config.js and api/health.js only read and report configuration; their result is the `Config` input of the upload.
- The SQL function behind `increment_rating` is not part of this model. Its atomicity is taken as one step, and the floor clamp at 0 that the design describes is not modelled: the store adds the deltas.
- Js.StringToNumber: decimal literals are read exactly, not rounded to the nearest double. Text that a double rounds to an integer, such as `1.0000000000000001`, reads here as a non-integer; overflow to `Infinity` and underflow to 0 are not modelled; and a value that is not an integer is carried as its trimmed literal rather than as a number.
- Utils.ClampDelta: for the same reason, text that a double rounds to exactly 1 or -1 without being 1 or -1 (`1.0000000000000001`) gives 0 here, where JavaScript gives 1.
- Strings are sequences of characters. JavaScript's UTF-16 code units, and `toLowerCase` beyond the code points that lower-case into ASCII, are not modelled.
- JSON parsing of text bodies and base64 decoding are inputs: `TextBody.parsed` says whether the text is not JSON, `null`, an object or another JSON value, and `decodedLength` gives a payload's byte count. Another JSON value (an array, number, string or boolean) reads as `{}`: the handlers read only `song_id`, `likeDelta`, `dislikeDelta`, `author`, `body`, `dataUrl` and `filename`, which such values do not have.
- The upload's `Date.now()` and `Math.random()` name is the `stamp` input.
- Prototype properties such as `constructor` are not modelled as keys of the `SONG_OVERRIDES` lookup.
- The contents of `DEFAULT_COVER_SVG` are not modelled; it appears as `DefaultCover`.
- Playback positions and durations are whole seconds (`nat`), and a non-finite duration is `None`. The bar's value is the whole second it is dragged to, kept within `[0, max]` as a range input keeps it, so `parseFloat` of it is always finite; the step of 0.01 is not modelled.
- `AudioEntry.mtime` is an `int` standing for the floating-point `stat.mtimeMs`: the comparator `b.mtimeMs - a.mtimeMs` is read as a comparison of integers, and fractions of a millisecond are not modelled.
- `play()` is the boolean `playAllowed`; the promise it returns is not modelled.
- `Display.SafeInt`: the precision loss and `Infinity` that `parseInt` produces for digit strings beyond the range of a double are not modelled.
- Timers and concurrency are not modelled. This covers the 7-second rating poll, `document.hidden`, and the interleaving of in-flight requests. The `applyVote` failure path, which calls `refreshRatings`, is `Reload`.
- Storage that throws is the `available` flag of `VoteStore`: reads give no vote and writes change nothing.
- `fetchJson`, `escapeHtml`, `timeAgo`, the comment form, the card markup, `renderComments`, `init` and the image preview are DOM and rendering code, and are left out.
- `sendResponse` and `getPublicUrl` of api/_lib/utils.js are I/O and environment access, and are left out.
- Voting.PressTwiceUndoes: requires no vote, or a vote for the pressed type. From the other vote, two presses end with no vote, as `Voting.PressTwice` states.
