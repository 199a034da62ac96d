# Multiplayer playlist scores: request logic and the legacy-score switch

This project models two pieces of osu-web in Dafny.

- The multiplayer playlist-score controller (`ScoresController`). It lists a playlist item's
  leaderboard one page at a time. It looks up a single play, or the play behind a user's
  high score. A non-admin must present the version hash of an allow-listed client build
  before a play starts. A play is completed only by its owner.
- `ScoreSearchParams::showLegacyForUser`. This decides whether score listings are limited
  to legacy scores. The model is the function that the data tables of its test pin down.

The database is a value (`Records.Db`). It holds playlist items, plays, high-score rows in
table order, and client builds, each table in its row order. The controller only reads it: starting and
completing a play belong to the room. Collaborators whose code is not part of this model
are parameters of the operations that use them:

- the cursor helper's resolved sort name and its ordering-after-cursor query (`CursorHelper`);
- `md5`, required to return 32 bytes;
- the mods parser and `completePlay`, both able to fail with an `InvariantException`;
- the current time.

Two calls are recorded symbolically rather than modelled. `StartPlay(...)` records that
`startPlay` is reached and with which arguments. `NextAfter(page)` stands for the cursor
the helper computes from the returned page.

Files:

- `Wrappers.dfy`: `Option` and `Result`.
- `Query.dfy`: `where` and `first` over rows.
- `Bytes.dfy`: byte strings, `presence`, `hex2bin` and its inverse `bin2hex`.
- `Records.dfy`: the rows and the relation queries of the controller.
- `ScoresController.dfy`: `index`, `show`, `showUser`, `store`, `update`.
- `ScoreSearchParams.dfy`: the legacy-score decision and its test tables.

Only the length of the version hash decides whether it is digested (`strlen($clientHash) !== 32`).
So 32 bytes that are not hexadecimal text are kept as they are and never admitted
(`ScoresController.LengthDecidesNotContent`). A page with exactly `limit` remaining rows is
full and carries no cursor: `ScoresController.Index` gives a cursor exactly when more than
`limit` rows remain.

## Model

| member | source | states |
|---|---|---|
| `Records.PlaylistItemOf` | app/Http/Controllers/Multiplayer/Rooms/Playlist/ScoresController.php:49 | the item found has the requested room and id; None exactly when no item of the table matches both |
| `Records.HighScoresOf` | app/Http/Controllers/Multiplayer/Rooms/Playlist/ScoresController.php:77 | exactly the high-score rows of the item: every returned row belongs to it and every row of it is returned |
| `Records.HighScoresOfCountsItemRows` | app/Http/Controllers/Multiplayer/Rooms/Playlist/ScoresController.php:77 | each row occurs in the item's rows as often as in the table if it belongs to the item, and not at all otherwise, so `total` is the item's row count |
| `Records.UserHighScore` | app/Http/Controllers/Multiplayer/Rooms/Playlist/ScoresController.php:82 | the row found belongs to the item and the user; None exactly when the user has no row on the item |
| `Records.ScoreOf` | app/Http/Controllers/Multiplayer/Rooms/Playlist/ScoresController.php:149 | the play found is the one the row refers to; None when the row refers to no play or to a missing one |
| `Records.ItemScore` | app/Http/Controllers/Multiplayer/Rooms/Playlist/ScoresController.php:119 | the play found has the item and the id; None exactly when no play matches both |
| `Records.OwnedScore` | app/Http/Controllers/Multiplayer/Rooms/Playlist/ScoresController.php:195-198 | the play found matches item, caller and id at once; None exactly when no play matches all three |
| `Records.RankedBuild` | app/Http/Controllers/Multiplayer/Rooms/Playlist/ScoresController.php:173-176 | the build found has the looked-up hash and allows ranking; None exactly when no build has both, so `firstOrFail` fails |
| `Bytes.Presence` | app/Http/Controllers/Multiplayer/Rooms/Playlist/ScoresController.php:165 | a value is kept exactly when it is present and not blank after trimming; a kept value is non-empty |
| `Bytes.Hex2Bin` | app/Http/Controllers/Multiplayer/Rooms/Playlist/ScoresController.php:174 | decoding succeeds exactly on even-length hexadecimal text, and yields half as many bytes as digits |
| `Bytes.Hex2BinOfBin2Hex` | app/Http/Controllers/Multiplayer/Rooms/Playlist/ScoresController.php:174 | decoding the hexadecimal text of any byte string gives it back |
| `ScoresController.ClampLimit` | app/Http/Controllers/Multiplayer/Rooms/Playlist/ScoresController.php:59 | the limit is always within [1,50]; missing or non-integer gives 50; values in range are kept, lower ones become 1, higher ones 50 |
| `ScoresController.Take` | app/Http/Controllers/Multiplayer/Rooms/Playlist/ScoresController.php:65-66 | the fetch returns the first min(n, available) rows, in order |
| `ScoresController.Index` | app/Http/Controllers/Multiplayer/Rooms/Playlist/ScoresController.php:47-96 | 404 exactly when the item is not in the room; at most limit+1 rows are fetched; the page drops only the extra row; it is an order-preserving prefix of the ordered rows with at most `limit` rows; a cursor exactly when the extra row arrived, that is when rows remain, and it is computed from the trimmed page; `sort` is the helper's resolved name; `total` counts all the item's high scores whatever limit, sort or cursor; `user_score` is None for a guest and otherwise the caller's own row, if any |
| `ScoresController.PageWithinItemRows` | app/Http/Controllers/Multiplayer/Rooms/Playlist/ScoresController.php:61-71 | when the cursor scope only reorders and drops the item's rows, as a scope on `$playlist->highScores()` does, every prefix of its result (so every page `Index` returns) holds only rows of the item, none more often than the table, and never more rows than `total` |
| `ScoresController.Show` | app/Http/Controllers/Multiplayer/Rooms/Playlist/ScoresController.php:115-126 | 404 "Invalid room id", then 404 "Invalid playlist id", then the bare 404 exactly when the item has no such play; success exactly when all three exist, returning that play |
| `ScoresController.ShowUser` | app/Http/Controllers/Multiplayer/Rooms/Playlist/ScoresController.php:145-156 | the same room and item errors; the bare 404 when the user has no high score on the item or it refers to no play; a returned play is referenced by the user's high-score row on the item |
| `ScoresController.NormalizeClientHash` | app/Http/Controllers/Multiplayer/Rooms/Playlist/ScoresController.php:169-171 | the looked-up hash is always 32 bytes; it equals the input exactly when the input has length 32, and is the MD5 digest otherwise |
| `ScoresController.ClientAdmitted` | app/Http/Controllers/Multiplayer/Rooms/Playlist/ScoresController.php:165-176 | a non-admin is admitted only with a present, non-blank hash whose normalized form (kept at length 32, otherwise digested) is even-length hexadecimal text; `Store` starts a play for a non-admin exactly when this holds |
| `ScoresController.Store` | app/Http/Controllers/Multiplayer/Rooms/Playlist/ScoresController.php:158-185 | 404 for a missing room or item; a play starts exactly when the caller is an admin or the normalized hash decodes to a build that allows ranking; 422 "missing client version" exactly for a non-admin with an absent or blank hash; every other rejection is 404 and never reaches `startPlay` |
| `ScoresController.LengthDecidesNotContent` | app/Http/Controllers/Multiplayer/Rooms/Playlist/ScoresController.php:169-176 | a 32-byte value that is not hexadecimal text is kept unchanged and never admitted |
| `ScoresController.OtherLengthsAreDigested` | app/Http/Controllers/Multiplayer/Rooms/Playlist/ScoresController.php:169-176 | a non-blank value of any other length is admitted exactly when its MD5 digest decodes to a ranked build's hash |
| `ScoresController.RankedBuildDigestAdmitted` | app/Http/Controllers/Multiplayer/Rooms/Playlist/ScoresController.php:173-176 | the lower-case hexadecimal text of a ranked build's 16-byte hash is admitted |
| `ScoresController.AdmittedOnlyBySixteenByteBuild` | app/Http/Controllers/Multiplayer/Rooms/Playlist/ScoresController.php:169-176 | conversely, an admitted client always matches a ranked build whose hash has exactly 16 bytes; builds with hashes of other lengths can never be matched |
| `ScoresController.ExtractScoreParams` | app/Http/Controllers/Multiplayer/Rooms/Playlist/ScoresController.php:216-233 | fails exactly when the mods parser fails, with its exception; otherwise request fields pass unchanged, mods default to an empty list before parsing, and `ended_at` is the current time |
| `ScoresController.Update` | app/Http/Controllers/Multiplayer/Rooms/Playlist/ScoresController.php:187-214 | 404 unless the room, the item and a play matching item, caller and id all exist; only that play is completed; an `InvariantException` from extracting the parameters skips `completePlay`; otherwise the outcome is `completePlay`'s; either exception becomes an error popup with its message and status and is not propagated |
| `ScoreSearchParams.PrefersLegacy` | tests/Libraries/Search/ScoreSearchParamsTest.php:43-57 | the user preference is false only for a user whose customization sets `legacy_score_only` to false; guests, users without customization and users with a null setting prefer legacy |
| `ScoreSearchParams.ShowLegacyForUser` | tests/Libraries/Search/ScoreSearchParamsTest.php:19-38 | never false; true exactly when `legacyOnly` is true, or it is null, the request is not an API request and the user prefers legacy; an explicit flag decides alone |
| `ScoreSearchParams.UserWithSetting` | tests/Libraries/Search/ScoreSearchParamsTest.php:45-51 | a null setting leaves the fresh user without customization; any other setting creates a customization carrying it |
| `ScoreSearchParams.UserDataSourceHolds` | tests/Libraries/Search/ScoreSearchParamsTest.php:74-87 | all nine rows of the shared data source hold for a guest and for a fresh user |
| `ScoreSearchParams.UserSettingDataSourceHolds` | tests/Libraries/Search/ScoreSearchParamsTest.php:89-96 | with both flags null, no setting gives true, `false` gives null, `true` gives true |
| `ScoreSearchParams.LegacyOnlyTrueShowsLegacy` | tests/Libraries/Search/ScoreSearchParamsTest.php:83-85 | `legacyOnly = true` gives true for any user and any `isApiRequest` |
| `ScoreSearchParams.LegacyOnlyFalseShowsAll` | tests/Libraries/Search/ScoreSearchParamsTest.php:80-82 | `legacyOnly = false` gives null for any user and any `isApiRequest` |
| `ScoreSearchParams.ApiRequestShowsAll` | tests/Libraries/Search/ScoreSearchParamsTest.php:79 | `legacyOnly` null on an API request gives null for any user |
| `ScoreSearchParams.SettingDecidesOtherwise` | tests/Libraries/Search/ScoreSearchParamsTest.php:77-78 | `legacyOnly` null on a non-API request gives true exactly when the user prefers legacy, and null otherwise |
| `ScoreSearchParams.GuestMatchesFreshUser` | tests/Libraries/Search/ScoreSearchParamsTest.php:19-38 | a guest and a user without customization get the same answer for every pair of flags |

## Left out

- Middleware and authentication (`__construct`, `auth()`): the `auth` middleware guards every action, so a caller is always present. The model passes the caller as a parameter, and for `index` generalises it to an optional user; the guest branch there is not reachable in the program.
- Request parsing (`request()`, `get_int`, `get_bool`, `get_string`): the operations receive values already converted. A missing or unconvertible value is None.
- JSON transformers (`json_item`, `json_collection`, `position`, `scores_around`, preloads): responses carry the rows and plays themselves. In `index`, the page and `user_score` are the high-score rows; resolving each row's `->score` for display is not modelled.
- `DbCursorHelper`: sort-name resolution, cursor decoding and the SQL ordering are the `CursorHelper` parameter. The cursor encoding is the symbolic `NextAfter(page)`. So the model does not show that successive pages cover every row exactly once. `PageWithinItemRows` assumes only that the helper's query reorders and drops rows and never adds one (`OrdersAndFilters`), as any scope on the relation does; `Index` itself accepts any helper.
- `Mod::parseInputArray`, `Room::startPlay` and `Room::completePlay` are not part of this model. Their code is not available. The parser and `completePlay` are parameters; reaching `startPlay` is the result `StartPlay`.
- `md5` is a parameter that is required to return 32 bytes. Its actual digest is not modelled.
- `ScoresController.Store`: when `hex2bin` gets odd-length or non-hexadecimal input, PHP raises a warning, which the framework turns into an exception. The request then ends in a server error before the build query runs. The model collapses this path into the build lookup's 404.
- `accuracy` in `extractScoreParams`: floating-point parsing is not modelled. `Carbon::now()` is the parameter `now`.
- The 404 from `firstOrFail`/`findOrFail` and the one from a bare `abort(404)` are both `HttpError(404, "")`. Their exception classes differ, but both render as 404.
- Concurrency, the high-score aggregator and rank computation are not in the controller's code.
- The implementation of `ScoreSearchParams::showLegacyForUser` is not part of this model. The function is the one determined by the test's data tables, in which a null `isApiRequest` behaves as `false`. The tables pin down guests and fresh users for every flag pair, and the user setting only with both flags null. Elsewhere, the model lets an explicit `legacyOnly` decide. Without one, it consults the setting on every non-API request.
- `showLegacyForGuestDataSource` is not modelled: no test uses it, and its rows are the same as those of the shared data source.
