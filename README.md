# Zecscan explorer core in Dafny

Zecscan is a Zcash block explorer with a privacy dashboard. The core
modelled here covers the logic that decides what the explorer shows:

- **The shielded-transaction scanner** (`scanForShieldedTxs`). It pages
  backwards through the recent transactions, 100 per page and 5 pages per
  round. It keeps the shielded ones, deduplicated by hash.
- **The historical estimator** (`getHistoricalStats`). Per day, it sums
  exact block totals fetched in batches. It then samples 20 blocks,
  checks 10 transactions in each, and extrapolates a shielded share.
- **The privacy score** shared by the home page, the mempool viewer and
  the privacy-stats route.
- **Search routing.**
- **Key, transaction-id and scan-period validators** of the web library
  and of the Rust WebAssembly module, together with that module's hex
  decoding and transaction-header parsing.
- **The `ZcashLightClient` class:** its key lifecycle and its simulated,
  stepped sync.
- **The classification, statistics and pagination rules** of the mempool
  page, the recent-transactions panel, the all-transactions page and the
  shielded-transactions page.

One Dafny module per source file:

| module | file |
|---|---|
| `TxModel`, `Api`, `ShieldedScan`, `HistoricalStats` | `web/src/lib/api.ts` |
| `ZcashUtils` | `web/src/lib/zcash-utils.ts` |
| `ZcashDecrypt` | `web/src/lib/zcash-decrypt.ts` |
| `ZcashWasm` | `web/src/lib/zcash-wasm.ts` |
| `WasmLib` | `wasm/src/lib.rs` |
| `LightClient` | `web/src/lib/zcash-light-client.ts` |
| `ScanRoute` | `web/src/app/api/scan-transactions/route.ts` |
| `PrivacyStatsRoute` | `web/src/app/api/privacy-stats/route.ts` |
| `MempoolPage` | `web/src/app/mempool/page.tsx` |
| `RecentTxs` | `web/src/components/RecentTxs.tsx` |
| `TransactionsPage` | `web/src/app/transactions/page.tsx` |
| `PrivacyTxsPage` | `web/src/app/privacy/transactions/page.tsx` |

`Wrappers` (Option, Result) and `JsString` (`startsWith`, `trim`, the
regular-expression classes, `Math.round` of an exact ratio) are shared
helpers.

Modelling conventions:

- **Remote data.** The remote explorer API is a total function given as a
  parameter. It maps an offset or height to a page, and a failed request
  is the empty page (or `None`) that the source's `catch` returns.
- **Parallel requests.** `Promise.all` rounds are sequential requests,
  consumed in request order, as the source consumes them.
- **Numbers.** Ratios and `Math.round` are exact integer arithmetic.
  Rounding `p / q` is the integer `r` with `2qr <= 2p + q < 2qr + 2q`,
  which is round-half-up, as `Math.round` does for non-negative values.
- **Absent fields.** A JavaScript `x || 0` on a missing count makes it 0.
  The raw shielded input and output lists are kept as their lengths.
- **Rust strings.** A Rust `&str` is its UTF-8 bytes, and slicing it
  panics unless the index is a character boundary. A panic is `None`.
- **Errors.** A thrown error is the `Failure` of a `Result`, or the
  `Thrown` value of the light client.
- **Callbacks.** The light client's `onProgress` callback is a datatype:
  either absent, or a function telling what its `k`-th invocation throws.

Two facts about the code that a reader might not expect:

- **Historical score.** A day's score is `round(ratio * 100)`, where
  `ratio` is the sampled shielded share; it is not
  `round(estimate / total * 100)`. The estimate is itself rounded, so the
  two can differ: `HistoricalStats.ScoreIsNotEstimateOverTotal` gives a
  day where the estimate is 0 but the score is 40.
- **Scanner rounds.** A round that reaches `limit` has already requested
  all of its pages; only the rest of its results are discarded. The model
  requests whole rounds.

## Model

| member | source | states |
|---|---|---|
| TxModel.CountShielded | web/src/lib/api.ts:49-58 | The shielded count is at most the list length; it equals the length exactly when every transaction is shielded and is 0 exactly when none is |
| TxModel.CountIsFilterLength | web/src/app/api/privacy-stats/route.ts:15-20 | The counter the `forEach` loops increment equals the number of shielded transactions in the list |
| Api.PrivacyScore | web/src/lib/api.ts:43-66 | The score lies in 0..100, is 100 for a non-empty all-shielded list and 0 when no transaction is shielded (including the empty list) |
| Api.GetPrivacyScore | web/src/lib/api.ts:46-61 | The counting loop and rounding give exactly the privacy score of the fetched page |
| Api.ShieldedIgnoresTransparent | web/src/lib/api.ts:51-55 | Shielded-ness depends only on the raw shielded lists: changing transparent or approximate counts never changes it |
| Api.PathsDistinct | web/src/lib/api.ts:138-151 | Block, transaction and address paths never coincide |
| Api.RouteCases | web/src/lib/api.ts:134-154 | The trimmed query goes to the block page iff all digits, to the transaction page iff not digits and 64 hex characters, to the address page iff neither and it has an address prefix, to nothing otherwise; every path ends in the query |
| Api.DigitsGoToBlock | web/src/lib/api.ts:135-140 | A digit query (which has no surrounding whitespace) goes to `/block/q` |
| Api.DigitsWinOverHex | web/src/lib/api.ts:138-145 | A 64-digit query is also valid hex, yet goes to the block page |
| Api.SearchIgnoresWhitespace | web/src/lib/api.ts:135 | Searching the trimmed query leads to the same page as the raw query |
| ShieldedScan.FetchRound | web/src/lib/api.ts:287-291 | One round requests the next (at most 5) pages in order, never at an offset of `maxDepth * 100` or more |
| ShieldedScan.ProcessRound | web/src/lib/api.ts:297-315 | The nested loops over a round's pages and their transactions compute the reference absorption, stopping at `limit` |
| ShieldedScan.ScanForShieldedTxs | web/src/lib/api.ts:277-326 | Returns nothing for `limit <= 0`; at most `limit` transactions, all shielded, with distinct hashes; exactly the first `limit` distinct shielded transactions of the pages requested; and the pages requested are the ones the stop rule (limit reached, `maxDepth` reached, or an all-empty round) determines |
| ShieldedScan.ScannedOffset | web/src/lib/api.ts:284-291 | While the loop runs, the offset is the first page not yet requested, a multiple of 100 below `maxDepth * 100` |
| ShieldedScan.NextRound | web/src/lib/api.ts:284-319 | A round that is not all empty keeps the loop invariant: the result is the reference result of the pages requested so far, and the offset advances by 500 |
| ShieldedScan.EmptyRoundStops | web/src/lib/api.ts:317 | An all-empty round ends the scan at a point the stop rule accepts |
| ShieldedScan.ExhaustedStops | web/src/lib/api.ts:284 | Leaving the loop because `limit` or the depth was reached is a stop the rule accepts |
| ShieldedScan.CollectedProperties | web/src/lib/api.ts:297-310 | The reference result has at most `limit` elements, all shielded, distinct by hash, each taken from a requested page, and is empty for `limit <= 0` |
| ShieldedScan.CollectedExact | web/src/lib/api.ts:306-314 | When the requested pages hold at least `limit` distinct shielded transactions, exactly `limit` are returned |
| ShieldedScan.EmptySourceOneRound | web/src/lib/api.ts:317 | Against a source that returns nothing, a positive limit makes the scan request exactly one round and return nothing |
| ShieldedScan.StopsAtUnique | web/src/lib/api.ts:284-319 | The stop rule fixes how many pages are requested |
| ShieldedScan.AbsorbAllIsAbsorbFlatten | web/src/lib/api.ts:297-315 | Processing a round page by page is processing the concatenation of its pages |
| ShieldedScan.AbsorbTake | web/src/lib/api.ts:297-315 | The loop with its early exit at `limit` yields the first `limit` of the unlimited deduplication |
| ShieldedScan.UniqueFromKeeps | web/src/lib/api.ts:306-310 | Deduplication keeps the list all shielded and distinct by hash, and adds only transactions of the page |
| HistoricalStats.DayRange | web/src/lib/api.ts:166-168 | Day `i` covers 1152 heights ending at `best - 1152 * i`, and ends right before day `i - 1` starts, so the days are adjacent and disjoint |
| HistoricalStats.RequestsTile | web/src/lib/api.ts:173-181 | The batches start at the day's first height, each is 1 to 100 heights long and starts where the previous ended, and together they cover the day exactly |
| HistoricalStats.DayRequests | web/src/lib/api.ts:173-181 | A day takes 12 requests: eleven of 100 heights and one of 52 |
| HistoricalStats.RequestsStart | web/src/lib/api.ts:174-176 | Batch `k` starts at `lo + 100k` and asks for `min(100, hi - h + 1)` heights |
| HistoricalStats.FetchDayBlocks | web/src/lib/api.ts:173-181 | The batch loop returns the concatenation of the batches in height order |
| HistoricalStats.SumDay | web/src/lib/api.ts:185-191 | The loop's totals are the day's transaction count and absolute shielded volume |
| HistoricalStats.TotalsAppend | web/src/lib/api.ts:185-191 | The totals of a day are the sums of the totals of its batches |
| HistoricalStats.SampleIndex | web/src/lib/api.ts:196-202 | Every sampled index lies inside the day; with fewer than 20 headers it is 0 |
| HistoricalStats.EvenSample | web/src/lib/api.ts:196-202 | The sample always holds 20 headers |
| HistoricalStats.SampleShape | web/src/lib/api.ts:196-202 | With fewer than 20 headers the sample is the first header 20 times; otherwise the 20 sampled indices strictly increase |
| HistoricalStats.SampleBlocks | web/src/lib/api.ts:196-202 | The sampling loop yields the evenly strided sample |
| HistoricalStats.CheckedShielded | web/src/lib/api.ts:215-233 | The checked shielded count never exceeds the number of ids checked |
| HistoricalStats.Extrapolate | web/src/lib/api.ts:237-239 | Blocks of at most 10 transactions keep their count; a count of at most `min(10, len)` is never scaled above `len`; 0 stays 0 |
| HistoricalStats.BlockEstimate | web/src/lib/api.ts:215-239 | A block's shielded estimate never exceeds its transaction count |
| HistoricalStats.EstimateBlock | web/src/lib/api.ts:215-239 | The per-block loop computes the block estimate |
| HistoricalStats.SampledShieldedBounded | web/src/lib/api.ts:204-241 | The sampled shielded estimate never exceeds the sampled total, so the ratio lies in [0, 1] |
| HistoricalStats.SampleTotals | web/src/lib/api.ts:204-241 | The loop over sampled blocks skips missing details and yields both sample totals, shielded <= total |
| HistoricalStats.EstimatedShielded | web/src/lib/api.ts:244-249 | The estimate is 0 with an empty or all-transparent sample, lies in 0..total when the ratio is at most 1, and equals the total for an all-shielded sample |
| HistoricalStats.DayOf | web/src/lib/api.ts:185-253 | Every day entry has shielded <= total and a score in 0..100 |
| HistoricalStats.ComputeDay | web/src/lib/api.ts:185-255 | The per-day computation yields the day's entry |
| HistoricalStats.NewestFirstStep | web/src/lib/api.ts:160-255 | Each day adds its entry, or nothing when it has no headers (`continue`) |
| HistoricalStats.Reverse | web/src/lib/api.ts:257 | The reversal has the same length with element `k` taken from position `n - 1 - k` |
| HistoricalStats.NewestFirstBounds | web/src/lib/api.ts:160-255 | At most one entry per day, each plausible |
| HistoricalStats.HistoricalBounds | web/src/lib/api.ts:156-262 | No entries without network stats or for `days <= 0`; at most `days` entries, each with shielded <= total and a score in 0..100 |
| HistoricalStats.GetHistoricalStats | web/src/lib/api.ts:156-262 | The day loop computes the oldest-first list of day entries |
| HistoricalStats.ScoreIsNotEstimateOverTotal | web/src/lib/api.ts:244-253 | The score is taken from the sampled ratio, not from estimate / total: a one-transaction day with a 2-in-5 sample estimates 0 yet scores 40 |
| ZcashUtils.ValidateUFVK | web/src/lib/zcash-utils.ts:10-63 | A result has a network exactly when it is valid, an error exactly when invalid, and every error is a non-empty message |
| ZcashUtils.ValidateUFVKCases | web/src/lib/zcash-utils.ts:10-63 | Empty or non-string keys are "required"; after trimming, valid mainnet iff `uview1` and at least 100 characters, valid testnet iff `uviewtest1` and at least 100, too short iff a unified prefix with under 100, the Sapling message iff no unified but a Sapling prefix, the generic message otherwise |
| ZcashUtils.UnifiedPrefixesDisjoint | web/src/lib/zcash-utils.ts:21-49 | No key has both unified prefixes, so the prefix fixes the network |
| ZcashUtils.ValidateIgnoresWhitespace | web/src/lib/zcash-utils.ts:18-19 | Validating a non-blank key and validating its trimmed form give the same answer |
| ZcashUtils.TruncateTxIdShape | web/src/lib/zcash-utils.ts:85-90 | Short ids are returned unchanged; longer ones keep the head, "..." and the tail and are strictly shorter, except that `endChars = 0` appends the whole id |
| ZcashUtils.TruncateNeverLonger | web/src/lib/zcash-utils.ts:85-90 | With `endChars > 0` the result is never longer than the id, and as long only when it is the id |
| ZcashUtils.FirstZero | web/src/lib/zcash-utils.ts:101-102 | The index of the first 0 byte, or the length: no 0 byte before it |
| ZcashUtils.MemoBytes | web/src/lib/zcash-utils.ts:98-106 | The decoded bytes contain no 0 |
| ZcashUtils.DecodeMemo | web/src/lib/zcash-utils.ts:95-114 | The memo holds no control character (U+0000 to U+001F, U+007F to U+009F) and has no surrounding whitespace |
| ZcashUtils.RemoveControlOne | web/src/lib/zcash-utils.ts:109 | A single character is removed exactly when it is a control character |
| ZcashUtils.RemoveControlAppend | web/src/lib/zcash-utils.ts:109 | The removal works piece by piece, so the other characters survive in their order |
| ZcashUtils.RemoveControlKeepsPrintable | web/src/lib/zcash-utils.ts:109 | Text without control characters is left unchanged |
| ZcashUtils.DecodeMemoKeepsText | web/src/lib/zcash-utils.ts:95-114 | A decoded text that is printable and has no surrounding whitespace is returned exactly as decoded |
| ZcashUtils.HexRoundTrip | web/src/lib/zcash-utils.ts:98-102 | Reading a hex encoding back two characters at a time gives the bytes, so the memo bytes are every byte before the first 0 |
| ZcashUtils.HexToBytesAppend | web/src/lib/zcash-utils.ts:98 | Reading two concatenated pair-aligned hex strings reads each in turn |
| ZcashUtils.NonHexPairIsZero | web/src/lib/zcash-utils.ts:98 | A pair with no hex digit is read as the byte 0 |
| ZcashUtils.NonHexPairEndsMemo | web/src/lib/zcash-utils.ts:98-102 | Such a pair ends the memo there |
| ZcashUtils.TrimKeepsPrintable | web/src/lib/zcash-utils.ts:109 | Trimming removes characters only, so it adds no control character |
| ZcashDecrypt.DecryptMemoCases | web/src/lib/zcash-decrypt.ts:36-80 | An invalid key is reported first; any argument of 64 or more characters passes the transaction check; the call succeeds exactly for decryptable pairs, whatever the random pick; `uview1` memos start with "✓ Decrypted: " |
| ZcashDecrypt.SaplingTestnetNeverDecrypts | web/src/lib/zcash-decrypt.ts:13-18 | A long `zviewtestsapling` key passes `validateViewingKey`, yet every decryption with it throws |
| ZcashDecrypt.DecryptInbox | web/src/lib/zcash-decrypt.ts:85-99 | The loop builds the map of the ids tried in order, skipping failures |
| ZcashDecrypt.InboxKeys | web/src/lib/zcash-decrypt.ts:85-99 | An id is a key of the result exactly when it is one of the ids and decrypts, so a failing id does not keep out later ones; each value is a memo `decrypt_memo` can return for it |
| ZcashDecrypt.KeyInfoValidHasPrefix | web/src/lib/zcash-decrypt.ts:117-132 | A key `getKeyInfo` calls valid has a `validateViewingKey` prefix |
| ZcashDecrypt.PrefixDoesNotImplyKeyInfo | web/src/lib/zcash-decrypt.ts:16-17 | The converse fails: a long `uviewX…` key passes `validateViewingKey` but `getKeyInfo` calls it invalid |
| ZcashWasm.WasmLoader.constructor | web/src/lib/zcash-wasm.ts:6-7 | Both module variables start null |
| ZcashWasm.WasmLoader.InitWasm | web/src/lib/zcash-wasm.ts:13-40 | Afterwards the promise exists and the module is still null; the body has run exactly once, and a later call does not run it again |
| ZcashWasm.WasmLoader.DecryptMemo | web/src/lib/zcash-wasm.ts:54-82 | With a null module the result is the not-initialised error record, and nothing is thrown |
| ZcashWasm.WasmLoader.ScanForTransactions | web/src/lib/zcash-wasm.ts:90-106 | With a null module the call always throws the not-initialised error |
| ZcashWasm.InitMany | web/src/lib/zcash-wasm.ts:13-40 | Any number of calls run the body at most once |
| ZcashWasm.GetBlocksToScan | web/src/lib/zcash-wasm.ts:142-164 | Every result is a positive multiple of 48, at most 34560; an unknown period gives 48 |
| ZcashWasm.HeightIgnored | web/src/lib/zcash-wasm.ts:142-164 | The current height is ignored: any two heights give the same number of blocks for every period |
| ZcashWasm.PeriodsOrdered | web/src/lib/zcash-wasm.ts:146-160 | Longer periods scan strictly more blocks |
| WasmLib.SliceTo | wasm/src/lib.rs:96 | Slicing succeeds exactly at a character boundary within the string, giving the prefix |
| WasmLib.DecodePairs | wasm/src/lib.rs:56-59 | Decoding succeeds iff every byte is a hex digit and gives half as many bytes; a failure names the first bad byte and its position |
| WasmLib.HexDecode | wasm/src/lib.rs:56-59 | Decoding succeeds iff the length is even and all are hex digits; odd lengths are refused first |
| WasmLib.HexRoundTrip | wasm/src/lib.rs:56-59 | Decoding an encoding gives the bytes back |
| WasmLib.Version | wasm/src/lib.rs:117-121 | The version is a u32, 0 for fewer than four bytes |
| WasmLib.VersionFiveBytes | wasm/src/lib.rs:117-121 | Read little-endian: version 5 iff the header bytes are 05 00 00 00, version 4 iff 04 00 00 00 |
| WasmLib.LabelsAgree | wasm/src/lib.rs:124-136 | The tag is "NU5" iff the format is the NU5 one, the Sapling format iff version 4, and the size is the byte count |
| WasmLib.OverwinteredHeaderUnrecognised | wasm/src/lib.rs:117-128 | The header 04 00 00 80 reads as 0x80000004, whose low 31 bits are 4, and is labelled legacy |
| WasmLib.ErrorResult | wasm/src/lib.rs:106-113 | An error result has success false, no memo and the message as error |
| WasmLib.DecryptMemoCases | wasm/src/lib.rs:42-104 | Empty input first, then the key prefix, then the hex; it panics exactly when every check passes but the key cannot be cut at byte 20; success reports half the hex length and the key's first 20 bytes |
| WasmLib.ResultShape | wasm/src/lib.rs:42-113 | A result is either an error with no memo or a success with no error |
| WasmLib.ScanForTransactions | wasm/src/lib.rs:177-197 | It panics exactly when the key cannot be cut at byte 15; otherwise it echoes `blocks_to_scan`, reports 0 transactions and the first 15 key bytes |
| LightClient.Target | web/src/lib/zcash-light-client.ts:96 | The target is the end height when it is truthy, else the start height |
| LightClient.Step | web/src/lib/zcash-light-client.ts:157 | The step is one twentieth of the range (rounded down) when the range is 40 or more, and 1 otherwise (including empty and negative ranges) |
| LightClient.ScanReportsShape | web/src/lib/zcash-light-client.ts:157-175 | The loop visits `height`, `height + step`, … : reports exist iff `height <= end`, each lies in `[height, end]` and is syncing, consecutive ones are one step apart, the last is within a step of the end, each percentage in 0..100 |
| LightClient.SyncTraceEnds | web/src/lib/zcash-light-client.ts:94-116 | An uninterrupted sync starts connecting at 0 percent and ends complete at the target with the found count; every report targets the target |
| LightClient.ScanTargets | web/src/lib/zcash-light-client.ts:163-170 | Every scan report targets the end height |
| LightClient.ZcashLightClient.constructor | web/src/lib/zcash-light-client.ts:16-25 | A new client has its config, no key, no progress, no transactions and a zero balance |
| LightClient.ZcashLightClient.ImportUFVK | web/src/lib/zcash-light-client.ts:30-36 | Sets the key and nothing else |
| LightClient.ZcashLightClient.ClearUFVK | web/src/lib/zcash-light-client.ts:48-53 | Clears the key and nothing else |
| LightClient.ZcashLightClient.SimulateSync | web/src/lib/zcash-light-client.ts:136-190 | Without a callback it ends complete; with one it reports a prefix of the start, scan and complete records, stops at the first throw with that record as progress, and goes all the way otherwise |
| LightClient.ZcashLightClient.Sync | web/src/lib/zcash-light-client.ts:84-129 | Without a key it throws and changes nothing; otherwise it reports connecting, then the simulated scan towards the target; a throw inside the scan reports the error record and rethrows; a callback that never throws lets it end complete |
| LightClient.ZcashLightClient.DecryptMemo | web/src/lib/zcash-light-client.ts:195-217 | Throws without a key, throws "WASM module not loaded" without the module, passes on anything the module call or the parsing throws, otherwise returns the memo or throws the module's error (or "Decryption failed") |
| LightClient.CreateLightClient | web/src/lib/zcash-light-client.ts:223-232 | A fresh client with the mainnet server exactly for mainnet and no key |
| LightClient.KeyLifecycle | web/src/lib/zcash-light-client.ts:30-53 | Importing a key and reading it back gives the key; clearing it leaves none |
| ScanRoute.OrDefault | web/src/app/api/scan-transactions/route.ts:33-35 | A height is used when truthy, else the default |
| ScanRoute.PostCases | web/src/app/api/scan-transactions/route.ts:10-105 | A missing key is refused before its format; a key `validateUFVK` rejects is refused with its message; every other request succeeds with the key's network, `totalBlocks = end - start`, no transactions and a zero balance |
| ScanRoute.PeriodAgreesWithBlocksToScan | web/src/app/api/scan-transactions/route.ts:37-55 | For a known period, the current height minus the start is that period's `getBlocksToScan`, whatever start was sent |
| ScanRoute.DefaultRange | web/src/app/api/scan-transactions/route.ts:33-35 | With no period and no heights the range is the last 1152 blocks |
| ScanRoute.UnknownPeriodKeepsStart | web/src/app/api/scan-transactions/route.ts:37-55 | An unknown or empty period leaves the start unchanged |
| PrivacyStatsRoute.Get | web/src/app/api/privacy-stats/route.ts:3-35 | A non-ok upstream gives its status, a throw gives 500; otherwise the score, the shielded count, `n - shielded` transparent, and a fully-shielded percentage equal to the score |
| PrivacyStatsRoute.MetricsConsistent | web/src/app/api/privacy-stats/route.ts:15-31 | The two counts are non-negative and sum to `n`; the score is in 0..100, 0 with nothing shielded, 100 when all are |
| MempoolPage.GetTransactionType | web/src/app/mempool/page.tsx:67-79 | Mixed iff shielded and transparent, Shielded iff shielded only, Transparent iff not shielded |
| MempoolPage.EmptyIsTransparent | web/src/app/mempool/page.tsx:67-79 | A transaction with no inputs or outputs is typed transparent |
| MempoolPage.TypeIgnoresApproximateCounts | web/src/app/mempool/page.tsx:68-74 | The type reads only the raw lists and the transparent counts |
| MempoolPage.ShieldedCountMatchesBadges | web/src/app/mempool/page.tsx:32-36 | The shielded statistic counts exactly the transactions badged Shielded or Mixed |
| MempoolPage.ComputeStats | web/src/app/mempool/page.tsx:30-50 | Each transaction lands in exactly one count, so they sum to the total; the shielded count and the score are the privacy-score ones |
| MempoolPage.ShownCounts | web/src/app/mempool/page.tsx:206-212 | A badged transaction shows at least one input or output; a transparent one shows its transparent counts |
| MempoolPage.MempoolView.constructor | web/src/app/mempool/page.tsx:16-19 | Empty list, zero statistics, loading |
| MempoolPage.MempoolView.FetchMempool | web/src/app/mempool/page.tsx:21-56 | On success the list and the statistics computed from it; on failure both unchanged; loading ends either way |
| RecentTxs.ShieldedTxs | web/src/components/RecentTxs.tsx:8-12 | The filter keeps exactly the transactions with a positive approximate count; it is empty iff none has one |
| RecentTxs.ShieldedTxsOne | web/src/components/RecentTxs.tsx:8-12 | A single transaction is kept exactly when it has a positive approximate count |
| RecentTxs.ShieldedTxsAppend | web/src/components/RecentTxs.tsx:8-12 | The filter works piece by piece, so the kept transactions keep their order and their duplicates |
| RecentTxs.ClassifyCases | web/src/components/RecentTxs.tsx:33-48 | Fully shielded iff both approximate counts positive and no transparent count; mixed iff some approximate count otherwise; public iff none |
| RecentTxs.NoPublicWhenShieldedFound | web/src/components/RecentTxs.tsx:8-15 | When the filter finds anything, no listed row is public |
| RecentTxs.FallbackBanner | web/src/components/RecentTxs.tsx:15 | The banner shows iff there are transactions and none passes the filter; then the first five (or fewer) are listed, all public |
| RecentTxs.DisplaySize | web/src/components/RecentTxs.tsx:15 | The panel lists at most all transactions, `min(5, n)` when the filter finds none, and nothing only for an empty list |
| RecentTxs.FullyShieldedInputs | web/src/components/RecentTxs.tsx:97 | A fully shielded row shows only its approximate inputs, at least one |
| TransactionsPage.RequestsTile | web/src/app/transactions/page.tsx:17-20 | Page 1 starts at offset 0, every page asks for 50, and each page starts where the previous ended |
| TransactionsPage.RowLabelCases | web/src/app/transactions/page.tsx:67-97 | The label is "Shielded", "Mixed" or "Public" exactly as the panel's classification is fully shielded, mixed or public |
| TransactionsPage.PublicRowShowsTransparentCounts | web/src/app/transactions/page.tsx:117 | A public row shows exactly its transparent counts |
| TransactionsPage.ShowingMatchesRequest | web/src/app/transactions/page.tsx:145 | The "Showing" range starts right after the offset, spans the 50 requested, and the next page's range follows it |
| TransactionsPage.LinksInverse | web/src/app/transactions/page.tsx:149-174 | Previous exists iff the page is above 1; Previous after Next returns to the page and Next after Previous too |
| PrivacyTxsPage.TotalPages | web/src/app/privacy/transactions/page.tsx:29 | 0 pages iff no transactions; otherwise the least number of pages of 50 holding them all |
| PrivacyTxsPage.Slice | web/src/app/privacy/transactions/page.tsx:30-33 | The slice clamps its end to the list and is empty when it starts past the end |
| PrivacyTxsPage.PagesCoverList | web/src/app/privacy/transactions/page.tsx:29-33 | Every page in range shows 1 to 50 rows, and transaction `i` is row `i mod 50` of page `i / 50 + 1` |
| PrivacyTxsPage.FooterMatchesRows | web/src/app/privacy/transactions/page.tsx:120-124 | The footer's first and last numbers bracket exactly the rows shown, out of the total |
| PrivacyTxsPage.MixedMeansOneSide | web/src/app/privacy/transactions/page.tsx:96-103 | A shielded row is labelled Mixed iff one of its raw lists is empty |
| PrivacyTxsPage.PrivacyTxsView.constructor | web/src/app/privacy/transactions/page.tsx:9-12 | No transactions, loading, page 1 |
| PrivacyTxsPage.PrivacyTxsView.FetchAll | web/src/app/privacy/transactions/page.tsx:14-27 | One scan with limit 500 and depth 500: the view holds exactly the scan's reference result at the pages the stop rule fixes: at most 500 transactions, all shielded, distinct by hash; loading ends on page 1 |
| PrivacyTxsPage.PrivacyTxsView.PrevPage | web/src/app/privacy/transactions/page.tsx:127-128 | The page becomes `max(1, p - 1)`, unchanged at page 1, list untouched |
| PrivacyTxsPage.PrivacyTxsView.NextPage | web/src/app/privacy/transactions/page.tsx:137-138 | The page becomes `min(totalPages, p + 1)`, unchanged on the last page, list untouched |
| PrivacyTxsPage.ClickThrough | web/src/app/privacy/transactions/page.tsx:127-138 | Any sequence of clicks keeps the page within `[1, totalPages]` |

## Left out

- Floating point is not modelled. Ratios are exact rationals, and a percentage that would be NaN (an empty sync range) is `None`.
- `percentComplete` of the scan loop (`Math.min(100, …)`) is kept only as a value in 0..100 or NaN.
- I/O is left out: HTTP requests, `sessionStorage`, `console` logging, timers and the simulated delays. The remote calls (`getRecentTxs`, `getNetworkStats`, `getBlocksRange`, `getBlock`, `getTransaction`, `getMempoolTransactions`) are parameters.
- The catch branches of `scanForShieldedTxs`, `getHistoricalStats` (which returns `[]`), `getPrivacyScore` (which returns 0) and the shielded-transactions page's `fetchAll` are left out: the remote calls they guard are total functions in the model, so nothing inside them throws.
- `ZcashDecrypt.Inbox` is a Dafny `map`, so the insertion order of the `Map` that `decrypt_inbox` returns is not modelled; only its keys and values are.
- `Promise.all` parallelism is modelled as sequential requests in request order.
- Date and locale formatting, size formatting and the division of the volume by 10^8 are left out. The volume is kept in zatoshis.
- String lengths are counted in code points, not in UTF-16 code units. The model has no surrogate pairs.
- The UTF-8 `TextDecoder` of `decodeMemo` is a function parameter. Its `catch` branch is unreachable in the model, and `formatMemo` is not modelled.
- The `Display` text of the Rust hex crate's errors is a parameter, because it belongs to a library outside the repository.
- JSON layout and `format!` layout are left out. Results are the records they serialise.
- Blake2b hashing in `perform_crypto_demo` is not modelled, and neither are `greet` and `init_panic_hook`.
- The random memo pick of the simulated `decrypt_memo` is a parameter. The 1.5 s delay is left out.
- The human-readable progress messages of the light client are left out, except the error message.
- The non-null module branch of `zcash-wasm.ts` is left out: `initWasm` never loads a module, so that branch cannot run.
- `fetchTransactionHex` is left out, because it only forwards an HTTP request.
- Heights in the scan route are numbers. Non-numeric JSON heights are not modelled.
- A page number that `parseInt` turns into NaN is not modelled on the transactions page.
- The light client's `getSyncProgress`, `getBalance` and `getTransactions` are plain field reads, so they need no separate member.
- `ZcashDecrypt.DecryptMemo`, `ZcashDecrypt.GetKeyInfo`, `ScanRoute.Post` and `Api.PerformSearch` have no contract of their own. Their lemmas (`DecryptMemoCases`, `KeyInfoValidHasPrefix`, `PostCases`, `RouteCases`) state what they do.
