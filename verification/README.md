# Trade latency monitor — a Dafny model

This project models the decision logic of a Hyperliquid node's trade latency
monitor. The monitor sends a market order through the exchange SDK. It then
watches the node's data directory for a file that mentions the wallet
address. The time between sending and that file showing up is the latency,
which it reports and appends to a JSON results file. Around this sit four
other pieces:

- the environment-driven configuration and its validation;
- a batch runner that classifies and summarises repeated tests;
- a small script that renders the seed-peer CSV as an aligned Markdown
  table and splices it into a README.

The model is functional. The exchange response is a JSON-like `Value` tree.
The watcher's callbacks are a fold over a sequence of file-system events. The
waiting loop reads a sequence of clock/poll observations. Files, the
environment and the clock are plain input values. Timestamps are integer
milliseconds; the monitor timeout is in seconds, as in the configuration.

Modules, one per component:

| module | models |
|---|---|
| `Common` | `Option`, `Result`, `Min`/`Max` |
| `Strings` | the Python string operations the code relies on: `lower`, `in`, `replace`, `strip`, `ljust`, `"\n".join`, `str(int)` |
| `Json` | response/report values, Python truthiness, `str()` |
| `Dispatch` | `send_market_order`'s classification of the exchange answer |
| `Watcher` | `FileMonitor` and `_on_address_found` |
| `Reports` | `calculate_latency`, `generate_report`, the report's JSON form, the latency alert |
| `ResultStore` | `save_results` |
| `Coordinator` | `wait_for_receipt` and `run_single_test` |
| `Config` | `config.py`: network selection, key normalisation, defaults, `validate_config` |
| `Batch` | `batch_test.py`: per-test status, result accumulation, `generate_report` |
| `Table` | `update_table.py`: CSV-to-table generation and the README update guards |

The model follows what the code does, including these less obvious points:

- **Last match wins.** Every matching file event calls the callback again and overwrites the receipt. The `found` flag is written but never read.
- **No clamping.** Latency is received minus sent, so it can be negative.
- **A rejected order does not end the run.** `send_market_order` returns `None`, but `run_single_test` still waits for a receipt.
- **Rejection is only recognised on dicts.** A response object whose `response` attribute holds an error status is not recognised as rejected. It gets the `addr_…` fallback identifier instead.
- **A receipt at time zero is missing.** `received_time` is checked for truthiness, so a receipt stamped with clock value zero counts as absent.
- **Two threshold comparisons.** The monitor alerts only when the latency is strictly above the threshold. The batch runner marks a latency equal to the threshold as a warning.
- **Status before rounding.** The batch runner decides a test's status on the unrounded latency but stores and summarises the latency rounded to hundredths of a millisecond. A success can therefore be counted at or above the threshold: 9999.996 ms against 10000 ms is a success stored as 10000.00 ms.

## Model

| member | source | states |
|---|---|---|
| Strings.Lower | cursor/trade_latency_monitor.py:46 | lower-casing keeps the length, leaves no upper-case ASCII letter, turns each upper-case letter into its lower-case partner and keeps every other character in place |
| Strings.LowerIdempotent | cursor/trade_latency_monitor.py:63 | lower-casing twice is lower-casing once, so lower-casing the target at construction and again when matching changes nothing |
| Strings.ContainsIff | cursor/trade_latency_monitor.py:63 | the substring test `needle in hay` holds exactly when the needle occurs at some position of the haystack |
| Strings.RemoveAllPrefix | cursor/config.py:93 | `replace("0x", "")` on a string that starts with `0x` drops that prefix and then treats the rest alone |
| Strings.StripStartSpec | hack/update_table.py:19-21 | the left strip leaves a suffix, removes only whitespace, and stops at the first non-whitespace character |
| Strings.StripEndSpec | hack/update_table.py:19-21 | the right strip leaves a prefix, removes only whitespace, and stops at the last non-whitespace character |
| Strings.StripIsTrimmedSlice | hack/update_table.py:19-21 | `strip()` yields a slice `s[a..b]` where everything before `a` and after `b` is whitespace and neither end of the result is whitespace |
| Strings.LJust | hack/update_table.py:39 | `ljust(w)` has length `max(w, len)`, starts with the original text, and is padded only with spaces |
| Strings.SplitJoin | hack/update_table.py:49 | lines without newlines joined by `"\n"` split back into exactly those lines |
| Strings.JoinLength | hack/update_table.py:49 | n lines of width w joined by `"\n"` are `n*(w+1)-1` characters long (no trailing newline) |
| Strings.NatToDecimalRoundTrip | cursor/trade_latency_monitor.py:317-319 | `str(n)` of a non-negative integer is its decimal rendering: reading the digits back gives `n`, and there is no leading zero except for zero itself |
| Json.Get | cursor/trade_latency_monitor.py:260-270 | a key lookup finds a value exactly when some entry carries the key, and the value found is stored under that key |
| Json.GetDistinct | cursor/trade_latency_monitor.py:290-319 | in a dict with distinct keys, as decoded JSON objects are, a lookup finds a value exactly when that key/value pair is an entry |
| Json.PyStrEmptyOnlyForEmptyString | cursor/trade_latency_monitor.py:206 | `str(oid)` is empty only for the empty string, so only that oid fails the `if tx_hash:` test |
| Dispatch.FallbackToken | cursor/trade_latency_monitor.py:218 | the fallback identifier is `"addr_"` followed by the first ten characters of the wallet (all of it when shorter) |
| Dispatch.ExtractOrderId | cursor/trade_latency_monitor.py:275-325 | an oid is extracted only from a truthy response whose `data.statuses[0]` is reachable as a dict, and only when that status has no `error` key |
| Dispatch.IsOrderRejected | cursor/trade_latency_monitor.py:257-273 | a response recognised as rejected never yields an extracted oid |
| Dispatch.SendMarketOrder | cursor/trade_latency_monitor.py:156-227 | the send time is returned unchanged; a rejection returns `None` as the hash; any exception from `market_open` returns the fallback token |
| Dispatch.HashFirst | cursor/trade_latency_monitor.py:197-198 | a response with a `hash` attribute is identified by that hash, whatever else it carries |
| Dispatch.IdSecond | cursor/trade_latency_monitor.py:200-201 | without `hash`, an `id` attribute identifies the order |
| Dispatch.NestedOidThird | cursor/trade_latency_monitor.py:203-219 | without both attributes, a non-empty extracted oid identifies the order; otherwise the result is rejection when the rejection check holds and the fallback token when it does not |
| Dispatch.ExtractNone | cursor/trade_latency_monitor.py:277-299 | extraction gives `None` for a falsy response or when `data.statuses[0]` is not reachable as a dict through dicts and a non-empty list |
| Dispatch.ErrorBlocksOid | cursor/trade_latency_monitor.py:302-310 | a first status with an `error` key gives `None` even when it also has an `oid` |
| Dispatch.FilledShadowsOid | cursor/trade_latency_monitor.py:313-317 | when `filled` is a dict, the result is `str(filled.oid)` or `None`, and the top-level `oid` is never read |
| Dispatch.TopLevelOid | cursor/trade_latency_monitor.py:318-321 | the top-level `oid` is used only when `filled` is absent or not a dict |
| Dispatch.IntegerOidIdentifies | cursor/trade_latency_monitor.py:313-319 | without `hash` or `id`, a first status with no `error`, no dict under `filled` and an integer `oid` identifies the order by that integer's decimal string |
| Dispatch.Classify | cursor/trade_latency_monitor.py:197-226 | the outcome is a rejection exactly when the exchange returned a dict whose `response.data.statuses[0]` is a dict with an `error` key; an exception gives the fallback; a fallback always carries the wallet-derived token; without `hash` or `id`, an identifier is a non-empty string |
| Dispatch.RaisedFallsBack | cursor/trade_latency_monitor.py:221-226 | an exception from the exchange call falls back to the wallet-derived token |
| Dispatch.ObjectErrorFallsBack | cursor/trade_latency_monitor.py:257-273 | an object response carrying an error status is not treated as a rejection and gets the fallback |
| Dispatch.EmptyOidFallsBack | cursor/trade_latency_monitor.py:206-219 | an oid rendering as the empty string is not an identifier and leads to the fallback |
| Watcher.OnEvent | cursor/trade_latency_monitor.py:50-68 | an event triggers the callback exactly when it is not a directory, the read succeeded and the content matches; a triggering event records its own time, path and content; any other event leaves the state unchanged |
| Watcher.Observe | cursor/trade_latency_monitor.py:50-68 | over a sequence of events `found` is never cleared, a changed receipt means some event matched, and while nothing matched the state is unchanged |
| Watcher.MatchesIff | cursor/trade_latency_monitor.py:46-66 | matching is case-insensitive substring search: it holds iff the lower-cased target occurs in the lower-cased content, and pre-lower-casing either side changes nothing |
| Watcher.NoMatchNoChange | cursor/trade_latency_monitor.py:50-68 | directory events, failed reads and non-matching files never change the receipt or `found` |
| Watcher.LastMatchWins | cursor/trade_latency_monitor.py:327-331 | after a run of events, the receipt is that of the last triggering event |
| Watcher.FoundIff | cursor/trade_latency_monitor.py:65 | `found` is set exactly when some event triggered or it was already set |
| Watcher.FoundDoesNotSuppress | cursor/trade_latency_monitor.py:63-66 | a triggering event overwrites the receipt even after an earlier match |
| Watcher.ObserveAppend | cursor/trade_latency_monitor.py:50-56 | delivering events in two batches is the same as delivering them together |
| Watcher.ReceiptFromSomeEvent | cursor/trade_latency_monitor.py:327-331 | the receipt after a sequence of events is the earlier one or was recorded by one of its triggering events |
| Reports.CalculateLatency | cursor/trade_latency_monitor.py:362-370 | there is a latency exactly when a receipt with a truthy time exists, and then send time plus latency equals the receipt time |
| Reports.GenerateReport | cursor/trade_latency_monitor.py:372-403 | the report succeeds exactly when a receipt exists; a failed report carries the fixed error text; a successful one carries the hash, both times, a latency consistent with them, the received file and the run parameters |
| Reports.LatencyNotClamped | cursor/trade_latency_monitor.py:367-368 | a receipt stamped 100 ms before the send gives a reported latency of -100 |
| Reports.AlertIffSlow | cursor/trade_latency_monitor.py:424-426 | the report raises the latency alert exactly when a receipt exists and arrived strictly more than the threshold after the send |
| Reports.ReportJson | cursor/trade_latency_monitor.py:376-401 | the written report is a dict of two entries for a failure and thirteen for a success, `status` first |
| Reports.ReportJsonDistinct | cursor/trade_latency_monitor.py:387-401 | no key of the written report appears twice |
| Reports.ReportJsonLookup | cursor/trade_latency_monitor.py:376-401 | reading any key of the written report finds exactly the entry stored under it |
| Reports.StatusField | cursor/trade_latency_monitor.py:377-388 | the report's `status` key reads `"success"` for a successful report and `"failed"` otherwise; a failed report's `error` key holds its error |
| Reports.SuccessIffReceipt | cursor/trade_latency_monitor.py:376-388 | the report's status is `"success"` exactly when a receipt was recorded |
| ResultStore.SaveResults | cursor/trade_latency_monitor.py:433-457 | disabled saving or a failed write leaves the file unchanged; a missing file becomes a one-report list; an existing list gets the report appended; an unreadable or non-list file is left untouched |
| ResultStore.SaveAllAppends | cursor/trade_latency_monitor.py:442-452 | saving N reports in turn onto a stored list leaves that list followed by the N reports in save order |
| ResultStore.FromMissing | cursor/trade_latency_monitor.py:442-452 | starting with no results file, N successful saves leave exactly the N reports in save order |
| Coordinator.WaitForReceipt | cursor/trade_latency_monitor.py:338-360 | with the timeout argument, or `MONITOR_TIMEOUT` when it is `None`, both in seconds against millisecond clock values, the wait returns true exactly when some poll saw the receipt while that poll and every earlier one were within the timeout |
| Coordinator.RunSingleTest | cursor/trade_latency_monitor.py:466-500 | cleanup always comes last; if monitoring fails to start nothing else happens; a timeout returns false with no report and no save; after a receipt the report is built from the order's identifier and the final receipt, saved, and the result is true exactly when the report succeeded |
| Coordinator.ReceiptPersists | cursor/trade_latency_monitor.py:327-370 | a receipt seen while waiting is still present when the report is built, given non-zero clock values |
| Coordinator.WaitedRunSucceeds | cursor/trade_latency_monitor.py:481-494 | a run whose wait succeeded produces a successful report, given non-zero clock values |
| Config.RpcUrl | cursor/config.py:14-22 | the RPC URL is the testnet URL exactly when the network is testnet, and the mainnet URL otherwise |
| Config.NormalizeKey | cursor/config.py:31-32 | the normalised key starts with `0x`; a key that already does is unchanged; otherwise `0x` is put in front |
| Config.NormalizeIdempotent | cursor/config.py:31-32 | normalising twice is normalising once |
| Config.Load | cursor/config.py:13-83 | loading fails exactly when `PRIVATE_KEY` is unset or empty; otherwise the network defaults to testnet, the URL follows the network, the key is normalised, the threshold defaults by network, and saving is on |
| Config.DefaultThresholdByNetwork | cursor/config.py:71-73 | with no `LATENCY_THRESHOLD` set, the threshold is 10000 ms on testnet and 5000 ms otherwise |
| Config.TestnetIgnoresCase | cursor/config.py:13-22 | the network is testnet exactly when its name spells `testnet` with each letter in either case; names equal up to case select the same network, RPC URL and default threshold |
| Config.ConfigErrors | cursor/config.py:89-108 | each error is reported exactly when its check fails: cleaned key length not 64, cleaned key not hexadecimal, side not A/B, size not positive; every check runs and no error is repeated |
| Config.ValidateConfig | cursor/config.py:87-116 | validation succeeds exactly when all four checks pass |
| Config.HexKeyAccepted | cursor/config.py:93-101 | a 64-digit hex key passes the key checks whether or not it was given with a `0x` prefix |
| Config.RemoveAllAbsentX | cursor/config.py:93 | removing `0x` from a string with no `x` changes nothing |
| Config.UpperCasePrefixRejected | cursor/config.py:93-95 | a key given with an upper-case `0X` prefix keeps it after cleaning and fails the length check with 66 characters |
| Batch.StatusFor | cursor/batch_test.py:67-77 | the status, decided on the unrounded latency, is success exactly when it is below the threshold and warning exactly when it is at or above it |
| Batch.RoundToHundredths | cursor/batch_test.py:75 | the stored latency is the hundredth of a millisecond nearest to the measured one, a tie going to the even hundredth |
| Batch.ResultFor | cursor/batch_test.py:70-127 | a completed test keeps its id, has no error and a stored latency within half a hundredth of the measured one; an exception gives an error result with latency 0 and the exception's text |
| Batch.Collect | cursor/batch_test.py:98-127 | each iteration up to the first interruption yields one result in order: its measured result, or an error result |
| Batch.RunBatch | cursor/batch_test.py:93-130 | at most `test_count` results with test ids 1, 2, … in order, exactly `test_count` when nothing interrupts |
| Batch.RaisedIsRecorded | cursor/batch_test.py:111-127 | an iteration that raised is recorded under its test id as an error result with latency 0 and the exception's text |
| Batch.Filter | cursor/batch_test.py:138-140 | filtering by status keeps exactly the results with that status and no others |
| Batch.FilterCounts | cursor/batch_test.py:138-140 | each result with the status is kept as often as it occurs, every other result not at all |
| Batch.FilterAppend | cursor/batch_test.py:138-140 | filtering distributes over concatenation, so the kept results stay in their original order |
| Batch.FilterPartition | cursor/batch_test.py:138-149 | the success, error and warning counts add up to the total |
| Batch.MinOf | cursor/batch_test.py:153 | the minimum is one of the latencies and no latency is smaller |
| Batch.MaxOf | cursor/batch_test.py:154 | the maximum is one of the latencies and no latency is larger |
| Batch.SumBounds | cursor/batch_test.py:155 | the sum of values between lo and hi lies between n·lo and n·hi |
| Batch.MeanWithin | cursor/batch_test.py:155 | the mean of values between lo and hi lies between lo and hi |
| Batch.MeanBetween | cursor/batch_test.py:153-155 | min ≤ mean ≤ max over the successful latencies |
| Batch.SampleVariance | cursor/batch_test.py:157 | the spread is non-negative and is 0 for a single latency |
| Batch.ThresholdSplit | cursor/batch_test.py:161-162 | below-threshold and at-or-above-threshold counts add up to the number of latencies |
| Batch.GenerateReport | cursor/batch_test.py:132-192 | no results gives the report holding only the no-results error; a report without successes carries the no-successes error; any other report details the results unchanged and totals their number |
| Batch.ReportFacts | cursor/batch_test.py:138-192 | the counts are the status filters and sum to the total; with successes, below plus above equals the success count, min ≤ mean ≤ max, and a single success has zero spread; without successes, the count and rate are 0 |
| Batch.RoundedSuccessCountedAbove | cursor/batch_test.py:67-162 | a single test measured at 9999.996 ms against a 10000 ms threshold is a success stored as 10000.00 ms and is counted above the threshold |
| Batch.SuccessNotPastThreshold | cursor/batch_test.py:67-77 | a successful result is stored at most at the threshold: rounding can lift it onto the threshold but not past it |
| Batch.AboveOnlyAtThreshold | cursor/batch_test.py:150-162 | the successes counted at or above the threshold are exactly those stored at the threshold itself |
| Table.LastIndex | hack/update_table.py:12-19 | a column name resolves to its last position in the header, and is unresolved only when it is absent |
| Table.ParsePeer | hack/update_table.py:18-22 | a record parses exactly when all three required fields are present, and the peer's fields are those fields stripped |
| Table.ParsePeers | hack/update_table.py:17-22 | parsing yields at most one peer per record, fails only with the `.strip()` on `None` error, and gives no peers when every record is blank |
| Table.ParsePeersFails | hack/update_table.py:17-22 | parsing fails exactly when some non-blank record is too short for a required column |
| Table.ParsePeersKeepsOrder | hack/update_table.py:17-26 | a successful parse yields one peer per non-blank record, in input order |
| Table.ColumnWidths | hack/update_table.py:28-35 | each column width is at least its heading's length (8, 7, 8), at least every field in the column, and equal to the heading length or to some field's length |
| Table.TableLines | hack/update_table.py:41-47 | the table has two lines more than there are peers |
| Table.RowLayout | hack/update_table.py:38-39 | a row is `"| "`, the three cells each left-justified to their column width and separated by `" | "`, then `" |"`, in total `w1 + w2 + w3 + 10` characters |
| Table.LinesLayout | hack/update_table.py:41-47 | line 1 is the heading row, line 2 the dash row, and line k+3 the row of the k-th peer |
| Table.LinesWidth | hack/update_table.py:38-47 | every line, heading and separator included, is `w1 + w2 + w3 + 10` characters long |
| Table.TableLength | hack/update_table.py:41-49 | the table text is `2 + n` equal lines joined by single newlines with no trailing newline |
| Table.TableSplits | hack/update_table.py:49 | when no field holds a newline, splitting the table text at newlines gives back exactly its lines |
| Table.GenerateMarkdownTable | hack/update_table.py:6-49 | a table is produced only when the header names all three columns, and with those columns present generation fails only because of a record too short for one of them |
| Table.MissingColumnFails | hack/update_table.py:7-22 | generation fails exactly when the file is empty, a required column is missing from the header, or a non-blank record is too short for a required column; otherwise the result is the joined table |
| Table.UpdateReadme | hack/update_table.py:51-71 | the update reports success exactly when it writes, and it writes exactly when the section heading occurs somewhere in the content and the substitution changed it; what it writes is the substituted text |

## Left out

- Address derivation from the private key (secp256k1/Keccak and the SHA-256 fallback) is not modelled. The wallet address is an opaque input string.
- The exchange SDK (`Exchange`/`Info` construction, `market_open`) is not modelled. Its answer is an input: either the value it returned or the fact that it raised.
- Thread scheduling for the watchdog observer, `time.sleep` settling delays, `cleanup`'s thread join, and all logging and console printing (`print_report`, `print_config`, the batch report printout) are left out. Events and polls are input sequences. `Coordinator.RunSingleTest` records the steps as a trace instead.
- `Coordinator.RunSingleTest`: of the exceptions `run_single_test` catches, only a failure of `start_file_monitoring` is modelled. Exceptions raised while building, printing or saving the report are not.
- `Dispatch.SendMarketOrder` leaves out the outer `except ... raise` of `send_market_order`. It re-raises any exception from the whole body, including one raised inside the inner handler. In the model none of those steps can fail: the clock and logging are not modelled, and the wallet address is a string.
- Date-time strings, the monitor report's `round(..., 3)`, and floating-point latencies are left out. Times are integer milliseconds, and the report carries raw clock values.
- `Json.PyStr` renders floats as `<float>` and objects as `<object>`, and uses no escaping in container `repr`. Only integer and string oids appear in exchange responses.
- `Strings.Lower`: ASCII letters only. Python's full Unicode lower-casing is not modelled.
- `Config.KeyIsHex`: `int(clean_key, 16)` is simplified to "non-empty and all hexadecimal digits". Python also accepts surrounding whitespace, underscores between digits, a sign, and a `0x` prefix.
- `Config.Load`: the `int()`/`float()` parsing of environment variables (and the `ValueError` a malformed number raises) is not modelled. Numeric variables arrive already parsed.
- `ResultStore.SaveResults`: a failed write leaves the file as it was. A partially written file is not modelled.
- `Batch.GenerateReport` does not model the median, the square root of the standard deviation (the sample variance is kept), the rounding of the success rate and mean, or the test-duration and configuration blocks.
- `Batch.Collect`: the measured latency of each iteration is an input, in whole microseconds. The simulated sleeps that produce it are not modelled, and `KeyboardInterrupt` is an `Interrupted` attempt. The stored `latency_seconds` and the time stamps of a result are not modelled.
- `Batch.RunBatch` assumes a non-negative interval between tests; the only caller passes 30 seconds. With a negative interval, `time.sleep` raises after the result was appended, and the handler appends a second, error result under the same test id. That double entry is not modelled.
- `Batch.RoundToHundredths` rounds the exact decimal value half to even. Python's `round` works on the binary float, so a latency that looks like a tie may round either way.
- `Config.ValidateConfig` and `Config.ConfigErrors` assume `SIZE` is a finite number. A NaN size compares false with `SIZE <= 0`, so the source accepts it, while the model has no NaN value.
- `Json.Get` returns the first entry with a key, while decoding a JSON object with a repeated key keeps the last value. The two agree on dicts with distinct keys (`Json.GetDistinct`); repeated keys are not modelled.
- The regular-expression substitution in `update_readme_table` is not modelled. Its result is an input to `Table.UpdateReadme`, and only the return conditions are modelled.
- CSV tokenisation (quoting, delimiters, line endings) is not modelled. The table generator takes the file's records as lists of fields. Blank records are skipped, and fields beyond the header are ignored.
- `cursor/check_balance.py` (balance queries and their display text) is not modelled.
