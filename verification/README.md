# rdt-client: provider rate limiting and the SABnzbd emulation, in Dafny

This project models two parts of rdt-client's service layer and proves
properties about them.

**Provider rate limiting.** Calls to debrid providers go through a gate, and
three pieces decide how the client backs off when a provider answers
`429 Too Many Requests`:

- **The cooldown store** (`RateLimitCoordinator`) maps a host to the instant
  before which no request may go to it. An update keeps the later of the
  old and new instants. An entry that has expired is removed the first time
  a reader sees it.
- **The gate** (`RateLimitHandler`) does three things:
  - It refuses a request while its host is cooling down.
  - Otherwise it forwards the request.
  - On a 429 it records a cooldown taken from the `Retry-After` header
    (section 10.2.3 of RFC 9110) and fails with a `RateLimitException`.
- **The retry policy's delay generator** (in `DiConfig`) is a second
  `Retry-After` rule. It is used between retry attempts. The policy itself
  is modelled as the constant `Resilience.ProviderRetryOptions`, whose values
  `Resilience.ProviderPolicy` states:
  - a 10 s attempt timeout;
  - 5 retries;
  - exponential backoff from 2 s;
  - jitter.

**The SABnzbd emulation** (`Sabnzbd`) serves download managers that speak
SABnzbd's API:

- The queue and the history are views of the stored usenet downloads.
- The category list comes from the comma-separated categories setting.
- The config lists those categories with their directories.
- Add and delete requests pass a new record, or a looked-up one, to the
  `Torrents` service.

**Time.** Instants and durations are .NET ticks (100 ns) held in an `int`.
The model never reads a clock. The current instant is a parameter `now`.
The gate takes a second instant `later`, for when the inner handler's
response arrives.

**Layout.**

| file | module | content |
|---|---|---|
| `wrappers.dfy` | `Wrappers` | `Option` |
| `http.dfy` | `Http` | request, response, `Retry-After`, exception and outcome values |
| `cooldowns.dfy` | `Cooldowns` | map-level functions for the store's transitions, and the class `RateLimitCoordinator` that performs them in place |
| `gate.dfy` | `RateLimitGate` | `GetRetryAfterDelay`, the inner handler, and the class `RateLimitHandler` |
| `resilience.dfy` | `Resilience` | the retry policy constants and `DelayGenerator` |
| `sequences.dfy` | `Sequences` | LINQ `Where` and `Select` |
| `text.dfy` | `Text` | `Split`, `Trim`, `Distinct` with a comparer, decimal rendering |
| `sabnzbd.dfy` | `Sabnzbd` | the emulation's views, categories, config, add and delete |

## Model

| member | source | states |
|---|---|---|
| Cooldowns.Raised | server/RdtClient.Service/Helpers/RateLimitCoordinator.cs:66-70 | An update adds the key if it is absent. A stored instant is never lowered. The result is the old or the new instant. No other key changes. |
| Cooldowns.Live | server/RdtClient.Service/Helpers/RateLimitCoordinator.cs:27-41 | Keeps exactly the entries that are still in the future at `now`, with their instants. |
| Cooldowns.Remaining | server/RdtClient.Service/Helpers/RateLimitCoordinator.cs:9-21 | The remaining cooldown is never negative. It is positive iff the key is stored with a future instant, and then it equals that instant minus `now`. |
| Cooldowns.Observed | server/RdtClient.Service/Helpers/RateLimitCoordinator.cs:11-19 | A lookup removes exactly the looked-up key, and only when that key has expired. Every other entry keeps its instant. |
| Cooldowns.RaisedAllIsMax | server/RdtClient.Service/Helpers/RateLimitCoordinator.cs:66-70 | After any non-empty series of updates of one key, the stored instant is the maximum of the original entry and every candidate instant. No other key changes. |
| Cooldowns.RaisedAllNeverLowers | server/RdtClient.Service/Helpers/RateLimitCoordinator.cs:69 | No series of updates shortens any stored cooldown or removes a key. |
| Cooldowns.RemainingAfterUpdate | server/RdtClient.Service.Test/Helpers/RateLimitCoordinatorTest.cs:7-21 | After an update with a positive delay `d`, the key's remaining cooldown at the same instant is at least `d`. |
| Cooldowns.ExpiredUpdateIsInvisible | server/RdtClient.Service.Test/Helpers/RateLimitCoordinatorTest.cs:55-67 | An update with a delay that is not positive leaves the set of live entries unchanged. So if the store had no live entry, the scans still find none. |
| Cooldowns.ExpiredKeyIsDropped | server/RdtClient.Service/Helpers/RateLimitCoordinator.cs:13-20 | An expired key reads as zero remaining, the lookup removes it, and a second lookup still reads zero. |
| Cooldowns.LatestOfTwoCooldowns | server/RdtClient.Service.Test/Helpers/RateLimitCoordinatorTest.cs:37-53 | Two updates, 10 and 20 minutes ahead, are made within a minute of a start instant. Some entry is then still live, so the scan finds a latest instant, and every latest live instant is strictly between 19 and 21 minutes after the start. |
| Cooldowns.RateLimitCoordinator.constructor | server/RdtClient.Service/Helpers/RateLimitCoordinator.cs:7 | The store starts empty. |
| Cooldowns.RateLimitCoordinator.GetRemainingCooldown | server/RdtClient.Service/Helpers/RateLimitCoordinator.cs:9-21 | Returns `Remaining` of the store before the call. The new store is `Observed` of the old one. |
| Cooldowns.RateLimitCoordinator.GetMaxRemainingCooldown | server/RdtClient.Service/Helpers/RateLimitCoordinator.cs:23-43 | The scan leaves exactly the live entries. The result is zero iff no entry is live. Otherwise `now` plus the result is the latest live instant. |
| Cooldowns.RateLimitCoordinator.GetMaxNextAllowedAt | server/RdtClient.Service/Helpers/RateLimitCoordinator.cs:45-64 | The scan leaves exactly the live entries. The result is none iff no entry is live. Otherwise it is the latest live instant. |
| Cooldowns.RateLimitCoordinator.UpdateCooldown | server/RdtClient.Service/Helpers/RateLimitCoordinator.cs:66-70 | The new store is `Raised` of the old one at `now + retryAfter`. |
| Cooldowns.RateLimitCoordinator.GetNextAllowedAt | server/RdtClient.Service/Helpers/RateLimitCoordinator.cs:72-83 | Returns the stored instant iff it is strictly in the future, and none otherwise. The new store is `Observed` of the old one. |
| RateLimitGate.GetRetryAfterDelay | server/RdtClient.Service/Helpers/RateLimitHandler.cs:11-22 | The delay is never negative. A delta wins over a date. With only a date, the delay is the date minus `now`. With neither, it is two minutes. A negative candidate becomes two minutes, and a zero delay is kept. |
| RateLimitGate.HostKey | server/RdtClient.Service/Helpers/RateLimitHandler.cs:26 | The store key is the request's host, or "unknown" when the request has no URI. |
| RateLimitGate.InnerHandler.SendAsync | server/RdtClient.Service/Helpers/RateLimitHandler.cs:46 | The next handler answers with its fixed outcome for the request, and it records that it received the request. |
| RateLimitGate.RateLimitHandler.SendAsync | server/RdtClient.Service/Helpers/RateLimitHandler.cs:24-57 | While the host (or "unknown") is cooling down: fails with the remaining time, the inner handler never sees the request, and the store is unchanged. Otherwise the request is forwarded exactly once. An exception or a non-429 response passes through unchanged, and no cooldown is written. A 429 raises the host's cooldown to `later` plus `GetRetryAfterDelay`, and fails with that same delay. |
| RateLimitGate.ThrottledHostIsShortCircuited | server/RdtClient.Service.Test/Helpers/RateLimitHandlerTest.cs:12-60 | A 429 with `Retry-After: 3600` fails with a one-hour delay and the "rate limit exceeded" message. A request to the same host a minute later fails with 59 minutes and the "cooldown active" message. The inner handler is reached once. |
| RateLimitGate.FallbackAndTimeout | server/RdtClient.Service.Test/Helpers/RateLimitHandlerTest.cs:30-74 | A 429 without `Retry-After` fails with two minutes. A timeout from the inner handler comes out unchanged, and the store stays empty. |
| Resilience.ProviderPolicy | server/RdtClient.Service/DiConfig.cs:73-77 | The provider client's policy: a 10 s attempt timeout, 5 retries, exponential backoff from 2 s, with jitter. |
| Resilience.DelayGenerator | server/RdtClient.Service/DiConfig.cs:78-98 | Returns none iff the outcome is an exception, or the header is missing, or the header has neither field. A delta is returned unclamped and wins over a date. A date alone gives the date minus `now`, clamped at zero. |
| Resilience.GeneratorAgreesWithGate | server/RdtClient.Service/DiConfig.cs:84-94 | For a non-negative delta, or a date that is not in the past, the generator and the gate's rule give the same delay. |
| Resilience.PastDateDiffers | server/RdtClient.Service/DiConfig.cs:89-94 | For a past date, the generator gives zero and the gate gives two minutes. |
| Resilience.AbsentHeaderDiffers | server/RdtClient.Service/DiConfig.cs:80-98 | Without a header, the generator gives none and the gate gives two minutes. |
| Resilience.NegativeDeltaDiffers | server/RdtClient.Service/DiConfig.cs:84-87 | For a negative delta, the generator passes it through and the gate gives two minutes. |
| Resilience.ExceptionUsesBackoff | server/RdtClient.Service/DiConfig.cs:80-98 | An attempt that threw gives none, so the exponential default applies. |
| Sequences.Where | server/RdtClient.Service/Services/Sabnzbd.cs:15 | A filter result is no longer than its input, and every kept element satisfies the predicate. |
| Sequences.WhereMembership | server/RdtClient.Service/Services/Sabnzbd.cs:15 | An element is kept iff it is in the input and satisfies the predicate. |
| Sequences.WhereAppend | server/RdtClient.Service/Services/Sabnzbd.cs:15 | Filtering keeps input order: the filter of a concatenation is the concatenation of the filters. |
| Sequences.Select | server/RdtClient.Service/Services/Sabnzbd.cs:57 | A projection has the input's length, and each element is the function applied to the element at the same position. |
| Text.SplitOn | server/RdtClient.Service/Services/Sabnzbd.cs:136 | Splitting gives at least one piece, and no piece contains the separator. |
| Text.JoinSplitOn | server/RdtClient.Service/Services/Sabnzbd.cs:136 | Joining the pieces with the separator gives back the original string. |
| Text.Trim | server/RdtClient.Service/Services/Sabnzbd.cs:137 | Only white space at the two ends is removed. The result is the slice of the input that starts after the leading white space, and every character before or after that slice is white space. The result neither starts nor ends with white space. It is empty iff the input is all white space. |
| Text.NoSeparatorInTrim | server/RdtClient.Service/Services/Sabnzbd.cs:136-137 | Trimming adds no character, so a trimmed piece of a split holds no separator. |
| Text.DistinctFrom | server/RdtClient.Service/Services/Sabnzbd.cs:139 | The scan keeps only input elements whose key has not been seen. No two kept elements share a key. Every input key ends up seen or kept. |
| Text.DistinctByKeepsFirstOccurrences | server/RdtClient.Service/Services/Sabnzbd.cs:139 | `Distinct` with a comparer equals the reference definition: each element is kept iff no earlier element has its key, in input order. |
| Text.IntToString | server/RdtClient.Service/Services/Sabnzbd.cs:166 | A non-negative number renders as decimal digits that read back as the number, at least one digit and no leading zero (zero is "0"). A negative one renders as "-" followed by the digits of its magnitude, again without a leading zero. |
| Text.ParseNatToString | server/RdtClient.Service/Services/Sabnzbd.cs:166 | The decimal rendering of a number reads back as that number. |
| Text.PortExample | server/RdtClient.Service.Test/Services/SabnzbdTest.cs:193-208 | Port 6500 is rendered as "6500". |
| Sabnzbd.TotalBytes | server/RdtClient.Service/Services/Sabnzbd.cs:25 | The total size of a record's files is not negative when no file size is negative. |
| Sabnzbd.LeftBytes | server/RdtClient.Service/Services/Sabnzbd.cs:26 | The size left of a record's files is not negative when no file has more downloaded than its size. |
| Sabnzbd.LeftBytesIsTotalLessDone | server/RdtClient.Service/Services/Sabnzbd.cs:25-26 | The size left equals the total size less the downloaded size. |
| Sabnzbd.QueueStatus | server/RdtClient.Service/Services/Sabnzbd.cs:29-38 | The status table, in both directions: Processing and WaitingForFileSelection give "Propagating", Finished gives "Completed", Downloading gives "Downloading", Error gives "Failed", Queued gives "Queued". Everything else, including no status, gives "". |
| Sabnzbd.GetQueue | server/RdtClient.Service/Services/Sabnzbd.cs:12-46 | One slot per unfinished usenet record, in input order, and `NoOfSlots` is the count. Slot `i` has `Index` i, the record's hash as id, its name or else its hash, its total size, and its size left (total less downloaded). Its percentage is the record's progress, or 0 when there is none. Its status is `QueueStatus` of the record's status. The category defaults to "*". The priority is "Normal" and the time left is "0:00:00". |
| Sabnzbd.GetHistory | server/RdtClient.Service/Services/Sabnzbd.cs:48-69 | One slot per completed usenet record, in input order, and both slot counts equal that number. Each slot has the hash, the name or else the hash, the record's total size, and status "Completed". Category and path are both the category, or else "Default". |
| Sabnzbd.QueueAndHistoryPartitionNzbs | server/RdtClient.Service/Services/Sabnzbd.cs:12-69 | Between them, the queue and the history have exactly as many slots as there are usenet records. |
| Sabnzbd.CountsAddUp | server/RdtClient.Service/Services/Sabnzbd.cs:12-69 | The unfinished and the completed usenet records together make up all the usenet records. |
| Sabnzbd.ViewsHoldExactlyTheirRecords | server/RdtClient.Service/Services/Sabnzbd.cs:12-69 | A record is in the queue iff it is an unfinished usenet download, and in the history iff it is a completed one. |
| Sabnzbd.QueueKeepsOrder | server/RdtClient.Service/Services/Sabnzbd.cs:12-69 | Both views keep input order over a concatenation of record lists. |
| Sabnzbd.MissingCategoryDefaultsDiffer | server/RdtClient.Service/Services/Sabnzbd.cs:39-64 | A usenet download without a category is "*" in the queue and "Default" in the history. |
| Sabnzbd.CategoryPiecesAreTrimmedPieces | server/RdtClient.Service/Services/Sabnzbd.cs:135-137 | A name is offered iff it is the trim of a non-empty comma-separated piece of the setting. |
| Sabnzbd.CategoryPiecesAreClean | server/RdtClient.Service/Services/Sabnzbd.cs:135-137 | No offered name holds a comma, and none starts or ends with white space. |
| Sabnzbd.GetCategories | server/RdtClient.Service/Services/Sabnzbd.cs:133-145 | "*" comes first and nowhere else. Every other name is a trimmed piece of the setting. No two names are equal under the comparer. Every non-"*" piece is represented. The list is exactly "*" followed by the first occurrences of the non-"*" pieces. |
| Sabnzbd.GetConfig | server/RdtClient.Service/Services/Sabnzbd.cs:147-173 | Both directories are the save path, the port is rendered in decimal, and the version is "4.4.0". The entries follow `GetCategories` in order, with `Order` i. "*" comes first with an empty directory, and every other name's directory is combined with the save path. |
| Sabnzbd.SubmissionPriority | server/RdtClient.Service/Services/Sabnzbd.cs:90 | The priority fallback, the same in `AddFile` and `AddUrl`: the request's priority; else the configured one if it is positive; else none. |
| Sabnzbd.NewSubmission | server/RdtClient.Service/Services/Sabnzbd.cs:75-91 | The new record carries the request's category. Its priority is `SubmissionPriority` of the request's priority and the configured default. It has no finished action. Its download action is "available files" iff the defaults say so, and "all" otherwise. The download client, host download action, finished-action delay, minimum size, include and exclude patterns, both retry counts, delete-on-error and lifetime are copied from the settings. |
| Sabnzbd.Torrents.Enqueue | server/RdtClient.Service/Services/Sabnzbd.cs:93-94 | The service records the submission and answers with the hash it assigns. |
| Sabnzbd.Torrents.GetByHash | server/RdtClient.Service/Services/Sabnzbd.cs:125 | The lookup answers with the service's record for the hash, if any. |
| Sabnzbd.Torrents.Delete | server/RdtClient.Service/Services/Sabnzbd.cs:129 | The service records one delete request with the given id and flags. |
| Sabnzbd.AddFile | server/RdtClient.Service/Services/Sabnzbd.cs:71-95 | Exactly one file submission, carrying the record built from the defaults, is made. Its hash is returned. |
| Sabnzbd.AddUrl | server/RdtClient.Service/Services/Sabnzbd.cs:97-121 | Exactly one link submission, carrying the record built from the defaults, is made. Its hash is returned. |
| Sabnzbd.Delete | server/RdtClient.Service/Services/Sabnzbd.cs:123-131 | An unknown hash makes no request. A known one makes exactly one delete of that record's id, with all three flags set. |
| Sabnzbd.HistoryPathIsCategoryOnly | server/RdtClient.Service/Services/Sabnzbd.cs:64 | A completed usenet download in category "radarr" named "NZB 1" gets the history path "radarr": the path is the category alone, not a combined path. |
| Sabnzbd.BlankPieceSurvives | server/RdtClient.Service/Services/Sabnzbd.cs:135-137 | A setting made only of white space gives one empty category name, because empty pieces are dropped before trimming. |
| Sabnzbd.SplitExample | server/RdtClient.Service.Test/Services/SabnzbdTest.cs:227 | "TV, Music, *" splits into "TV", " Music" and " *". |
| Sabnzbd.PiecesExample | server/RdtClient.Service.Test/Services/SabnzbdTest.cs:227 | The trimmed pieces of "TV, Music, *" are "TV", "Music" and "*". |
| Sabnzbd.NamesExample | server/RdtClient.Service.Test/Services/SabnzbdTest.cs:227-239 | Dropping "*" and de-duplicating leaves "TV" then "Music". |
| Sabnzbd.CategoriesExample | server/RdtClient.Service.Test/Services/SabnzbdTest.cs:210-240 | The setting "TV, Music, *" gives exactly ["*", "TV", "Music"]: three names, "*" first, and a category used only by a stored download is not listed. |

## Left out

- **Concurrency.** `ConcurrentDictionary` and async interleaving are not modelled. The store is sequential.
  - `TryRemove` removes by key without comparing values. So under a race, a reader can drop a cooldown that another thread has just extended. A sequential model cannot show this.
- **The clock.** Each `DateTimeOffset.UtcNow` read becomes a parameter.
  - The gate's two reads after the response arrives (one in `GetRetryAfterDelay`, one in `UpdateCooldown`) become the single instant `later`.
  - The scans read the clock once, as the source does.
- **Retry execution.** Polly's retry loop, the exponential schedule, jitter randomness and the attempt timeout are library behaviour and randomness. They are not modelled. Only the policy constants and the delay generator are.
  - `MaxRetryAttempts = 5` counts retries after the first attempt, which makes up to six sends.
- **Resilience bookkeeping in the gate.** The resilience context, its `StartTime` property and the disposal of the 429 response have no observable contract here.
- **Service wiring and logging.** DI registration, the User-Agent header and the logging calls are not modelled.
- **Host names.** The host is taken as given. `Uri`'s own normalisation (for example lower-casing) is not modelled.
- **Foreign formatters.** These are parameters the model does not interpret:
  - `FileSizeHelper.FormatSize`;
  - the `ToString("0")` rendering of the progress, which is a floating-point value;
  - `Path.Combine`;
  - the current culture's case-insensitive comparison, given as a key function. Two names are equal iff their keys are.
- **Decimal rendering.** The port is rendered by the model's own decimal rendering, not by .NET's culture-aware formatting.
- **Byte sums.** The sums of byte counts are unbounded integers. `long` overflow is not modelled.
- **Settings.** The settings singleton and `AppSettings` are passed in as values.
- **The `Torrents` service.** It is not part of this model. Its NZB parsing, link validation, hash assignment and record lookup are answers from the collaborator object (`getByHash`, `assignHash`).
- **The TorBox client** is not part of this model.
- **History path versus its tests.** The history's `Path` follows the code: it is the category, or "Default". The tests in `server/RdtClient.Service.Test/Services/SabnzbdTest.cs` (lines 127-191) expect the save path combined with the category and the name. The model does not reproduce that expectation; `Sabnzbd.HistoryPathIsCategoryOnly` states the path the code gives for the record of the first of those tests.
