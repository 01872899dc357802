# orange-common-lib logger and environment loader, modelled in Dafny

This project models two parts of the shared library used by the Orange bot processes.

**The logging sink** (`src/logger.ts`). `BaseLogger` owns three pieces of state:

- `logs`, the buffer of recent lines, capped at 50;
- `webhook_queue`, the FIFO of lines waiting for the Discord webhook;
- the webhook URL and its interval timer.

`log` formats a line: a cyan time stamp, an optional magenta `[prefix] ` and the message. It prints the line, stores it if storage is on (dropping the oldest line past 50), hands it to the `onlog` callback and, unless asked not to, queues it. One `sendWebhook` tick takes the head of the queue and posts it inside an `ansi` code fence. Each triple backtick that `split` cuts at, left to right and without overlap, is replaced by a zero-width-space lookalike. The tick then acts on the response:

- status 200, 201 or 204: the line is gone;
- any other status: `"[DELAYED LOG EVENT] " + line` goes to the tail of the queue;
- transport error: the line is dropped;
- a URL that `new URL` rejects: the line is lost before anything is sent, and no diagnostic is written.

A rejected status or a failed `fetch` writes a diagnostic line that is not queued. `PrefixLogger` is a prefix-scoped view on the one sink, with one method per level. `sublogger` extends the prefix with `" > " + name`.

**The environment loader** (`src/envcfg.ts`, `initEnv`). It is a three-stage merge into `process.env` and the exported `envData`:

1. Process variables with a non-empty value are copied into `envData`.
2. Every `.env` entry overwrites both maps.
3. Rows of the remote Supabase table fill only keys that `process.env` does not have yet. The first row for a key wins.

Between stages 2 and 3 the Supabase variables must be set, a client must exist, and sign-in and the table query must succeed. Otherwise the promise is rejected. The table is `orange_bot_environment_prod` when `NODE_ENV` is `production`, and `..._dev` otherwise.

Modules: `Wrappers` (Option), `Text` (JavaScript `split`/`join` and the fence escaping), `Style` (chalk colours as ANSI codes), `Logger` (`BaseLogger` and the functions that specify it), `Facade` (`PrefixLogger`, `getLogger`) and `EnvCfg` (`initEnv`).

Form:

- `BaseLogger` is a class whose methods update its fields. Its `Valid()` invariant keeps `|logs| <= 50` and exactly one armed interval once a webhook is set.
- Each method's postcondition gives the new state in terms of pure functions: `Retain`, `Requeue`, `FormatLine`, `Payload`.
- Lemmas about those functions state what a run of calls does.
- `initEnv` is a method whose three stages are loops.
- The remote stage is also specified by a left fold, `MergeRows`, and lemmas about the fold state its precedence rules.

Where the code differs from descriptions of its design, the model follows the code:

- A transport error drops the line; it is not re-queued. A rejected line is re-queued with the delayed marker in front, not unchanged.
- `PrefixLogger.log` applies no colour, although the `Logger` interface comment (src/logger.ts:15-19) calls it white text.
- The body has no newline before the closing fence.
- The escaping does not remove every triple backtick: a run of five backticks becomes the lookalike followed by two backticks, which with the lookalike's last backtick form a fence again (see `Text.EscapeCanKeepFence`).
- From an empty root prefix, `sublogger("x").sublogger("y")` has the prefix `" > x > y"`, which starts with `" > "` (see `Facade.PathPrefixJoins`).

## Model

| member | source | states |
|---|---|---|
| Text.Split | src/logger.ts:102 | `split` always yields at least one piece |
| Text.JoinSplit | src/logger.ts:102 | joining the pieces of a split with the same separator gives back the original string |
| Text.JoinLength | src/logger.ts:102 | the length of a join is the pieces' total plus one separator per gap, and no pieces give the empty string |
| Text.JoinSnoc | src/logger.ts:102 | joining one more piece appends a separator and that piece, so the pieces appear in order |
| Text.SplitPiecesAreFree | src/logger.ts:102 | no piece produced by `split` contains the separator |
| Text.SplitCutsAtLeftmost | src/logger.ts:102 | occurrences are cut left to right without overlap: in every piece followed by a separator, no occurrence starts inside the piece, even one running into that separator |
| Text.Escape | src/logger.ts:102 | the escaped body is the line with two characters added for each fence that `split` cuts at |
| Text.SplitAtLeftmost | src/logger.ts:102 | when no occurrence of the separator starts inside `a` before the separator that follows it, `split` of `a`, separator, `b` is `a` followed by the split of `b` |
| Text.EscapeStep | src/logger.ts:102 | the text before the leftmost fence is kept, that fence becomes the lookalike, and the rest is escaped in turn |
| Text.EscapeCanKeepFence | src/logger.ts:102 | five backticks escape to the lookalike followed by two backticks, which still contains a triple backtick |
| Text.EscapeWithoutFence | src/logger.ts:102 | a line with no triple backtick is sent unchanged |
| Text.StripEscape | src/logger.ts:102 | deleting the zero-width spaces from the escaped body recovers the line, provided the line had none |
| Text.DecimalString | src/logger.ts:105 | the status number is rendered as its decimal digits: non-empty, denoting exactly that number, with no leading zero |
| Style.Paint | src/logger.ts:115 | chalk leaves the empty string empty and frames any other text by the 5-character opening and closing codes; text without a line break is exactly the frame around it |
| Style.Encase | src/logger.ts:132-134 | inside the frame, text without a line break is unchanged |
| Style.EncaseSplitsLines | src/logger.ts:132-134 | for text without carriage returns (such as a multi-line `util.inspect` rendering), the framed text is its lines joined by close code, line break, open code |
| Logger.Payload | src/logger.ts:102 | the posted content is the `ansi` fence opener, the escaped line and the closing fence; stripping the zero-width spaces from the middle gives back the line |
| Logger.Stamp | src/logger.ts:114-116 | for a time text without a line break, the stamp is the text inside `[ ` and `] `, framed by the cyan opening code and the closing code (14 characters in all) |
| Logger.FormatLine | src/logger.ts:74 | a line starts with the time stamp and ends with the message |
| Logger.FormatLineShape | src/logger.ts:74 | a line is the stamp, then `[prefix] ` in magenta when the prefix is non-empty (nothing when it is empty or absent), then the message |
| Logger.FormatLineInjective | src/logger.ts:74 | two lines with the same time and prefix are equal exactly when their messages are |
| Logger.Retain | src/logger.ts:81-86 | push then shift-past-50 keeps a buffer of at most 50 lines that is exactly the last 50 of old buffer plus new line |
| Logger.RetainAllKeepsLast | src/logger.ts:81-86 | after any sequence of stored lines the buffer is the last (at most 50) of the old buffer followed by those lines, in order |
| Logger.RetainAllFromEmpty | src/logger.ts:81-86 | starting empty, N stored lines leave exactly the last min(N, 50) of them, oldest first |
| Logger.Requeue | src/logger.ts:97-111 | a tick removes exactly the old head and keeps the old tail in order; after a 200/201/204, a transport error or an invalid URL the queue is exactly the old tail; the length stays the same iff the status is not 200/201/204 and neither a transport error nor an invalid URL occurred, and then the new last line is the marker plus the old head |
| Logger.Diagnostic | src/logger.ts:104-110 | no diagnostic after a 200/201/204 or an invalid URL; otherwise one starting `failed to send log to discord: `, ending `, re-queuing...` after a rejected status and `, WILL NOT try re-queuing...` after a failed `fetch` |
| Logger.DrainNeverGrows | src/logger.ts:92-111 | no run of ticks makes the queue longer |
| Logger.DrainConsumed | src/logger.ts:97-111 | k ticks that are all accepted, transport errors or invalid URLs (k at most the queue length) leave exactly the queue without its first k lines |
| Logger.DrainRejected | src/logger.ts:104-107 | k rejected ticks (k at most the queue length) move the first k lines, marked as delayed and in their old order, behind the rest; the length is unchanged |
| Logger.RejectedLineGrowsMarkers | src/logger.ts:107 | a line whose every delivery is rejected carries one delayed marker per tick |
| Logger.BaseLogger.constructor | src/logger.ts:46-50 | a new sink has empty buffer and queue, storage off, no webhook and no interval |
| Logger.BaseLogger.SetStoreLog | src/logger.ts:55-57 | sets the storage flag and nothing else |
| Logger.BaseLogger.SetWebhook | src/logger.ts:61-65 | stores the URL and leaves exactly one armed interval however often it is called; buffer and queue are untouched |
| Logger.BaseLogger.Log | src/logger.ts:73-77 | the formatted line is printed, stored as `dolog` stores it, observed, and appended to the queue exactly when `logWebhook` holds; otherwise the queue is unchanged |
| Logger.BaseLogger.DoLog | src/logger.ts:78-88 | prints unless `nolog`, stores with eviction when storage is on and leaves `logs` unchanged when it is off, and notifies the callback; the queue is untouched |
| Logger.BaseLogger.LogWebhook | src/logger.ts:89-91 | appends the line to the tail of the queue and changes nothing else |
| Logger.BaseLogger.SendWebhook | src/logger.ts:92-113 | with an empty queue or no (or an empty) URL: no request and no state change; otherwise the old head is taken; unless the URL is invalid one request carries its payload; the queue becomes `Requeue(old queue, outcome)`, and a diagnostic is printed, stored only when storage is on, and never queued |
| Facade.PrefixLogger.constructor | src/logger.ts:123-125 | a view holds the given prefix and the shared sink |
| Facade.PrefixLogger.Log | src/logger.ts:126-128 | records the uncoloured message under the view's prefix and queues exactly that line |
| Facade.PrefixLogger.Error | src/logger.ts:129-135 | records the red message, or the rendering of a structured error, and queues exactly that line |
| Facade.PrefixLogger.Warn | src/logger.ts:136-138 | records the yellow message and queues exactly that line |
| Facade.PrefixLogger.Sublogger | src/logger.ts:139-141 | returns a new view on the same sink with prefix `prefix + " > " + subname`; this view is unchanged |
| Facade.PrefixLogger.Info | src/logger.ts:142-144 | records the blue message and queues exactly that line |
| Facade.PrefixLogger.Verbose | src/logger.ts:145-147 | records the gray message and leaves the queue unchanged |
| Facade.PrefixLogger.Ok | src/logger.ts:148-150 | records the green message and queues exactly that line |
| Facade.GetLogger | src/logger.ts:158-160 | returns a new view with the given prefix on the shared sink |
| Facade.PathPrefixJoins | src/logger.ts:139-141 | a chain of subloggers has prefix root, then `" > "`, then the names joined by `" > "` |
| EnvCfg.Imported | src/envcfg.ts:20-27 | the keys copied are exactly the process keys with a non-empty value |
| EnvCfg.ImportProcess | src/envcfg.ts:17-27 | `envData` receives exactly the process variables with non-empty values, with their values, and the counter equals the number copied |
| EnvCfg.ApplyLocal | src/envcfg.ts:34-41 | every parsed `.env` entry ends with its `.env` value in both maps, overriding earlier values; other entries are kept; the counter is the number of parsed entries |
| EnvCfg.LocalData | src/envcfg.ts:20-41 | after the process and `.env` stages every `envData` key is also a `process.env` key, the precondition of the remote-stage lemmas |
| EnvCfg.Gate | src/envcfg.ts:46-57 | the checks pass iff server, anonymous key, user name and password are truthy, a client exists and sign-in reported no error; a missing server, then a missing anonymous key, is the reported reason |
| EnvCfg.TableName | src/envcfg.ts:59 | the table suffix is `prod` iff `NODE_ENV` is `production`, otherwise `dev` |
| EnvCfg.ApplyRemote | src/envcfg.ts:63-77 | the loop over the rows computes exactly the fold `MergeRows` of the two maps and the counter |
| EnvCfg.MergeRows | src/envcfg.ts:62-75 | the remote fold only adds keys to both maps, and each row adds at most one to the counter |
| EnvCfg.MergeRowsKeys | src/envcfg.ts:66-71 | the process keys grow by exactly the rows' keys; `envData` gains exactly the rows' keys that were not process keys |
| EnvCfg.MergeRowsKeepsPresent | src/envcfg.ts:66-70 | a key already in `process.env`, even with an empty value, keeps its value in both maps; no remote row is written for it |
| EnvCfg.MergeRowsFirstWins | src/envcfg.ts:66-71 | a key not yet in `process.env` takes, in both maps, the value of the first row that names it |
| EnvCfg.MergeRowsAbsent | src/envcfg.ts:66-71 | a key no row names and not in `process.env` stays absent from both maps |
| EnvCfg.MergeRowsCount | src/envcfg.ts:71-76 | the remote counter equals the number of distinct row keys that were not already process keys, which is the number of rows not skipped |
| EnvCfg.InitEnv | src/envcfg.ts:15-81 | resolves iff every check passes and the query reports no error; rejects with the first failing check, or with the query error; a rejection applies no remote row; on resolve the maps are the remote fold over the `.env`-stage maps; the table is queried only once the checks pass |

## Left out

- Console output is recorded as a ghost trace (`console`), and the `onlog` callback as a ghost trace of the lines it receives (`observed`). A callback that callers assign, which could run arbitrary code, is not modelled.
- Time stamps: the ISO-8601 text of `new Date()` is a parameter (`now`) of every logging call.
- Style.Paint: chalk's colour-support detection, and its re-opening of a colour around close codes already in the text, are not modelled. A colour is always its ANSI code. The empty string and line breaks are modelled.
- `util.inspect` (src/logger.ts:132): the rendering of a structured error is an input (`ErrorArg.Inspected`).
- The network: `fetch` becomes its outcome, a `Delivery` that is a status and status text, or a transport error. URL parsing is not modelled either: whether `new URL` accepts the URL is the outcome `InvalidUrl`, and the TypeError it then throws out of the interval callback is not modelled further. The request is returned as the URL and the `content` string. The JSON serialisation of the body and the headers are not modelled.
- The interval timer is a count of armed intervals. The 2100 ms period, the event loop, and overlapping in-flight requests are not modelled. One tick is one atomic step with a given outcome.
- src/logger.ts:64 passes `this.sendWebhook` to `setInterval` unbound, and src/logger.ts:100 posts to `process.env.LOGGER_WEBHOOK_URI` rather than to `_webhook`. The model has the interval call the tick on the sink, and posts to the configured URL.
- Callers writing to the public `logs` array directly are not modelled.
- `miniLog` (src/envcfg.ts:7-13) and the `envs` key lists, which are only logged, are console output and are not modelled.
- Reading `.env` (dotenv), `createClient`, sign-in and the table query are inputs to `InitEnv`. dotenv also writes `process.env` itself; the loop then overwrites the same keys, so the result is the same.
- `createClient` throwing inside the async executor (an invalid URL) would leave the promise unsettled. This is not modelled.
- `if (process.env)` is always taken, because `process.env` always exists.
- `envData` is a module-level object that starts empty. The model starts stage 1 from the empty map, so a second call of `initEnv` is not modelled.
- Remote row values are strings. The coercion of a non-string value on assignment to `process.env` is not modelled.
- `src/configApiTypes/api_v1.ts` holds type declarations only. `src/index.ts` holds re-exports and `sleep`, a timer promise. Neither is part of this model.
