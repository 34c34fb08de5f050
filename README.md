# PriceControl AI chat app — verified model of its core

This project models, in Dafny, the parts of the web app that decide
things rather than display them:

- **Daily usage quota** (`apps/web/lib/usage.ts`). The app counts chat completions per user and day. Free users are capped and Pro users are not. The counter lives in a remote key–value store (INCR with a TTL that runs to the next UTC midnight). When the store is not configured, answers with a non-2xx status or returns a NaN result, the counter lives in a map owned by the process; a failed request or an unparsable 2xx body is an error that escapes. An over-limit remote increment is undone with a DECR. Modelled as the class `Usage.UsageEngine`, whose fields are that map and the log of commands sent to the store.
- **Rate limiter** (`apps/web/lib/rate-limit.ts`). It allows "at most `limit` calls per window per key" and fails open on store trouble. Also modelled are the password-reset call sites that use it.
- **Model catalogue** (`apps/web/lib/models.ts`). This covers the configured model groups and the lookup map built from them by a nested loop. It also covers the id queries and the per-mode default model.
- **OpenRouter endpoint** (`apps/web/lib/openrouter.ts`). This normalises the configured base URL to the chat-completions URL.
- **Route guard** (`apps/web/middleware.ts`). A visitor without a session token is redirected from `/dashboard`, `/account` and `/billing` and from any path below them.
- **Markdown sharder** (`scripts/shard-md.mjs`). It cuts a document at level-2 headings outside code fences and lowers the heading levels of each section. It writes one file per section, named by a slug of its title, plus an index linking them.

Shared helpers:

- `Text` holds the ECMAScript whitespace set, `trim`, `split` and `join`, with their round-trip lemmas.
- `Remote` holds the store's reply shapes and an INCR / EXPIRE NX / DECR / GET model of the store.
- `Wrappers` holds `Option`.

Clock readings, the calendar day, the store's replies and the session token are parameters of the operations that use them.

## Model

| member | source | states |
|---|---|---|
| Usage.NextUtcMidnight | apps/web/lib/usage.ts:20-23 | the midnight used is a UTC midnight (a multiple of a day in milliseconds), strictly after `now` and at most one day later, hence the first one after `now` |
| Usage.SecondsUntilMidnight | apps/web/lib/usage.ts:20-25 | the TTL is between 60 and 86400 seconds; it is the 60-second floor exactly when less than 61 seconds remain to that midnight, and otherwise the whole number of seconds left |
| Usage.DistinctDaysDistinctKeys | apps/web/lib/usage.ts:77-80 | two different days give the same user two different counter keys, so every day starts a fresh count |
| Usage.FormatKeyInjective | apps/web/lib/usage.ts:77-80 | with `yyyy-MM-dd` stamps, equal keys mean the same user and the same day, and conversely |
| Usage.ClassifyIncrement | apps/web/lib/usage.ts:35-59 | `incrementRedis` throws exactly on a network failure or an unparsable 2xx body. It yields a count exactly for a configured store's 2xx JSON reply whose result is not NaN (a missing result counts 0). Otherwise it yields null: the store is unconfigured, the status is not 2xx, or the result is NaN |
| Usage.SummaryCount | apps/web/lib/usage.ts:93-105 | a 2xx JSON reply with a numeric result gives exactly that number, and a non-zero count only ever comes from such a reply; every failure reads as 0 |
| Usage.FallbackIncrement | apps/web/lib/usage.ts:138-151 | the fallback path refuses exactly when a live entry is at or above the cap; an absent or lapsed entry restarts as count 1 expiring at `now` + TTL; a live entry below the cap goes up by one and keeps its expiry; an admitted count stays within 1..cap |
| Usage.ReplayFromLiveEntry | apps/web/lib/usage.ts:138-151 | starting from a live count c, call i is admitted exactly when c + i is under the cap, and the count ends at min(c + calls, cap) |
| Usage.DailyCapOnFallback | apps/web/lib/usage.ts:138-151 | within the first call's TTL on the fallback map, exactly the first `limit` calls are admitted; the entry ends at min(calls, limit) and lapses when the first call's TTL runs out, and a summary in that window reads min(calls, limit) |
| Usage.CompensationRestoresCount | apps/web/lib/usage.ts:129-136 | the INCR of an over-limit call followed by its DECR leaves that counter where it was; no other key changes |
| Usage.RemoteCall | apps/web/lib/usage.ts:129-136 | against a store that answers, a call is recorded exactly when the key's count plus one is within the cap, and is otherwise refused with remaining 0; the store ends as the INCR + EXPIRE NX, followed on refusal by the DECR, leave it; a refusal leaves the key's count where it was |
| Usage.DeliveredIsCount | apps/web/lib/usage.ts:56-58 | a store's 2xx reply carrying n reaches `recordUsage` as the count n, so `RecordUsage`'s count branch is `RemoteCall`'s decision |
| Usage.RemoteReplay | apps/web/lib/usage.ts:120-136 | threads the store through a run of calls on one key, one outcome and one read-back count per call, and leaves every other key as it was |
| Usage.RemoteReplayFromLiveCounter | apps/web/lib/usage.ts:129-136 | from a live counter c within the cap whose TTL outlasts the calls, call i is recorded exactly when c + i is under the cap, the key reads min(c + i + 1, cap) after it, and the TTL is kept |
| Usage.DailyCapOnRemote | apps/web/lib/usage.ts:120-136 | on a key with no live counter, within the first call's TTL, calls 1..limit are recorded, every later call is refused with remaining 0, and after each refusal the key reads `limit` again |
| Usage.UsageEngine.constructor | apps/web/lib/usage.ts:27-33 | the process starts with an empty fallback map, no commands sent, and the configuration it read |
| Usage.UsageEngine.RecordUsage | apps/web/lib/usage.ts:120-152 | covers every branch, with the TTL taken at the first clock read and the fallback map consulted at the second; the fallback map keeps every count in 1..free cap. Pro, or a cap of 0 or less: records with no effect. Remote count above the cap: refuses with remaining 0 after sending the DECR. Remote count within the cap: records. Escaping error: fails. Store unavailable: the fallback map is updated exactly as `FallbackIncrement` says |
| Usage.UsageEngine.GetUsageSummary | apps/web/lib/usage.ts:88-118 | reports the plan and its cap; the count comes from the store's GET when configured, else from the live fallback entry, and a lapsed entry is deleted; on the fallback path the count is within 0..free cap |
| Usage.GetPlanFromSession | apps/web/lib/usage.ts:154-156 | Pro exactly when the session's user has plan `"pro"`; anything missing means Free |
| Usage.GateChatRequest | apps/web/app/api/ai/route.ts:70-79 | the chat route answers 429 exactly when the quota was reached; other recording failures let the request through |
| Remote.IncrementWithExpiry | apps/web/lib/usage.ts:38-48 | INCR + EXPIRE NX replies with the key's live count plus one (1 for a missing or expired key) and stores it; a live key with a TTL keeps it, any other gets `now` + TTL; no other key changes |
| Remote.ExpiryFixedWithinWindow | apps/web/lib/usage.ts:44-47 | a second INCR while the key lives leaves the expiry the first one set, so the window does not slide |
| Remote.Decrement | apps/web/lib/usage.ts:61-75 | DECR stores the key's live count minus one (−1 for a missing or expired key), keeping a live key's TTL and giving the new key none; no other key changes |
| RateLimit.EnforceRateLimit | apps/web/lib/rate-limit.ts:21-61 | unconfigured or limit of 0 or less: allowed, `remaining` = limit. The only refusal is a numeric counter above the limit, and it reports remaining 0. A counted allowed call reports limit − counter, which is at least 0, and at most the limit when the counter is not negative. A non-2xx status fails open with that status as reason. A network error or unparsable body fails open as "limiter unavailable". A NaN counter is allowed with nothing reported |
| RateLimit.Burst | apps/web/lib/rate-limit.ts:26-50 | successive calls yield one verdict per call |
| RateLimit.BurstFromLiveCounter | apps/web/lib/rate-limit.ts:26-56 | against a live counter c, call i succeeds exactly when c + i + 1 ≤ limit; refused calls keep counting |
| RateLimit.FreshKeyBurst | apps/web/lib/rate-limit.ts:26-56 | on a fresh key within one window, calls 1..limit succeed with remaining limit−1 … 0 and every later call is refused with remaining 0 |
| RateLimit.FivePerWindow | apps/web/app/api/auth/reset-password/route.ts:55 | the invalid-token limit of 5: remaining 4, 3, 2, 1, 0, then the sixth call in the hour is refused |
| RateLimit.KeysAreIndependent | apps/web/lib/rate-limit.ts:26-40 | a call on one key leaves every other key's counter and later verdicts unchanged |
| RateLimit.CallSiteKeysDisjoint | apps/web/app/api/auth/forgot-password/route.ts:42-55 | the forgot-password and reset-password counters never share a key. The counters are IP, account, reset IP and invalid token |
| Models.LookupKeys | apps/web/lib/models.ts:69-75 | an id is in the lookup exactly when some option carries it, and its entry is such an option |
| Models.LookupFindsEachOption | apps/web/lib/models.ts:69-75 | with unique ids, each option is found under its own id |
| Models.BuildLookup | apps/web/lib/models.ts:69-75 | the nested loop builds exactly the map of the options in group order, the later option winning on a repeated id |
| Models.AllowedIffConfigured | apps/web/lib/models.ts:84-86 | an id is allowed exactly when a configured option carries it |
| Models.FindAgreesWithAllowed | apps/web/lib/models.ts:77-90 | in a well-formed catalogue, `findOptionById` finds an option exactly when the id is allowed, the option found carries that id, and the inferred mode is that option's mode |
| Models.FindEachOption | apps/web/lib/models.ts:77-80 | every configured option is found by its id |
| Models.FlattenFirstGroup | apps/web/lib/models.ts:95-100 | the options of the first group come first in the flattened list |
| Models.ResolvedModelIsAllowed | apps/web/lib/models.ts:92-117 | whatever the mode, the id it resolves to is an allowed id |
| Models.ConfiguredOptions | apps/web/lib/models.ts:19-67 | the configured catalogue's options are those of its two groups |
| Models.ConfiguredGroupsWellFormed | apps/web/lib/models.ts:19-67 | the configured ids are non-empty and distinct |
| Models.ConfiguredDefaults | apps/web/lib/models.ts:92-117 | no mode and "instruct" resolve to the 8B model, "reasoning" to the 70B model, their modes are inferred as such, and an unknown id is not allowed |
| OpenRouter.StripTrailingSlashes | apps/web/lib/openrouter.ts:10 | the result is the input without its run of trailing `/` |
| OpenRouter.BuildCompletionsUrl | apps/web/lib/openrouter.ts:7-12 | the URL always ends with `/chat/completions` |
| OpenRouter.BlankBaseGivesDefault | apps/web/lib/openrouter.ts:8-9 | a missing or blank base gives the default API root plus the path |
| OpenRouter.NoDoubleAppend | apps/web/lib/openrouter.ts:10-11 | a base that, trimmed and without trailing slashes, already ends in the path comes back in that form, and the path is not appended again |
| OpenRouter.AppendsAfterStrippingSlashes | apps/web/lib/openrouter.ts:10-11 | otherwise the path is appended to the base without its trailing slashes |
| OpenRouter.ResultIsClean | apps/web/lib/openrouter.ts:7-12 | the URL is non-empty, has no whitespace at either end and no trailing `/` |
| OpenRouter.Idempotent | apps/web/lib/openrouter.ts:7-12 | normalising a normalised URL changes nothing: the path is targeted exactly once |
| OpenRouter.RootLacksPath | apps/web/lib/openrouter.ts:9 | the default root is already trimmed, slash-free at the end and lacks the path |
| OpenRouter.RootGainsPath | apps/web/lib/openrouter.ts:7-12 | the API root gains the path |
| OpenRouter.FullEndpointUnchanged | apps/web/lib/openrouter.ts:7-12 | the full endpoint is returned unchanged |
| OpenRouter.SlashedBaseGainsPath | apps/web/lib/openrouter.ts:8-11 | a root that starts without whitespace, ends without `/` and lacks the path gives, with one `/` appended, the root plus the path |
| OpenRouter.TrailingSlashDropped | apps/web/lib/openrouter.ts:10-11 | the default root with a trailing `/` gives the default root plus the path |
| Middleware.AnyProtectsIff | apps/web/middleware.ts:13 | the `some` over the protected list holds exactly when some prefix covers the path |
| Middleware.ProtectedIff | apps/web/middleware.ts:5-13 | a path is protected exactly when it is, or lies below, `/dashboard`, `/account` or `/billing` |
| Middleware.SegmentMatching | apps/web/middleware.ts:13 | matching is per path segment: `/dashboardx` and `/public` are open, `/dashboard/reports` is protected |
| Middleware.Guard | apps/web/middleware.ts:11-23 | the token is looked up exactly for protected paths. The visitor is redirected to login exactly on a protected path without a token, and `next` carries the pathname |
| Middleware.OpenPathIgnoresToken | apps/web/middleware.ts:14 | on an open path the decision does not depend on the token |
| ShardMd.Slugify | scripts/shard-md.mjs:12-19 | a slug consists of `a-z`, `0-9` and `-` only, never with two dashes in a row |
| ShardMd.KeepSlugChars | scripts/shard-md.mjs:15 | only lower-case `a`–`z`, digits, whitespace and `-` survive; text of those only is unchanged |
| ShardMd.KeepSlugCharsAppend | scripts/shard-md.mjs:15 | the filter works piece by piece: the result for `a + b` is the result for `a` followed by the result for `b` |
| ShardMd.KeepCharAlone | scripts/shard-md.mjs:15 | a kept character stays and any other goes; with the lemma above this fixes the result on every input |
| ShardMd.DashForWhitespace | scripts/shard-md.mjs:17 | no whitespace remains; text without whitespace is unchanged |
| ShardMd.DashForWhitespaceAppend | scripts/shard-md.mjs:17 | the rewrite works piece by piece, a whitespace run being allowed to span the two pieces |
| ShardMd.DashCharAlone | scripts/shard-md.mjs:17 | whitespace opening a run becomes `-`, whitespace continuing a run goes, and any other character stays; with the lemma above this fixes the result on every input |
| ShardMd.SqueezeDashes | scripts/shard-md.mjs:18 | no two dashes remain adjacent; text without a dash run is unchanged |
| ShardMd.SqueezeDashesAppend | scripts/shard-md.mjs:18 | the rewrite works piece by piece, a dash run being allowed to span the two pieces |
| ShardMd.SqueezeCharAlone | scripts/shard-md.mjs:18 | a dash opening a run stays, a dash continuing a run goes, and any other character stays; with the lemma above this fixes the result on every input |
| ShardMd.SlugifyExample | scripts/shard-md.mjs:12-19 | `A& b` becomes `a-b`: lowered, `&` dropped, the space turned into a dash |
| ShardMd.SlugifyIdempotent | scripts/shard-md.mjs:12-19 | slugifying a slug changes nothing |
| ShardMd.SlugIsPlainFileName | scripts/shard-md.mjs:95 | a slug holds no whitespace, `/` or `.`, so a section file stays in the output folder |
| ShardMd.LeadingHashes | scripts/shard-md.mjs:28 | the count of `#` characters that open the line |
| ShardMd.AdjustLineSpec | scripts/shard-md.mjs:25-35 | a matching heading of level 2..6 loses one `#`, keeps one space and keeps its text; any other line is unchanged, and `#` headings stay level 1 |
| ShardMd.AdjustLineNoNewline | scripts/shard-md.mjs:25-35 | adjusting a line never introduces a line break |
| ShardMd.AdjustHeadingLevelsByLine | scripts/shard-md.mjs:21-37 | the adjusted text has as many lines as the input, line i being line i adjusted |
| ShardMd.AdjustWithoutHeadings | scripts/shard-md.mjs:21-37 | text without adjustable headings comes back unchanged |
| ShardMd.SplitLines | scripts/shard-md.mjs:43 | splitting on `\r?\n` yields as many lines as splitting on `\n`, none holding a line feed |
| ShardMd.SplitLinesSpec | scripts/shard-md.mjs:43 | the lines are the `\n` split of the text with every `\r\n` turned into `\n`, and joined with `\n` they give that text back |
| ShardMd.SplitLinesWithoutCarriageReturns | scripts/shard-md.mjs:43 | without `\r`, it is the plain `\n` split and joining it back gives the text |
| ShardMd.ShardLines | scripts/shard-md.mjs:44-80 | the loop's sections and preface are exactly those of the fold of the per-line step over the lines |
| ShardMd.FenceParity | scripts/shard-md.mjs:53-63 | after any prefix of lines, the loop is inside a fence exactly when an odd number of fence lines was seen; outside a fence the tag is empty |
| ShardMd.StepSections | scripts/shard-md.mjs:65-78 | an H2 outside a fence closes the pending section, if titled, and opens one holding the heading. Any other line goes to the pending titled section, or else to the preface |
| ShardMd.StepFence | scripts/shard-md.mjs:53-63 | a fence line toggles the fence; opening records its tag, closing clears it |
| ShardMd.SectionHeads | scripts/shard-md.mjs:65-71 | the heading lines that open sections are lines of the document |
| ShardMd.RunWellFormed | scripts/shard-md.mjs:65-80 | every section ever formed starts with its own H2 line and has that line's non-empty trimmed title |
| ShardMd.RunHeads | scripts/shard-md.mjs:65-80 | the sections' first lines are exactly the titled H2 lines outside fences, in order |
| ShardMd.SectionsStartAtHeadings | scripts/shard-md.mjs:44-80 | every section is well formed, and the sections begin at exactly the titled H2 lines outside fences, in order |
| ShardMd.Reassemble | scripts/shard-md.mjs:44-80 | when no H2 outside a fence has a blank title, the preface followed by the sections' lines is the document: nothing is lost, duplicated or reordered |
| ShardMd.BlankHeadingDropped | scripts/shard-md.mjs:65-78 | an H2 outside a fence whose title is blank closes the pending section but opens none: the heading line is never output, and the next line that opens no section goes to the preface |
| ShardMd.TitleOfBlank | scripts/shard-md.mjs:65-71 | `## ` is a level-2 heading whose title is blank |
| ShardMd.IndexLines | scripts/shard-md.mjs:85-88 | the index is the trimmed preface, a blank line, `## Sections`, one link line per section in order, and a final newline |
| ShardMd.IndexLinksEverySection | scripts/shard-md.mjs:43-88 | the same, for the outline of any document, so every section gets exactly one link |
| ShardMd.SectionFileStartsWithTitle | scripts/shard-md.mjs:92-97 | each section file starts with `# ` and the section's title, its H2 promoted one level |
| Text.TrimProperties | scripts/shard-md.mjs:16 | the trimmed text has no whitespace at either end, text without any is unchanged, and only all-whitespace text trims to empty |
| Text.JoinSplit | scripts/shard-md.mjs:23-36 | joining the pieces of a split gives back the text |
| Text.SplitJoin | scripts/shard-md.mjs:23-36 | splitting a join of separator-free pieces gives back the pieces |

## Left out

- HTTP, JSON parsing and the pipeline request bodies are left out. The store's reply is a parameter reduced to its status, and to whether the body parsed and what its first `result` is (missing, a number, or NaN).
- Concurrency is left out. Parallel requests and several processes each with their own fallback map are not modelled; the model is one engine serving one call at a time.
- Clock and calendar: clock readings are parameters. `RecordUsage` takes two, `now` for the TTL and `later` for the fallback map, read after the store's round trip; the model does not require them to be ordered, since the system clock can step back. The fallback and remote replays take, per call, the TTL it computed and the instant its counter is touched, and relate the TTL to no clock. The `yyyy-MM-dd` stamp comes from the server's local date (date-fns `format`) while the TTL runs to UTC midnight. The stamp is therefore a separate parameter, and the model does not relate it to `now`.
- Environment parsing is left out. `Number(process.env…)` can yield NaN or fractions for the caps; the caps are integers here.
- Counters are unbounded integers. Floating-point rounding of huge counts is left out.
- Usage.UsageEngine.RecordUsage: `UsageLimitError`'s message text is not modelled. Its `remaining` field is (always 0).
- Usage.RemoteCall: the store's clock is taken to be the instant of the call, and the compensating DECR to land at the same instant as the INCR. The store's reply is taken to be what it answered, which the model does not tie to the reply `RecordUsage` receives beyond `DeliveredIsCount`.
- RateLimit.EnforceRateLimit: the reason strings are modelled as the datatype `Reason` (status, or unavailable), not as text.
- RateLimit.EnforceOnStore: this is a helper for the sequence lemmas. It assumes a healthy store and a positive limit, and otherwise passes a reply that is never read. One instant serves as the store's clock and as the clock `resetAt` is computed from, which the code reads again after the round trip.
- Models: the `description` and `tooltip` fields are left out, as they are display text; `label` is kept as data. `OPENROUTER_MODEL_IDS` is the key set of the lookup and has no member of its own. The `label` of `OPENROUTER_MODELS` is not modelled, only its `id`.
- Middleware: `getToken`'s JWT decoding is a parameter (`Option<Token>`). The redirect URL is reduced to its `next` parameter. `config.matcher`, which the framework applies before the guard runs, is not part of the guard's logic. A route-protection test expects the query string in `next`; the code sets the pathname only, and the model follows the code.
- ShardMd.Slugify: `toLowerCase` is modelled for ASCII letters only. Non-ASCII letters are dropped by the next step either way, except letters whose lower case is ASCII (such as the Kelvin sign), which the model does not cover.
- ShardMd: the file system (reading the source, creating the folder, writing files), the command-line entry point and console output are left out. The model produces the outline, the index text, the file names and the file bodies.
- ShardMd.SectionFileStartsWithTitle: stated only for sections whose heading line holds no line terminator. JavaScript's `.` stops at U+2028 and U+2029, which `\r?\n` splitting leaves in place, and the heading regex then does not match.
- The Stripe webhook, the legacy counters, the React components, the zod schemas and the remaining API routes are not part of this model. The chat route enters only through its usage gate.
