# A verified model of the notifier's dispatch core

The notifier is a consumer of a task stream. It reads notify-task ids from
the stream and looks the tasks up in the task table, together with their
producer (the notification destination) and the producer's secrets. It
keeps the tasks still waiting for dispatch (`handing` or `retry`). For each
one it posts the task's payload to the producer's URL, signed with
HMAC-SHA1 over a canonical string and carried in an `Authorization` header.
Each attempt ends in `succeed`, in a scheduled `retry` (a ten-entry backoff
table) or in `failure`. The repository's end-to-end test holds the
receiving end. It parses the header, checks the secret id and the
timestamp's freshness, and recomputes the signature.

The model has these modules:

- `QueueReply`: the reply of the consumer-group read as a value (nil, bulk
  string, array) with JavaScript's destructuring and truthiness written out.
  `ReadMsgs` is the imperative decoder.
- `Records`: the task row, producer, secret, hydrated task and the partial
  update `Patch`. `TaskStore` is the task table as a class whose
  `UpdateNotifyTask` applies an update by id.
- `Dao`: the post-processing of the task lookup. It runs in place over an
  array of tasks and is specified by `HydrateAll`.
- `Eligibility`: the service's `queryTasks` filter, specified by `Eligible`.
- `JsStrings`: the JavaScript string operations used: `${n}`, `trim`,
  `split`, `substring`, `join` and the default sort order.
- `QueryString`: `getQueryStr`. It is an in-place insertion sort of the keys,
  proved equal to a reference sort, then rendered as `key=value` pairs
  joined with `&`. The signer and the receiver share this one definition,
  because the repository uses the same text for both.
- `Signing`: the canonical string, the signature and the header format.
- `Backoff`: the retry table and the failure record the handler writes.
- `Dispatch`: `notify` and `handler` as methods on a `TaskStore`, specified
  by the list of writes one run makes (`NotifyAttempt`, `HandlerWrites`).
- `Receiver`: `getAuthInfo` and `verifySignature`. It also holds the round
  trip between the header the dispatcher builds and the receiver's parse,
  and the end-to-end lemma that a delivered request verifies.

Library calls are parameters:

- `Dispatch.Env` holds URL parsing, AES decryption, HMAC-SHA1, Base64,
  `JSON.stringify`, the HTTP POST (true when it resolves) and the
  failure-reason text.
- `Dao` takes `JSON.parse` as a partial function.
- The clock readings of one run are a `Dispatch.Clock`, in milliseconds.

Two behaviours of the code are modelled as written:

- The retry delay and the terminal check read `retries` as loaded, before
  the handled-mark's increment (`Dispatch.PreIncrementBackoff`).
- The signer computes its query string from `url.searchParams`. That object
  has no own enumerable keys, so the signer always signs the empty query
  string, `QueryStr(map[], [])`. A receiver that sees a non-empty query
  therefore computes a different canonical string
  (`Receiver.QueryChangesCanonical`).

## Model

| member | source | states |
|---|---|---|
| QueueReply.DecodeEntry | src/service.js:69-75 | definition of the checks on one entry; EntryAccepted states when it accepts and what it yields |
| QueueReply.DecodeEntries | src/service.js:67-78 | definition of the entry loop; its properties are EntriesAccepted, PrefixFailure and FirstMalformedEntryDecides |
| QueueReply.DecodeInfos | src/service.js:61-68 | definition of the loop over whatever value `infos` holds: nil or missing cannot be indexed, a string gives an entry without content |
| QueueReply.DecodeReply | src/service.js:53-80 | definition of what `readMsgs` returns or raises for a reply; its properties are EmptyReply, RejectedShapes and DecodeWellFormedReply, and ReadMsgs computes it |
| QueueReply.ReadMsgs | src/service.js:53-80 | the imperative decoder returns exactly `DecodeReply`: `[]` for a falsy reply, the first failing shape check's error, or the `tid` values |
| QueueReply.EmptyReply | src/service.js:53 | a nil or empty reply yields the empty id list |
| QueueReply.RejectedShapes | src/service.js:58-64 | a truthy reply that is not an array whose first element is an array, or whose first stream key is not `insbiz:` + the queue key, is an error |
| QueueReply.EntryAccepted | src/service.js:69-77 | one entry is accepted iff it has a truthy id, an array content whose first field is `tid` and a truthy value; it then yields that value |
| QueueReply.EntriesAccepted | src/service.js:67-80 | the entry loop succeeds iff every entry is well formed, and then returns one `tid` per entry in entry order |
| QueueReply.PrefixFailure | src/service.js:68-78 | an error raised on a prefix of the entries is the result of the whole loop, so no partial list is returned |
| QueueReply.FirstMalformedEntryDecides | src/service.js:68-78 | when entries are malformed, the error is that of the first malformed entry |
| QueueReply.DecodeWellFormedReply | src/service.js:58-80 | a reply for this stream is accepted iff all its entries are well formed, and then yields exactly their `tid` values in order |
| Eligibility.ReplyString | src/service.js:96 | definition of `${taskId}` for a value taken from a queue reply |
| Eligibility.Pick | src/service.js:95-108 | definition of what one iteration keeps for an id: the found task, if it is `handing` or `retry` |
| Eligibility.Eligible | src/service.js:94-112 | definition of the filter's result; its properties are EligibleSound, EligibleComplete, EligibleAt and SkippedId, and FilterTasks computes it |
| Eligibility.FindTask | src/service.js:96 | the found task is the first of the looked-up tasks whose id's decimal string is the key; none is found only when no task has that id string |
| Eligibility.FilterTasks | src/service.js:94-112 | the loop returns `Eligible(taskIds, rsts)` |
| Eligibility.QueryTasks | src/service.js:88-113 | `queryTasks` fails iff the hydration fails, with its error; otherwise it returns the eligible tasks of the hydrated lookup |
| Eligibility.EligibleAppend | src/service.js:94-109 | the filter works id by id: it distributes over concatenation of the id list |
| Eligibility.EligibleSound | src/service.js:94-112 | every kept task is a looked-up task, is `handing` or `retry`, and is named by a requested id compared as strings; the result is no longer than the id list |
| Eligibility.EligibleAt | src/service.js:94-109 | the tasks kept for the id at position j sit between those kept for the ids before and after it, so the order of `taskIds` is kept |
| Eligibility.EligibleComplete | src/service.js:94-108 | a requested id that names a dispatchable task contributes that task |
| Eligibility.SkippedId | src/service.js:96-106 | an id with no matching task, or whose task is not `handing`/`retry`, contributes nothing |
| Eligibility.DecimalIdFindsTask | src/service.js:96 | the decimal text of a task's id, as the queue carries it, finds that task |
| JsStrings.NatToString | src/service.js:163 | `${n}` is a non-empty string of decimal digits |
| JsStrings.DecimalValue | test/service-test.js:125-126 | definition of the number a digit string denotes; DecimalRoundTrip inverts NatToString with it |
| JsStrings.DecimalRoundTrip | test/service-test.js:125-126 | the number a digit string coerces to, read back from `${n}`, is `n` |
| JsStrings.NatToStringLengthBounds | test/service-test.js:123 | `${n}` has at most k digits iff n < 10^k |
| JsStrings.TrimStart | test/service-test.js:101 | the result is a suffix of the input; every character removed before it is white space, and it does not start with white space |
| JsStrings.TrimEnd | test/service-test.js:101 | the result is a prefix of the input; every character removed after it is white space, and it does not end with white space |
| JsStrings.Trim | test/service-test.js:101 | definition of `s.trim()` as `TrimEnd(TrimStart(s))`; its meaning is stated by TrimSpec |
| JsStrings.TrimSpec | test/service-test.js:101 | `trim` removes exactly a white-space prefix and a white-space suffix, and the result neither starts nor ends with white space |
| JsStrings.TrimNoEdgeSpace | test/service-test.js:101 | `trim` leaves a string without leading or trailing white space unchanged |
| JsStrings.TrimLeadingSpace | test/service-test.js:102 | `trim` removes the single space after a comma |
| JsStrings.Join | src/service.js:129 | definition of `pairs.join(sep)`; used by QueryStr, whose properties are QueryStrShape and QueryStrOrderFree |
| JsStrings.IndexOf | test/service-test.js:95 | the index of the first occurrence of the character, or the length when it does not occur |
| JsStrings.Split | test/service-test.js:95 | `split` always yields at least one piece |
| JsStrings.SplitNone | test/service-test.js:95 | a string without the separator splits into itself |
| JsStrings.SplitFirst | test/service-test.js:95 | a string splits first at its first separator |
| JsStrings.IndexOfAfter | test/service-test.js:95 | proof step: the first separator after a separator-free prefix is at the prefix's length |
| JsStrings.SubstringFrom | test/service-test.js:115 | `substring(n)` has length \|s\| - n (0 when n passes the end), its i-th character is `s[n + i]`, and for n within the string the first n characters followed by it give `s` back |
| JsStrings.SubstringFromSuffix | test/service-test.js:115 | proof step: `substring(n)` within the string is the suffix from n |
| JsStrings.StrLe | src/service.js:122 | definition of the default sort order, lexicographic on characters; it is a total order by StrLeTotal, StrLeTrans and StrLeAntisymmetric |
| JsStrings.StrLeTotal | src/service.js:122 | the sort order is total |
| JsStrings.StrLeTrans | src/service.js:122 | the sort order is transitive |
| JsStrings.StrLeAntisymmetric | src/service.js:122 | the sort order is antisymmetric |
| QueryString.Insert | src/service.js:122 | definition of insertion into a sorted list, for the reference sort; its properties are InsertElements and InsertSpec |
| QueryString.SortStrings | src/service.js:122 | definition of the reference sort; SortStringsSpec proves it sorted and a permutation, SortedUnique makes any sorted permutation equal to it |
| QueryString.SortedCons | src/service.js:122 | proof step: a key at or below every element of a sorted list can go in front of it |
| QueryString.InsertElements | src/service.js:122 | proof step: insertion adds exactly one copy of the key |
| QueryString.InsertSpec | src/service.js:122 | insertion into a sorted list keeps it sorted and adds the key |
| QueryString.SortStringsSpec | src/service.js:122 | the reference sort yields a sorted permutation of the keys |
| QueryString.SortedUnique | src/service.js:122 | two sorted permutations of the same keys are equal |
| QueryString.Swap | src/service.js:122 | exchanging two keys in place permutes the array |
| QueryString.InsertingStart | src/service.js:122 | proof step: a sorted prefix gives the insertion invariant with the new key at its own position |
| QueryString.SwapInPrefix | src/service.js:122 | proof step: a swap inside the prefix permutes the prefix and leaves the rest of the array alone |
| QueryString.PrefixPermutedWhole | src/service.js:122 | proof step: a permuted prefix with the rest unchanged permutes the whole array |
| QueryString.InsertingStep | src/service.js:122 | proof step: swapping the new key below a greater left neighbour keeps the insertion invariant one position lower |
| QueryString.InsertingDone | src/service.js:122 | proof step: once the new key reaches the front or a neighbour at or below it, the prefix is sorted |
| QueryString.InsertAt | src/service.js:122 | one step of the in-place sort leaves `a[..i + 1]` sorted and a permutation of its old contents, and `a[i + 1..]` unchanged |
| QueryString.SortKeys | src/service.js:121-122 | `keys.sort()` leaves the array sorted and a permutation of its old contents |
| QueryString.QueryStr | src/service.js:120-130 | definition of the query string as the `&`-join of the pairs over the sorted keys; its properties are EmptyQuery, QueryStrOrderFree and QueryStrShape, and GetQueryStr computes it |
| QueryString.Pairs | src/service.js:124-127 | one `key=value` per key, in the keys' order |
| QueryString.GetQueryStr | src/service.js:120-130 | the imperative `getQueryStr` (sort in place, push pairs, join) returns `QueryStr` over the sorted keys |
| QueryString.EmptyQuery | src/service.js:120-130 | an object without own keys gives the empty query string |
| QueryString.QueryStrOrderFree | src/service.js:121-122 | the query string does not depend on the order of the object's keys |
| QueryString.QueryStrShape | src/service.js:120-130 | the query string is the `&`-join of `key=value` over a sorted permutation of the keys |
| Dao.HasData | src/dao.js:43 | definition of `if (task.data)`: the column is neither null nor empty |
| Dao.SecretsOf | src/dao.js:54-56 | definition of the secrets filter; SecretsOfSpec states its meaning |
| Dao.Hydrate | src/dao.js:42-56 | definition of one iteration of the `forEach`: parse `data` (or `{}`) and attach the producer's secrets |
| Dao.HydrateAll | src/dao.js:41-57 | definition of the whole `forEach`; its properties are HydrateAllSpec and HydratePrefixFailure, and HydrateInPlace computes it |
| Dao.ProducerIds | src/dao.js:34 | the secret query asks for each task's producer id, one per task, in order |
| Dao.HydrateInPlace | src/dao.js:41-57 | the `forEach` over the lookup array leaves in it `HydrateAll` of its old contents, or reports the first task whose data does not parse |
| Dao.QueryTasks | src/dao.js:28-59 | an empty lookup is returned unchanged with no secret query; otherwise the secret query asks for the producer ids and the result is `HydrateAll` |
| Dao.HydratePrefixFailure | src/dao.js:44-48 | a parse failure on a prefix of the tasks aborts the whole batch with that error |
| Dao.HydrateAllSpec | src/dao.js:41-59 | hydration fails iff some task's data does not parse, reporting the first such task; otherwise it returns the same tasks in the same order, each with `dataParsed` = parse(data) or `{}` and `Secrets` = its producer's secrets, and nothing else changed |
| Dao.SecretsOfSpec | src/dao.js:54-56 | a task's secrets are exactly those with its producer id, in the secret query's order |
| Records.ApplyPatch | src/dao.js:67-69 | an update never changes a row's id, type, data or producer |
| Records.UpdateById | src/dao.js:67-69 | an update by id keeps the set of row ids |
| Records.UpdatesById | src/dao.js:67-69 | a sequence of updates by id keeps the set of row ids |
| Records.UpdateChangesOnlyListedFields | src/dao.js:67-69 | an update changes exactly the listed columns of the row with that id; every other column and row keeps its value |
| Records.UpdatesTouchOneRow | src/dao.js:67-69 | a sequence of updates of one row leaves every other row alone |
| Records.UpdatesSnoc | src/dao.js:67-69 | proof step: one more update after a sequence is the sequence extended by it |
| Records.UpdatesOneOrTwo | src/dao.js:67-69 | proof step: one or two updates in a row are those updates applied in order |
| Records.TaskStore.UpdateNotifyTask | src/dao.js:67-69 | the store's table after the call is the update by id of the table before it |
| Signing.UnixSeconds | src/service.js:157 | definition of the timestamp in seconds, `Math.floor(Date.now() / 1000)` |
| Signing.BodyText | src/service.js:163 | definition of `${rawBody}`: an undefined body prints as "undefined" |
| Signing.CanonicalString | src/service.js:163 | definition of the signed string; CanonicalAgreement and QueryChangesCanonical relate the signer's and the receiver's |
| Signing.Signature | src/service.js:161-166 | definition of the signature as Base64 of the HMAC-SHA1 of the canonical string under the key |
| Signing.AuthHeader | src/service.js:175 | definition of the header text; ParseRoundTrip and HeaderRoundTrip show the receiver reads it back |
| Backoff.RetryInterval | src/service.js:215-226 | definition of the ten-entry table; its values are stated by BackoffSchedule |
| Backoff.RetryDelayMillis | src/service.js:229-234 | definition of the table's delay in milliseconds, none past the table; BackoffSchedule and DelaysStrictlyIncreasing state it |
| Backoff.RetryStatus | src/service.js:228 | definition of `task.retries > 9 ? 'failure' : 'retry'` |
| Backoff.FailureMark | src/service.js:203-235 | definition of the record the handler writes after `notify` threw; FailureMarkSpec states its meaning |
| Backoff.BackoffSchedule | src/service.js:215-234 | the delay after a failure with 0..9 earlier attempts is 15 s, 30 s, 3 min, 10 min, 20 min, 30 min, 60 min, 3 h, 6 h, 24 h; there is none for 10 or more |
| Backoff.DelaysStrictlyIncreasing | src/service.js:215-226 | each retry waits strictly longer than the one before |
| Backoff.FailureMarkSpec | src/service.js:203-235 | the failure record is `retry` iff the error is retryable and the loaded count is at most 9, else `failure`; it has a retry time exactly then, at base + the table's delay; it writes finishedAt and failureReasons and never retries or handledAt |
| Dispatch.Validate | src/service.js:137-142 | definition of the checks before the first write; ValidateSpec states when it rejects |
| Dispatch.HandledMark | src/service.js:145-151 | definition of the first write; HandledMarkSpec states its effect on the row |
| Dispatch.SucceedMark | src/service.js:186-192 | definition of the success write; HandlerOutcome states its effect on the row |
| Dispatch.RawBody | src/service.js:160 | definition of `JSON.stringify(task.dataParsed.body)`: a null or missing `dataParsed` throws, a missing `body` gives undefined |
| Dispatch.BuildRequest | src/service.js:153-178 | definition of the signed request; DeliveredRequestVerifies shows the receiver accepts it |
| Dispatch.NotifyAttempt | src/service.js:136-193 | definition of one run of `notify` as its writes, request and error; NotifyOutcome states its meaning and Notify computes it |
| Dispatch.HandlerWrites | src/service.js:199-238 | definition of one run of `handler` as its writes; HandlerOutcome, RetryLimit and PreIncrementBackoff state their effect and Handler computes them |
| Dispatch.ValidateSpec | src/service.js:137-142 | a task is rejected before any write iff its secret list is missing, it has no producer, the URL is null or empty, or the list is empty; otherwise the target is the URL and the first secret |
| Dispatch.RejectedTaskFailsOutright | src/service.js:137-142 | a rejected task gets no write from `notify`, nothing is posted, the error is not retryable, and `handler` writes `failure` with no retry time |
| Dispatch.NotifyOutcome | src/service.js:136-193 | `notify` succeeds iff the task validates, the request can be built and the POST resolves; only a failed POST is retryable; the first write of a validated task is the handled-mark |
| Dispatch.HandledMarkSpec | src/service.js:145-151 | the handled-mark sets handledAt to the clock reading and `retries` to 0 when `retryAt` is null, else to one more; nothing else changes |
| Dispatch.Notify | src/service.js:136-193 | `notify` returns the request it posted and the error it threw, and the table after it is the table updated by the run's writes: none, the handled-mark, or the handled-mark then the success mark |
| Dispatch.Handler | src/service.js:199-238 | `handler` leaves the table updated by `notify`'s writes followed, if it threw, by the failure record built from the loaded retries |
| Dispatch.HandlerOutcome | src/service.js:199-238 | after `handler` the row is `succeed` iff `notify` did not throw, `retry` iff the POST failed with a loaded count ≤ 9, else `failure`; success writes status and finishedAt; failure writes status, finishedAt, failureReasons and retryAt; only the handled-mark writes handledAt and retries |
| Dispatch.HandlerWritesRetriesOnlyInHandledMark | src/service.js:203-211 | no write of `handler` other than the handled-mark writes `retries` |
| Dispatch.RetryLimit | src/service.js:228-234 | a task loaded with 10 or more counted attempts ends as `failure` with no retry time even when its POST fails |
| Dispatch.PreIncrementBackoff | src/service.js:228-229 | a fresh task whose POST fails is retried in 15 s with `retries` 0; when that retry fails too, `retries` becomes 1 and the delay is again 15 s |
| Receiver.ParseAuthorization | test/service-test.js:91-116 | definition of the parsing half of `getAuthInfo`; its properties are ParsedHeader and ParseRoundTrip |
| Receiver.ParseParts | test/service-test.js:95-116 | definition of the checks on the comma-separated parts; ParsedParts and PartsParse state both directions |
| Receiver.CheckCredentials | test/service-test.js:118-131 | definition of the secret-id and timestamp checks; CheckCredentialsSpec states when they accept |
| Receiver.GetAuthInfo | test/service-test.js:89-132 | definition of `getAuthInfo`; MissingHeaderOrPartsRejected and HeaderRoundTrip state its result |
| Receiver.VerifySignature | test/service-test.js:155-174 | definition of `verifySignature`; DeliveredRequestVerifies shows a delivered request passes it |
| Receiver.MissingHeaderOrPartsRejected | test/service-test.js:91-98 | a missing or empty header, or one without a comma, is refused |
| Receiver.SplitKey | test/service-test.js:101-107 | proof step: a part whose first `=`-field is the key and that goes on past it starts with `key=`, and when its second field is non-empty it is longer than `key=` |
| Receiver.ParsedHeader | test/service-test.js:95-116 | a header that parses has three parts starting, trimmed, with `SecretId=`, `Timestamp=` and `Signature=`; the id and timestamp are the non-empty values after the first two keys; the signature is the whole rest after `Signature=` |
| Receiver.ParsedParts | test/service-test.js:101-116 | proof step: parts that parse start, trimmed, with the three keys, and the credentials are the values after them |
| Receiver.ParsedFields | test/service-test.js:101-116 | proof step: parts that parse have the three keys as first `=`-fields and non-empty values |
| Receiver.KeyedFields | test/service-test.js:101-116 | proof step: three trimmed parts with those fields start with `SecretId=`, `Timestamp=` and `Signature=` |
| Receiver.DigitsPiece | test/service-test.js:102 | proof step: decimal text has no `=` and does not end in white space, so it survives `trim` and `split('=')` |
| Receiver.CheckCredentialsSpec | test/service-test.js:118-131 | the checks accept iff the secret id is the receiver's and the timestamp is ten decimal digits no more than a minute old; they pass the timestamp text and signature through |
| Receiver.AuthHeaderSplit | test/service-test.js:95 | proof step: a header the dispatcher built splits at its commas into exactly its three pairs |
| Receiver.SplitThree | test/service-test.js:95 | proof step: three pieces free of the separator, joined by it, split back into those pieces |
| Receiver.PairFields | test/service-test.js:101-103 | proof step: `key=value` with no `=` in the key splits first at that `=`, and the rest after it is the value |
| Receiver.TrimPair | test/service-test.js:101-103 | proof step: trimming a pair, with or without its leading space, gives the pair |
| Receiver.FirstPairFields | test/service-test.js:101 | proof step: the first pair, trimmed and split, is `[key, value]` |
| Receiver.LaterPairFields | test/service-test.js:102 | proof step: a later pair, trimmed and split, is `[key, value]` |
| Receiver.LaterPairKey | test/service-test.js:103 | proof step: a later pair's first `=`-field is its key |
| Receiver.LaterPairValue | test/service-test.js:115 | proof step: a later pair's rest after `key=` is its value, `=` included |
| Receiver.PartsParse | test/service-test.js:95-116 | proof step: three parts carrying the three keys and non-empty values parse into those values |
| Receiver.HeaderSecretIdFields | test/service-test.js:101 | proof step: the built header's first part splits into `SecretId` and the id |
| Receiver.HeaderTimestampFields | test/service-test.js:102 | proof step: the built header's second part splits into `Timestamp` and the decimal timestamp |
| Receiver.HeaderSignatureFields | test/service-test.js:103-115 | proof step: the built header's third part has key `Signature`, and its rest after 10 characters is the signature |
| Receiver.ParseRoundTrip | test/service-test.js:91-116 | parsing the header `SecretId=id, Timestamp=ts, Signature=sig` gives back exactly id, `${ts}` and sig |
| Receiver.HeaderRoundTrip | test/service-test.js:89-132 | for a built header, `getAuthInfo` refuses a foreign id, then a timestamp outside 10^9..10^10-1, then one more than a minute old, and otherwise returns `${ts}` and the signature |
| Receiver.CanonicalAgreement | test/service-test.js:166-170 | the receiver's canonical string equals the signer's for the same path, empty query and body |
| Receiver.QueryChangesCanonical | test/service-test.js:160-168 | a non-empty received query makes the receiver's canonical string differ from the signer's, whose query is always empty |
| Receiver.JoinNonEmpty | test/service-test.js:148 | proof step: a join whose first piece is non-empty is non-empty |
| Receiver.DeliveredRequestVerifies | test/service-test.js:155-174 | the request `notify` posts passes `verifySignature` when: the receiver has the secret id and the decrypted key; it sees the URL's path, no query and the posted body; it checks within 59 s of signing; the signing time has ten digits in seconds; the secret id is non-empty, has no `,` or `=` and does not end in white space (`SafeSecretId`); and the Base64 text of every HMAC digest is non-empty, has no `,` and does not end in white space (`SafeSignature`), as 28 characters of `[A-Za-z0-9+/=]` are |

## Left out

- The stream reads and the consumer-group creation (`xreadgroup`, `xgroup`) are network I/O. The reply is an input value, and the queue key is a parameter.
- `startService`'s poll loop, its `sleep(2000)` and the `Promise.all` fan-out over tasks are scheduling and concurrency. Each task's `handler` is modelled as one run on a store.
- The task lookup with its producer join, and the secret query, are given as their answers. The SQL `group: 'producerId'` choice is ORM behaviour, so the secret list is arbitrary.
- The HTTP POST is the parameter `Env.post`, true when it resolves. Multiple attempts are modelled by calling the handler again with another `Clock` (and the reloaded row).
- HMAC-SHA1, Base64 and AES decryption are uninterpreted function parameters. A decryption that throws is None.
- `JSON.parse`, `JSON.stringify`, `new URL` and the `Date.now()`/`moment()` readings are parameters. The failure-reason text `JSON.stringify({ message, stack })` is `Env.describe`, a function of the error.
- `JsStrings.NatToString`, `JsStrings.DecimalValue` and the `* 1000` of `Receiver.CheckCredentials` work on unbounded integers, while JavaScript numbers are doubles: `${n}` switches to exponent notation from 10^21 and integers above 2^53 are not exact. No value the program formats or parses comes near that: ids are integer columns, timestamps have 10 or 13 digits and retry counts are small.
- `Receiver.CheckCredentials`: does not model `moment(...).isValid()`, because ten decimal digits always give a valid time, so that check never refuses.
- `JsStrings.StrLe`: orders characters by code point, while `Array.prototype.sort` compares UTF-16 code units. The two orders differ only on characters outside the Basic Multilingual Plane.
- A store write that throws is not modelled: every `updateNotifyTask` succeeds.
- `Receiver.ParseRoundTrip`: also requires that the secret id and the signature do not end in white space, because `trim` would strip it.
- The model definitions, configuration schema and defaults, `utils.js` helpers (random strings, md5, sleep, `error500`), logging and the test's HTTP server and setup are not part of this model.
