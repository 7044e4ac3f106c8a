# Verification of the Envoy external authorization plugin

This project models the parts of the plugin in which several functions, or several requests, have to
agree with each other, and proves what they guarantee together. `dafny verify dfyconfig.toml` checks
everything; Dafny 4.11 is enough.

| file | what it models |
|---|---|
| `QueryCache.dfy`, `QueryCacheTheorems.dfy` | the prepared query that concurrent requests share behind a replaceable `sync.Once`, as a transition system, and its refinement of a service that prepares a query for every request |
| `Effects.dfy`, `Evaluation.dfy`, `DecisionLog.dfy`, `CheckSpec.dfy`, `Check.dfy` | one check: transactions, evaluation, decision log, metrics, the stop function, the v3 and v2 entry points |
| `CheckTheorems.dfy`, `FailureTheorems.dfy`, `LogTheorems.dfy` | what every check answers, which error it reports, and what its log event tells, by the shape of the policy decision alone |
| `Interleaving.dfy`, `CheckRuns.dfy` | what is conserved when any number of checks interleave |
| `Values.dfy`, `Decision.dfy`, `Headers.dfy`, `HeaderOrder.dfy` | reading a policy decision, flattening its headers, and what of that depends on Go's map order |
| `Request.dfy`, `BodyTheorems.dfy` | body decoding: content types, declared lengths, gRPC framing, multipart grouping, the path |
| `NatRules.dfy`, `NatRouting.dfy` | the nat rules that `proxy_init.sh` builds, a walk through iptables chains, and the routing they amount to |
| `PathRef.dfy`, `Text.dfy` | the configured policy path as a reference, and back |
| `Errors.dfy` | matching of coded errors under `errors.Is` |

Code that changes state (the check with its stop function, evaluation, the log call, the header map,
the rule builder, the loops over parts, ports, ranges, names and segments) is written as methods over
classes or with loops, and each is proved against a function of its inputs. Concurrency is a step
relation. Library calls are inputs: a value or an error for each, an arbitrary function where the
same call can be made twice.

Four laws that one would expect do not hold of the code without a condition. The code is modelled as it is, and
the exact condition is proved:

- Cached evaluation equals preparing afresh just in the runs in which no request runs the shared
  query under a compiler for which preparation failed. A failed preparation is reported only to the request that ran it; the Once
  is then used up, and later requests evaluate an empty query. That dereferences a nil pointer
  (`vendor/github.com/open-policy-agent/opa/rego/rego.go:374`) and nothing recovers, so the process
  ends (`FailedPreparationIsReportedOnce` is such a run, `PanicsExactly` the condition at every request).
- Header values keep one order under each name, for all iteration orders, just when any two keys of
  one object with the same canonical form have value lists that commute (`TwoSpellingsAreUnordered`
  is an object whose lists do not). Without two such keys the values are in list order
  (`ValuesFollowListOrder`).
- `errors.Is(e, e)` holds just for the chains in which, cutting after every `*Error`, some piece starts
  with a comparable error or is empty. `ast.Errors` is a slice, so a chain of it alone does not match
  itself.
- The counter labelled `unknown_log_error` counts the failed log calls just when no check fails with a
  topdown error whose code is that label. OPA gives its own topdown errors one of six `eval_*` codes
  (`vendor/github.com/open-policy-agent/opa/topdown/errors.go:36-60`), and with those the counter is
  exact (`StockCodesNeverCollide`); only a custom builtin that returns a topdown error of its own can
  miscount (`CollisionMiscounts`).

The slice bound of the gRPC body is 32-bit; `SliceBoundExactly` says for which buffers it leaves the
slice, and that none is shorter than 2^32 bytes.

Where the code and its own words differ, the model follows the code: the usage line of
`proxy_init.sh` lists `-o` like a required option, but without it the script installs the inbound half
and exits 0; its test `[[ WHITELIST_PORTS != "" ]]` compares a literal and is always true, which is
harmless because the loop over an empty list does nothing.

## Model

| member | source | states |
|---|---|---|
| QueryCache.StepKeepsInv | envoyauth/evaluation.go:104-124 | every step of every thread and of the writer keeps: the current Once has at most one builder, a finished Once means the shared query was prepared from the current compiler, and an open transaction still sees the compiler and data it opened with |
| QueryCache.NoDeadlock | envoyauth/evaluation.go:107-121 | in every reachable state of a live process with an open transaction, some thread that has one can step |
| QueryCache.ThreadStepLowersRank | envoyauth/evaluation.go:104-124 | every step a thread takes, other than opening a transaction, lowers a bound on the steps that all open transactions have left together |
| QueryCache.TransactionsEnd | envoyauth/evaluation.go:107-121 | in every stretch of a run that opens no new transaction and is as long as that bound, all transactions have closed or the process has crashed; so every wait on the Once ends |
| QueryCacheTheorems.CacheRefinesPreparingAfresh | envoyauth/evaluation.go:80-124 | a run of the cached service is, event by event, a run of the service that prepares for every request and never panics, if and only if no request runs the shared query under a compiler whose preparation failed |
| QueryCacheTheorems.CacheIsTransparent | envoyauth/evaluation.go:80-124 | when preparation cannot fail every run refines preparing afresh |
| QueryCacheTheorems.AnswersMatchTheirTransaction | envoyauth/evaluation.go:67-88 | every answer, an evaluation or the preparation error, equals preparing and evaluating afresh with the compiler and the data that the request's own transaction opened with |
| QueryCacheTheorems.PanicsExactly | envoyauth/evaluation.go:80-88 | in every run, a request that has read the shared query can evaluate it if and only if its own compiler prepares, and panics if and only if it does not |
| QueryCacheTheorems.FailedPreparationIsReportedOnce | envoyauth/evaluation.go:119-123 | a concrete run of two requests under one compiler that fails to prepare: the first gets the preparation error, the second panics on the empty query and the process ends |
| QueryCacheTheorems.BuiltAtMostOncePerUpdate | internal/internal.go:297-299 | in every run two builds of the query have a swap of the Once between them |
| QueryCacheTheorems.ReadAfterRebuild | envoyauth/evaluation.go:80-121 | in every run each read of the query follows a build and the end of that build's Once, with no swap since |
| Evaluation.Eval | envoyauth/evaluation.go:38-102 | the error and the result's fields, over any fields and transaction it held before; a caller's transaction stays open and in place, and without one Eval opens exactly one and aborts it on every path |
| Evaluation.EvalFieldsExactly | envoyauth/evaluation.go:38-102 | a failed read leaves every field alone; otherwise revisions, revision and transaction id are the new ones, a missing revision empty, and decision and cache are replaced exactly when preparation and query succeed with one result |
| Evaluation.GetRevision | envoyauth/evaluation.go:126-151 | the first failing read is the error and leaves the result alone; otherwise each named bundle maps to its revision, a missing one to the empty string |
| Evaluation.EvalResult.Close | envoyauth/response.go:79-84 | the closer aborts the transaction and clears it from the result, nothing else |
| DecisionLog.LogDecision | opa/decisionlog/decision_log.go:24-67 | no plugin, no event; otherwise the event with the request's head, all bundle revisions and the transaction, and either the error, classified, or the decision; a cancellation is seen anywhere in the chain of a topdown error |
| DecisionLog.Log | internal/internal.go:582-611 | one log call, whose event carries query, path, input, trace and span id, the converted builtin cache and the outcome; a failing conversion of the cache fails it before any event |
| Decision.GetRequestHTTPHeadersToRemove | envoyauth/response.go:119-152 | the listed names in order, none if absent, an error for anything but strings |
| Check.AnswerDecision | internal/internal.go:450-535 | the response the policy asks for, or the first malformed part in the order of the getters |
| Check.CheckRequest | internal/internal.go:370-580 | the response and error of check, and the state its stop function finds |
| Check.Stop | internal/internal.go:397-421 | the metric of the failure, then the log call, then the abort, then the metric of a failed log, and the status |
| Check.V3Check | internal/internal.go:358-368 | result and all effects of v3 Check for every combination of stage outcomes |
| Check.V2Check | internal/internal.go:641-656 | v2 Check returns the v2 projection of what v3 Check returns, with the same effects, although it converts before the stop function may replace the status |
| Check.V2Response | internal/internal.go:658-700 | the conversion keeps status, body, code and the header list with its order |
| CheckTheorems.VerdictExactly | internal/internal.go:423-579 | without dry-run: OK, PERMISSION_DENIED and UNKNOWN each if and only if stated conditions on inputs, decision and log hold; every other outcome is an error without a response |
| CheckTheorems.FaultFreeExactly | envoyauth/response.go:95-115 | no getter fails exactly if the decision grants or denies and every part that response needs has the right shape: header fields one object or a list of objects of strings or string lists, removals a list but not a string, metadata an object that converts, the status an integer in both tables |
| CheckTheorems.DryRunOverridesDenialsOnly | internal/internal.go:555-564 | dry-run has the same effects, error and metadata, and changes the response if and only if the policy denies |
| CheckTheorems.ResponsesCarryTheDecisionId | internal/internal.go:566-577 | every response's metadata is the decision id and, beside it, exactly the Struct that the decision's `dynamic_metadata` object converts to, or nothing |
| CheckTheorems.DenialCarriesThePolicy | internal/internal.go:464-534 | a denial by an object arrives, whatever the log does, with each string of its headers as often as it is listed and under its canonical name, its body or none, and its HTTP status cut to 32 bits or 403 |
| CheckTheorems.GrantCarriesThePolicy | internal/internal.go:464-507 | a permission by an object arrives, in dry-run too, with each string of both header fields as often as it is listed, and the listed names to remove in order |
| CheckTheorems.BooleansSendNothing | internal/internal.go:458-464 | a boolean decision sends no HTTP part, except the empty permission of dry-run |
| CheckTheorems.V2TellsTheSame | internal/internal.go:641-700 | for every outcome v2 Check returns the error and status of v3 Check, and its HTTP part of the same kind with the same header keys and values index by index, body and code |
| CheckTheorems.V2DenialCarriesThePolicy | internal/internal.go:658-700 | a v2 denial has each string of the policy's headers under its canonical name, its body and its status |
| CheckTheorems.V2GrantCarriesThePolicy | internal/internal.go:658-694 | a v2 permission has each string of the policy's headers under its canonical name |
| FailureTheorems.ErrorIsTheFirstFailure | internal/internal.go:423-534 | in one list of everything a check tries, in order, the first that fails gives the error and its code; with a decision, the first part of the wrong shape does, under `envoyauth_result_error` |
| FailureTheorems.LabelExactly | internal/internal.go:399-405 | the label of a failure is the code of the outermost topdown error in its chain if there is one, otherwise the failure's own |
| LogTheorems.EventTellsTheOutcome | internal/internal.go:407-407 | when there is an event; it names the check's transaction and carries an error if and only if the check returns one: storage, ast and topdown errors as they are, a cancellation by a fixed one, any other by its message; otherwise the policy's decision |
| LogTheorems.EventTellsTheRequest | internal/internal.go:582-611 | the event has the configured query and path, the ids of the request's span each in its place or none, the input if it parsed, the converted cache if it is on and evaluation succeeded, and the legacy revision |
| LogTheorems.CancelExactly | opa/decisionlog/decision_log.go:46-52 | an error is a cancellation if and only if some topdown error that it is or wraps, at any depth, has that code |
| LogTheorems.FailedLogReplacesTheStatus | internal/internal.go:358-421 | a response's status is UNKNOWN with the message of the failed cache conversion, else of the plugin's error, else the verdict |
| LogTheorems.EventListsTheBundles | opa/decisionlog/decision_log.go:32-36 | the event lists exactly the bundles read, each with its own revision, empty if the store had none |
| CheckRuns.TransactionsBalance | internal/internal.go:384-421 | over every interleaving of any number of checks: opened, aborted and log calls are as many as started checks, and each transaction is aborted as often as it is opened |
| CheckRuns.MetricsBalance | internal/internal.go:399-413 | over every interleaving: durations plus errors equal started checks plus failed log calls, or nothing is counted when metrics are off |
| CheckRuns.LabelCounter | internal/internal.go:399-413 | over every interleaving, for every label: the counter is the checks that fail under it, plus the failed log calls if the label is theirs |
| CheckRuns.LogErrorCounterExactly | internal/internal.go:401-413 | it counts the failed log calls alone if and only if no check fails with that label |
| CheckRuns.StockCodesNeverCollide | internal/internal.go:401-413 | it does so in every run in which the topdown errors carry the six codes of OPA itself |
| CheckRuns.CollisionMiscounts | internal/internal.go:401-413 | concrete inputs, a custom builtin's own topdown error, and the run of that one check: no log call failed and the counter is 1 |
| CheckRuns.NothingLeftOpen | internal/internal.go:397-421 | a store after a finished run has no open transaction |
| CheckRuns.RunKeepsOrder | internal/internal.go:397-421 | at every moment of every interleaving each check has opened first, logged once after at most one metric, aborted only right after that, and counted nothing later but a failed log |
| Headers.HeaderMap.TakeResponseHeaders | envoyauth/response.go:343-365 | for the key order that occurred, every string of the object is added under its canonical name; fails if and only if some value has a wrong type |
| Headers.HeaderMap.Transform | envoyauth/response.go:341-392 | the same for one object or a list of objects, in list order |
| Headers.ToHeaderValueOptions | envoyauth/response.go:394-411 | under each name the list has that name's values in order, in one block per name in the order that occurred |
| Headers.HeaderValueOptions | envoyauth/response.go:191-216 | absent field: empty list; otherwise success exactly for well-formed headers, and a flattening of them |
| Headers.HeadersOkExactly | envoyauth/response.go:341-392 | headers are well-formed if and only if they are one object, or a list of objects, all of whose values are a string or a list of strings |
| HeaderOrder.FlatteningSendsEachString | envoyauth/response.go:341-411 | for all iteration orders the list has each string under each name as often as the fields of that canonical name list it, and as many entries as the fields list strings |
| HeaderOrder.FlatteningExists | envoyauth/response.go:341-411 | every well-formed header value has a result and all its results have the same entries |
| HeaderOrder.ValueOrderFixedExactly | envoyauth/response.go:344-351 | the order of the values under each name is the same for all iteration orders if and only if colliding keys of each object have commuting lists |
| HeaderOrder.ValuesFollowListOrder | envoyauth/response.go:341-411 | under a name for which no object has two keys, the values are, for every iteration order, what the objects list under it: object after object, each in the order of its list |
| HeaderOrder.FieldArrives | envoyauth/response.go:343-365 | a field of an object whose canonical name no other has arrives as its one string, its list of strings, or its array item by item |
| HeaderOrder.TwoSpellingsAreUnordered | envoyauth/response.go:344-351 | the object that maps `x-a` and `X-A` to different strings is well-formed, and the order of its two values is not fixed |
| HeaderOrder.DistinctNamesAreOrderFree | envoyauth/response.go:344-351 | no two keys with one canonical form in an object is enough for a fixed order |
| Request.GetGrpcBody | envoyauth/request.go:275-326 | the outcome for every payload, with the slice bound computed in 32 bits |
| Request.FrameRoundTrip | envoyauth/request.go:292-297 | a Length-Prefixed-Message followed by any bytes yields exactly its message |
| Request.MessageMeansFrame | envoyauth/request.go:280-297 | conversely, a message is handed over only from a payload that starts with its frame |
| Request.CutFrame | envoyauth/request.go:280-296 | every proper prefix of a frame is truncated if it has five bytes, and too short otherwise |
| Request.SliceBoundExactly | envoyauth/request.go:293-297 | the bound leaves the buffer if and only if a complete message is within five bytes of 2^32; never for buffers below 2^32 bytes |
| Request.GrpcBodyRoundTrip | envoyauth/request.go:142-171 | a framed message of a known method is decoded from its own bytes, whatever follows |
| Request.GroupParts | envoyauth/request.go:230-264 | success exactly if the stream ends well and every named part reads and decodes; then each name has its values in order and unnamed parts vanish |
| Request.GroupsIsGrouped | envoyauth/request.go:230-264 | those conditions determine the grouping |
| Request.GroupingIsLossless | envoyauth/request.go:242-261 | the list lengths add up to the number of named parts |
| Request.CheckIfTruncated | envoyauth/request.go:350-359 | truncated exactly if the declared 64-bit length exceeds the body's; -1 never does |
| Request.GetParsedBody | envoyauth/request.go:115-273 | the outcome for every header map, body and raw body, against one guard shared by the three text types |
| BodyTheorems.NothingToDecode | envoyauth/request.go:115-127 | without one of the four media types, without bytes, or for gRPC without descriptors: no data, no truncation and no error |
| BodyTheorems.LengthComesFirst | envoyauth/request.go:128-136 | before any decoder: a declared length that is no 64-bit integer is an error, one above the payload's is truncation |
| BodyTheorems.JsonDelivers | envoyauth/request.go:119-141 | for a type that mentions application/json: an error if and only if the JSON decoder fails on the text body, or on the raw bytes if that is empty; otherwise the data is its value, none for null |
| BodyTheorems.FormDelivers | envoyauth/request.go:172-198 | for a form type that mentions neither JSON nor gRPC: an error if and only if the form decoder fails; otherwise the data is its fields |
| BodyTheorems.MultipartDelivers | envoyauth/request.go:199-273 | for a multipart type that mentions none of the others: an error for a bad media type, a broken stream or an unusable part and only then, nothing without a boundary; otherwise the data has the names of the named parts, each with its parts' values in order, JSON parts decoded |
| BodyTheorems.GrpcDelivers | envoyauth/request.go:142-171 | for a gRPC type that does not mention JSON: head, flag, length, slice bound, method and message decoder decide in that order, and the decoder gets exactly the bytes the head announces |
| BodyTheorems.BigEndianIsInByteOrder | envoyauth/request.go:293-293 | lengths compare as their four bytes do, most significant first |
| BodyTheorems.OnlyItsDecodersMatter | envoyauth/request.go:115-273 | decoders that agree on what the body's own type asks of them give the same outcome |
| Request.OutcomesExclude | envoyauth/request.go:115-273 | data, truncation and error exclude each other; a panic needs a raw body of 2^32 bytes |
| Request.OnlyThePayloadMatters | envoyauth/request.go:119-207 | JSON, form and multipart depend on body and raw body only through the effective payload, gRPC only on the raw body |
| Request.DeclaredLengthTruncates | envoyauth/request.go:128-136 | the declared length exceeds the payload if and only if the outcome is truncation whatever the decoders would do |
| Request.ParsedPathExactly | envoyauth/request.go:97-101 | the segments are the only slash-free ones that spell the path without its leading slashes |
| NatRules.ProxyInit | proxy_init/proxy_init.sh:52-114 | exit code and the whole resulting table, for every option set and every starting table |
| NatRules.AppendOutbound | proxy_init/proxy_init.sh:85-111 | the outbound rules in order |
| NatRouting.InboundRouting | proxy_init/proxy_init.sh:58-77 | walking the built PREROUTING chain sends every packet that no earlier rule takes to the inbound port, unless it is not TCP or is new or established to a whitelisted port |
| NatRouting.OutboundRouting | proxy_init/proxy_init.sh:79-112 | walking the built OUTPUT chain equals the declarative routing, for every packet that no earlier rule takes and every list of ports and ranges |
| NatRouting.EnvoyIsNotLooped | proxy_init/proxy_init.sh:91-93 | Envoy's own packet is redirected if and only if it is on loopback, to another address and not whitelisted, and then to the inbound port |
| NatRouting.ListsAreSets | proxy_init/proxy_init.sh:66-106 | permuting or repeating ports and ranges changes no verdict |
| NatRouting.RerunChangesNothing | proxy_init/proxy_init.sh:58-59 | once the inbound chain exists no further run changes the table |
| NatRouting.ExitCodeExactly | proxy_init/proxy_init.sh:52-85 | exit code 0 if and only if inbound port and uid are given and no existing outbound chain has to be created |
| NatRouting.OtherRulesStay | proxy_init/proxy_init.sh:52-114 | for every option set: no rule is removed or reordered, PREROUTING and OUTPUT grow by at most one rule, and only the two chains of the script are new |
| NatRouting.CoversMeansPrefix | proxy_init/proxy_init.sh:104-106 | a range covers an address if and only if their leading bits agree (section 3.1 of RFC 4632) |
| PathRef.StringPathToRef | internal/internal.go:619-638 | the terms of the non-empty segments in order |
| PathRef.StringPathToDataRef | internal/internal.go:613-617 | the same below the root document |
| PathRef.RefOfConcat | internal/internal.go:624-628 | the reference of two paths joined by a slash is the two references appended, for all strings |
| PathRef.SlashesNeverMatter | internal/internal.go:624-628 | leading, trailing and doubled slashes change nothing |
| PathRef.RefOfIsTheOnlySolution | internal/internal.go:619-638 | that law and the one-segment paths determine the function |
| PathRef.ReparseExactly | internal/internal.go:630-635 | printing and reparsing is the identity if and only if the reference is the reference of some path |
| PathRef.PathRoundTrip | internal/internal.go:619-638 | parse, print and parse again gives the same reference, integers of the full 64-bit range included |
| Text.ParseIntExactly | internal/internal.go:630-635 | an integer is read from an optional sign and digits whose value fits 64 bits, and from nothing else |
| Text.ContainsExactly | envoyauth/request.go:119-119 | a text contains another if and only if it is that one with something before and after |
| Errors.WalkMeaning | internal/errors.go:39-45 | errors.Is holds if and only if the chain holds the comparable target itself, or a coded node whose code the target's first coded node has or leaves empty and whose wrapped error matches what that wraps |
| Errors.CodedChainsMatchExactly | internal/errors.go:39-45 | a chain of coded errors matches another if and only if codes can be picked from it, in order and the last one for the last, that equal the other's codes wherever those are not empty |
| Errors.SingleErrorsMatchExactly | internal/errors.go:42-42 | two single errors match if and only if the target's code is empty or the codes are equal |
| Errors.IsTransitive | internal/errors.go:39-45 | matching is transitive over all chains, wildcard codes included |
| Errors.IsReflexiveExactly | internal/errors.go:39-45 | matching is reflexive on exactly the chains with a comparable head |
| Errors.ComparableChainsAreReflexive | internal/errors.go:39-45 | chains of comparable errors match themselves |
| Errors.WrappingKeepsMatches | internal/errors.go:60-62 | what a suffix of a chain matches, the chain matches |
| Errors.MatchingCounterexamples | internal/errors.go:42-42 | concrete chains on which reflexivity and symmetry fail |

## Left out

- Rego compilation and evaluation, JSON and protobuf decoding, `url.Parse`, `mime` and the multipart reader: each is an arbitrary function or an arbitrary outcome.
- The panic on an empty query appears in the query cache model only: the model of one check takes the outcome of its own preparation and evaluation as inputs that return.
- The prepared query is taken to depend on the compiler alone; the transaction passed to `PrepareForEval` is not an input of it.
- The cache is a step relation over values, so the Go memory model (torn or reordered reads of the shared fields) is not captured; every read and write of a shared field is one step.
- The reader/writer discipline is that of the in-memory store, whose commit runs its triggers while no read transaction is open; other stores are not modelled.
- A panic inside the function of `sync.Once`, and cancellation while waiting for it.
- Starting and stopping the gRPC server, listeners, sockets, plugin status, tracing, reflection, configuration parsing other than the path.
- Timers, timestamps (that of a log event included), metrics other than the two collectors (those inside a log event included), the location in a topdown error, debug logging, the exact wording of error messages.
- The query parameters of the path, which are copied as parsed.
- Marshalling the CheckRequest itself: the request's input is an outcome, and body decoding is modelled on the fields extracted from it.
- `Error.Wrap`, which can build cyclic chains, multi-error `Unwrap() []error`, and other error types with an Is or As method of their own (such as topdown.Error) inside the chains of `Errors.dfy`.
- HTTP status tables, canonical header names and the conversion to a protobuf Struct: arbitrary functions.
- Responses are values, so the v2 response sharing its Status object with the v3 response is not modelled; nothing writes through it.
- Splitting the comma-separated options of `proxy_init.sh` into lists, option parsing, `-h`, and an iptables command failing for a reason other than an existing chain.
- Kernel connection tracking and tables other than nat; the routing theorems are about the packets that no rule already in PREROUTING or OUTPUT takes, and about tables without the script's own chains.
