# Verified models of the Splunk OpenTelemetry Collector's own logic

Dafny models of the parts of the Splunk distribution of the OpenTelemetry Collector that carry the most state and
branching, with proofs about all their inputs and runs:

- **Configuration sources** (`Expansion`, `Expander`, `CloseFuncs`, `Invocations`, `OsExpand`): the expander behind
  `$NAME`, `${NAME}`, `$source:selector` and `${source:selector?params}`. `Expansion` says what a string means, token by
  token, on the remaining text only; `Expander` is the scanning code with its indices, buffer and close functions;
  `Invocations` says what a reference written out asks for and becomes.
- **The correlation store** of the discovery receiver: maps of maps under keyed locks, with a reaper.
  `CorrelationMachine` has every interleaving of the individual lock, load, store, field read, field write and unlock
  steps; `CorrelationSafety` and `CorrelationRuns` prove what every run keeps, `CorrelationFreshness` and
  `CorrelationLatest` how current entries are, `CorrelationAnswers` what GetOrCreate returns, `CorrelationReaping` what
  the reaper deletes, `CorrelationTimes` from when its ttl counts and `CorrelationAttrs` what Attrs returns;
  `CorrelationStale` shows a run that leaves an entry behind. `CorrelationStore` has operations that do not overlap.
- **Discovery properties and their environment variables** (`Wordify`, `PropertyNames`, `PropertyLosses`,
  `PropertySpelling`).
- **Databricks run tracking** (`RunTracking`, `RunPolls`, `RunDelivery`, `RunRecords`): paginated fetching, watermarks,
  polls and recorded points.
- **Receiver names** of the discovery receiver (`ReceiverNames`, `ReceiverSpelling`) and the validation meant to protect
  them.
- **Discovery statuses** (`DiscoveryStatus`, `DiscoveryReports`).
- **Prometheus remote write** (`RemoteWrite`, `RemotePoints`) and **histogram buckets** (`Buckets`).

`dafny verify dfyconfig.toml` checks everything.

## How things are modelled

- A string is a sequence of Unicode characters. The Go code works on bytes, but every delimiter it looks for is ASCII.
- What lies outside the code is a parameter: environment variables, config sources, YAML and URL decoding (`World`),
  the Databricks API (`Server`, which may fail any request), the clock, the order in which Go walks a map. A retrieval
  is numbered, so the same data may be answered differently each time, and the number is the handle to close.
- Decoding parameters is assumed never to make a string leaf longer than the text it came from (`DecodingShrinks`).
  The code's recursion through parameters terminates because of it.
- A keyed mutex is one lock per key (the code never deletes one). A walk over a `sync.Map` visits every key present at
  its start once and may or may not see later ones.

## What turned out not to hold

- Doubling every `$` is an escape for all strings only with compatibility off. With it on, it fails exactly when a
  doubled `$` starts a reference the compatibility rule still honours (`EscapeRoundTrip`, `EscapeCanFail`).
- The escape code of environment variables loses exactly the strings with a NUL (`WordifyRoundTrip`), and a property
  comes back from its environment variable exactly when no token `CONFIG` or `ENABLED` follows an underscore in the
  escaped component ID and a config key is not empty (`EnvVarRoundTrip`). So the config properties of every component
  whose ID ends in `/CONFIG` or `/ENABLED` and those with an empty key are lost (`KindNameIsLost`, `EmptyKeyIsLost`,
  `LostProperties`).
- Validation accepts receiver IDs, such as `x/receiver_creator`, that cannot be found again in logger names, since it
  checks the ID without the slash that follows it (`AcceptedGap`, `AcceptedButLost`).
- The fuzz test of `ReceiverNameToIDs` expects no endpoint ID without a receiver and no name without a type. That
  fails exactly for names of the documented form whose type segment is not a type (or is the sentinel) with a name or
  an endpoint ID beside it (`PromiseKept`, `EndpointLeftOver`, `LeftOverInput`).
- Databricks lists completed runs only, latest start first, so a run that started early and ended late turns up behind
  later ones. Such a run is never delivered: a run is delivered exactly if, at the first poll that reached its job and
  listed it, the job had been reached before and the run starts after the latest one listed then (`DeliveredIff`,
  `LateFinisherIsLost`).
- A GetOrCreate can leave an entry behind that disagrees with the endpoint's latest update for good (`StaleEntry`). This
  needs an UpdateEndpoint under way while the GetOrCreate is past the endpoint's lock (`StaleOnlyIfPassed`).
- A receiver that is reported successful and whose configuration is known but not carried by its logs is merged into the
  suggested configuration without its ID, so that it is named nowhere in it (`NamedIff`, `KnownIsNotNamed`).

## Model

| member | source | states |
|---|---|---|
| Expander.ScanToClosingBracket | internal/configsource/source.go:671-681 | the loop finds the first closing bracket, and eats unclosed and empty brackets as the reference definition says |
| Expander.GetTokenName | internal/configsource/source.go:686-721 | the loop cuts the name the reference definition cuts, a slash included only in `type/name:` |
| Expander.GetBracketedExpandableContent | internal/configsource/source.go:462-472 | text, width and source name of a bracketed reference at any position |
| Expander.GetBareExpandableContent | internal/configsource/source.go:474-491 | text, width and source name of a bare reference at any position |
| Expander.ReferenceAt | internal/configsource/source.go:334-385 | what follows a `$`, `$$` compatibility included, is the first token of the remaining text, and its text is shorter than the string |
| Expander.ExpandReference | internal/configsource/source.go:395-443 | one reference goes into the buffer, or ends the scan with an error or a raw value, as the expansion of the rest of the string does |
| Expander.ResolveStringValue | internal/configsource/source.go:322-460 | the index scan never leaves its string and computes exactly the token-by-token expansion, the raw-value case and every error included; its close function closes exactly the handles retrieved meanwhile |
| Expander.RetrieveConfigSourceData | internal/configsource/source.go:495-558 | one retrieval, selector and parameters expanded first, refines its definition; the mutual recursion terminates because each invocation is shorter than its string |
| Expander.RetrieveExpanded | internal/configsource/source.go:525-558 | selector, then parameters, then source: the handles of all three are closed exactly once |
| Expander.ResolveParameters | internal/configsource/source.go:537-547 | parameters are resolved leaf by leaf and their handles collected |
| Expander.ResolveConfigValue | internal/configsource/source.go:265-318 | every string leaf of a nested value is resolved in order, and its handles are closed exactly once |
| Expander.ResolveElements | internal/configsource/source.go:271-318 | the loop over list elements or map entries stops at the first error and loses no close function |
| Expander.ResolveThenClose | internal/configsource/source.go:243-260 | closing what a whole configuration retrieved closes every handle retrieved anywhere in it exactly once, whichever closes fail, and reports every failure; on an error nothing is handed back |
| CloseFuncs.Run | internal/configsource/source.go:740-756 | running a merged close function runs each part, failing or not, as often as it was merged in |
| CloseFuncs.MergeCloses | internal/configsource/source.go:740-756 | merging, with its shortcuts for none and one, loses no handle and repeats none |
| Expansion.ParseInvocation | internal/configsource/source.go:572-613 | selector and every parameter leaf are shorter than the invocation; only a missing colon is malformed |
| Invocations.ParsesPlain | internal/configsource/source.go:572-613 | `name:selector` is that name and selector, trimmed, without parameters |
| Invocations.ParsesQuery | internal/configsource/source.go:593-613 | what follows a `?` is decoded as a query, an error exactly if that fails |
| Invocations.ParsesLines | internal/configsource/source.go:584-592 | what follows the first line is decoded as YAML, an error exactly if that fails, and the first line is the selector, question marks included; nothing after the line break means no parameters |
| Invocations.MalformedIff | internal/configsource/source.go:574-580 | an invocation is malformed exactly if it has no colon |
| Invocations.AsksForExpanded | internal/configsource/source.go:513-558 | a source is asked for the expanded selector of `name:selector`, which must be text |
| Invocations.AsksSourceWith | internal/configsource/source.go:525-558 | with a query the parameters are resolved after the selector and handed to the source |
| Invocations.AsksProvider | internal/configsource/source.go:498-512 | a provider that is no source is asked for `name:selector` as it stands, a nil one is an error |
| Invocations.NobodyToAsk | internal/configsource/source.go:495-512 | a name that is neither source nor provider is an error |
| Invocations.BracketedIs | internal/configsource/source.go:462-472 | `${name:selector}` is read whole, spaces inside the brackets dropped, with its name as source |
| Invocations.BareIs | internal/configsource/source.go:474-491 | `$name:selector` takes the rest of the string, with its name as source |
| Invocations.BareWithTypeIs | internal/configsource/source.go:686-721 | so does `$type/name:selector`, whose source name holds the slash |
| Invocations.SlashEnds | internal/configsource/source.go:686-721 | a slash that no name and colon follow ends the name |
| Invocations.BareCompatIff | internal/configsource/source.go:349-385 | `$$name:selector` is honoured exactly if the selector is not empty and holds no `$` |
| Invocations.BracketedInText | internal/configsource/source.go:395-443 | what `${name:selector}` becomes in the middle of text and alone, for text, bytes, nil and other values, and when the source fails |
| Invocations.BareInText | internal/configsource/source.go:395-443 | the same for `$name:selector` at the end of text |
| Invocations.TrimIs | internal/configsource/source.go:599-600 | trimming drops exactly the spaces around |
| Invocations.ResolvesNode | internal/configsource/source.go:265-318 | strings are expanded, lists and maps keep their shape and keys, other values stay |
| Invocations.ResolvesInOrder | internal/configsource/source.go:271-318 | every element is resolved, each after the retrievals of those before it |
| Invocations.FailsInOrder | internal/configsource/source.go:271-318 | the error is that of the first element that fails |
| Expansion.Head | internal/configsource/source.go:334-399 | every token takes at least one character, and an invocation is shorter than the text it starts in |
| OsExpand.ColonFreeIsOsExpand | internal/configsource/source.go:334-399 | a string without a colon never reaches a source and expands exactly as Go's `os.Expand`, in either compatibility mode |
| OsExpand.RefAgrees | internal/configsource/source.go:462-491 | without a colon a reference is cut and replaced as by `os.Expand`, in spite of the extra slash handling |
| OsExpand.EscapeRoundTrip | internal/configsource/source.go:336-385 | the doubled string gives the original back, retrieving nothing, exactly if no doubled `$` is taken by the compatibility rule |
| OsExpand.EscapeAlwaysWorks | internal/configsource/source.go:336-385 | so it always does with compatibility off, and for strings without a colon |
| OsExpand.EscapeCanFail | internal/configsource/source.go:349-385 | with compatibility on it fails for every `${...}` without a `}` inside whose text, doubled and trimmed, has a `:` after its first character |
| OsExpand.CompatSameAsSingle | internal/configsource/source.go:349-385 | where compatibility applies and no third `$` follows, `$$ref` means what `$ref` means |
| CorrelationSafety.UpdateStepOk | internal/receiver/discoveryreceiver/correlation.go:99-123 | every step of UpdateEndpoint keeps the store and its own facts, and touches only its endpoint |
| CorrelationSafety.GetStepOk | internal/receiver/discoveryreceiver/correlation.go:127-152 | every step of GetOrCreate keeps the store and its own facts, and touches only what its locks cover |
| CorrelationSafety.AttrsStepOk | internal/receiver/discoveryreceiver/correlation.go:154-173 | attribute operations leave the correlations alone |
| CorrelationSafety.ThreadStable | internal/receiver/discoveryreceiver/correlation.go:99-173 | what an operation knows survives every step of others that hold none of its locks |
| CorrelationSafety.OperationKeeps | internal/receiver/discoveryreceiver/correlation.go:99-173 | every step of every operation keeps the invariant of the whole system |
| CorrelationRuns.ReapKeeps | internal/receiver/discoveryreceiver/correlation.go:195-209 | every step of the reaper does too |
| CorrelationRuns.InvInEveryRun | internal/receiver/discoveryreceiver/correlation.go:99-226 | the invariant holds in every state of every interleaving |
| CorrelationRuns.CoherentInEveryRun | internal/receiver/discoveryreceiver/correlation.go:99-152 | in every interleaving: a free endpoint's map has its no-type entry, entries name their key, the unchecked no-type load never misses, no entry is created twice, no lock has two holders |
| CorrelationRuns.ReapIsSafe | internal/receiver/discoveryreceiver/correlation.go:195-209 | in every interleaving an endpoint is deleted only by the reaper, only if its latest update said removed, and only if that is older than the ttl |
| CorrelationReaping.ReapsExactly | internal/receiver/discoveryreceiver/correlation.go:195-209 | in every interleaving an endpoint is gone when the reaper gives up its lock exactly if, at the check under that lock, its last known event said "removed" and was older than the ttl |
| CorrelationReaping.RemovedIsReaped | internal/receiver/discoveryreceiver/correlation.go:195-209 | in every interleaving an endpoint whose last known event says "removed" and is older than the ttl while the reaper, holding the lock, is yet to check is gone when it gives up the lock |
| CorrelationReaping.WholePass | internal/receiver/discoveryreceiver/correlation.go:195-209 | a pass with no other steps in between that picks every known endpoint forgets and deletes exactly those long gone, as the whole-pass operation of `CorrelationStore` does |
| CorrelationReaping.LockedStays | internal/receiver/discoveryreceiver/correlation.go:195-209 | while the reaper has an endpoint's lock nobody else adds, deletes or changes the endpoint |
| CorrelationTimes.TimedInEveryRun | internal/receiver/discoveryreceiver/correlation.go:99-152 | in every interleaving no entry, nor a copy about to be stored, is dated after the clock |
| CorrelationTimes.KnownTime | internal/receiver/discoveryreceiver/correlation.go:99-123 | in every interleaving the time known with an update lies between the steps in which it got and gave up its endpoint's lock |
| CorrelationAttrs.AttrsInEveryRun | internal/receiver/discoveryreceiver/correlation.go:166-173 | in every interleaving the store holds of each receiver and key what the last UpdateAttrs in the order of the receiver's lock wrote |
| CorrelationAttrs.AttrsAreLastWrites | internal/receiver/discoveryreceiver/correlation.go:154-163 | in every interleaving a finished Attrs call returned exactly the last writes before its turn under the receiver's lock, key by key |
| CorrelationRuns.LockOrder | internal/receiver/discoveryreceiver/correlation.go:99-173 | endpoint locks are only taken before receiver locks, and at most one of each is held |
| CorrelationRuns.NeverDeadlocks | internal/receiver/discoveryreceiver/correlation.go:99-226 | in every reachable state with something unfinished, some operation or the reaper can step |
| CorrelationFreshness.StepFresh | internal/receiver/discoveryreceiver/correlation.go:99-209 | every step keeps it that inner maps no update is writing agree with their no-type entry, but for entries stored by a GetOrCreate that an update had passed |
| CorrelationFreshness.StaleOnlyIfPassed | internal/receiver/discoveryreceiver/correlation.go:99-152 | in every interleaving an entry that disagrees with its no-type entry while no update writes its map was stored by a GetOrCreate during which, past the endpoint's lock, an update of the endpoint was under way |
| CorrelationStale.StaleEntry | internal/receiver/discoveryreceiver/correlation.go:127-152 | for every endpoint, receiver with a type and two different states there is a run after which nothing is under way and the entry has the first state though the latest update brought the second |
| CorrelationLatest.LatestInEveryRun | internal/receiver/discoveryreceiver/correlation.go:99-152 | in every interleaving an endpoint with no update under way has exactly the no-type entry of its latest update, in the order of unlocking, and its other entries agree in state, endpoint and observer unless overtaken |
| CorrelationLatest.KnownIsSequential | internal/receiver/discoveryreceiver/correlation.go:99-209 | every interleaving, overlapping or not and reaped or not, knows of each endpoint what its updates, GetOrCreates and deletions leave when run one after the other in the order in which they take effect |
| CorrelationAnswers.AnswerIsKnown | internal/receiver/discoveryreceiver/correlation.go:127-152 | in every interleaving a GetOrCreate undisturbed by updates between giving up the endpoint's and the receiver's lock returns what was known of the endpoint at the former, under the receiver asked for, unless the entry it found had been overtaken |
| CorrelationAnswers.EntryStays | internal/receiver/discoveryreceiver/correlation.go:99-209 | no step changes an entry of an inner map that no update is writing |
| CorrelationStore.CorrelationMap.UpdateEndpoint | internal/receiver/discoveryreceiver/correlation.go:99-123 | makes this event the endpoint's last one in all entries and leaves other endpoints alone |
| CorrelationStore.CorrelationMap.GetOrCreate | internal/receiver/discoveryreceiver/correlation.go:127-152 | returns and stores the endpoint's last event tagged with the receiver |
| CorrelationStore.CorrelationMap.Reap | internal/receiver/discoveryreceiver/correlation.go:195-209 | forgets exactly the endpoints removed longer ago than the ttl |
| CorrelationStore.CorrelationMap.Forget | internal/receiver/discoveryreceiver/correlation.go:202-205 | one deletion of the reaper forgets the endpoint and leaves the others alone |
| CorrelationStore.CorrelationMap.RunAll | internal/receiver/discoveryreceiver/correlation.go:99-209 | any sequence of non-overlapping operations refines the map from endpoints to last events, answers included |
| CorrelationStore.LastEventWins | internal/receiver/discoveryreceiver/correlation.go:99-209 | what that map holds of an endpoint is read off the endpoint's own operations, whatever happened to others |
| CorrelationStore.AnswersAreLastEvents | internal/receiver/discoveryreceiver/correlation.go:127-152 | every GetOrCreate answers with the endpoint's last event before it, or a new correlation, tagged with the receiver |
| Wordify.StripZeros | internal/confmapprovider/discovery/properties/property.go:188-196 | the loop leaves exactly the hex digits of the number, in whole bytes |
| Wordify.EncodeRune | internal/confmapprovider/discovery/properties/property.go:181-203 | one character's escape |
| Wordify.WordifyText | internal/confmapprovider/discovery/properties/property.go:178-205 | the loop escapes every character in turn |
| Wordify.HexIsLeast | internal/confmapprovider/discovery/properties/property.go:183-196 | a hex block has at most 2k digits exactly if the number fits k bytes: the least even length |
| Wordify.OnlyWordCharacters | internal/confmapprovider/discovery/properties/property.go:178-205 | the output uses letters, digits and underscores only |
| Wordify.DecodeEncoded | internal/confmapprovider/discovery/properties/property.go:208-229 | every escape but NUL's is read back, whatever follows |
| Wordify.WordifyRoundTrip | internal/confmapprovider/discovery/properties/property.go:178-229 | decoding gives back what was encoded exactly if it holds no NUL |
| PropertySpelling.HexIs | internal/confmapprovider/discovery/properties/property.go:183-196 | a code is written a byte at a time, most significant first, two lower-case digits each |
| PropertySpelling.EncodeIs | internal/confmapprovider/discovery/properties/property.go:178-205 | letters and digits stand for themselves, every other character for its code between `_x` and `_` |
| PropertySpelling.OddDigitsFail | internal/confmapprovider/discovery/properties/property.go:208-229 | an escape with an odd number of digits fails the whole text |
| PropertySpelling.EvenDigitsDecode | internal/confmapprovider/discovery/properties/property.go:208-229 | an escape of up to four bytes is the character with that code, and the rest is decoded as it would be alone |
| PropertySpelling.OtherTextStays | internal/confmapprovider/discovery/properties/property.go:208-229 | a character that begins no escape is kept |
| PropertyNames.ParsedBody | internal/confmapprovider/discovery/properties/property.go:44-105 | a parsed property's pieces put together are the text it was read from |
| PropertyNames.NewPropertyOf | internal/confmapprovider/discovery/properties/property.go:74-105 | a property in which no token follows white space is read from its own text |
| PropertyNames.SplitBuilt | internal/confmapprovider/discovery/properties/env_var.go:27-58 | the environment variable's grammar splits off component, kind and key, and refuses a trailing underscore |
| PropertyNames.CutPoint | internal/confmapprovider/discovery/properties/env_var.go:37-49 | a token `CONFIG` or `ENABLED` in an escaped ID always cuts the escape of a character followed by C or E |
| PropertyNames.SafeComesBack | internal/confmapprovider/discovery/properties/property.go:108-175 | a safe property comes back from its environment variable |
| PropertyNames.UnsafeIsLost | internal/confmapprovider/discovery/properties/property.go:108-175 | any other does not |
| PropertyNames.EnvVarRoundTrip | internal/confmapprovider/discovery/properties/property.go:108-175 | for every NUL-free property in which no token follows white space: same section, type, name, kind and key exactly if it is safe |
| PropertySpelling.ReadsSpelled | internal/confmapprovider/discovery/properties/property.go:44-105 | `splunk.discovery.receivers.<type>[/<name>].config.<key>`, and the same for extensions, is read as its parts |
| PropertySpelling.ReadsEnabled | internal/confmapprovider/discovery/properties/property.go:44-105 | so is `splunk.discovery.receivers.<type>[/<name>].enabled` |
| PropertySpelling.VariableSpelled | internal/confmapprovider/discovery/properties/property.go:108-121 | its environment variable is `SPLUNK_DISCOVERY_RECEIVERS_<type>[_x2f_<name>]_CONFIG_<key>` |
| PropertySpelling.EnabledSpelled | internal/confmapprovider/discovery/properties/property.go:108-121 | and that of an enabled property without a name `SPLUNK_DISCOVERY_RECEIVERS_<type>_ENABLED` |
| PropertyLosses.KindNameIsLost | internal/confmapprovider/discovery/properties/property.go:108-175 | every tidy, NUL-free config property of a component whose ID ends in `/CONFIG` or `/ENABLED` parses, is not safe and does not come back |
| PropertyLosses.EmptyKeyIsLost | internal/confmapprovider/discovery/properties/property.go:108-175 | every tidy, NUL-free config property with an empty key parses, is not safe and does not come back |
| PropertyLosses.LostProperties | internal/confmapprovider/discovery/properties/property.go:108-175 | two such properties written out |
| RunTracking.CompletedJobRuns | internal/receiver/databricksreceiver/internal/databricks/service.go:46-63 | the pagination loop terminates and returns the joined pages up to the one it stops at, or fails if one of them does |
| RunTracking.EarlyStopRefinesFull | internal/receiver/databricksreceiver/internal/databricks/service.go:46-63 | what is fetched is a prefix of the history, not empty unless the history is, with the same runs later than the watermark as the whole history |
| RunTracking.FetchSucceeds | internal/receiver/databricksreceiver/internal/databricks/service.go:46-63 | without failing requests the fetch succeeds |
| RunTracking.FetchIs | internal/receiver/databricksreceiver/internal/databricks/service.go:46-63 | the fetch fails exactly if a request up to the last page asked for fails, and otherwise is the history up to that page's end |
| RunTracking.SomePageIsLast | internal/receiver/databricksreceiver/internal/databricks/service.go:46-63 | for every history there is such a page: the first one at the job's first poll, at the end of the history or past the watermark |
| RunTracking.CollectNewRuns | internal/receiver/databricksreceiver/internal/databricks/run_tracker.go:50-59 | the descending loop keeps the runs after the watermark, oldest first |
| RunTracking.NewSinceIs | internal/receiver/databricksreceiver/internal/databricks/run_tracker.go:50-59 | a run is new exactly if it is there and starts after the watermark |
| RunPolls.RunMetricsProvider.ExtractNewRuns | internal/receiver/databricksreceiver/internal/databricks/run_tracker.go:29-48 | advances the job's watermark to its latest run and returns the new runs, none the first time |
| RunPolls.RunMetricsProvider.RecordRuns | internal/receiver/databricksreceiver/internal/databricks/run_metrics_provider.go:55-65 | records one point per run and one per task in order, none for skipped runs |
| RunRecords.RunPointsAre | internal/receiver/databricksreceiver/internal/databricks/run_metrics_provider.go:55-65 | a run that was not skipped leaves its duration and key and duration of each task under its job, a skipped one nothing |
| RunRecords.RecordedExactly | internal/receiver/databricksreceiver/internal/databricks/run_metrics_provider.go:39-67 | over any polls, whatever fails: the durations recorded for a job are, in order, those of its delivered runs that were not skipped; task points are, in order, keys and durations of these runs' tasks, and as many |
| RunPolls.RunMetricsProvider.AddSingleJobRunMetrics | internal/receiver/databricksreceiver/internal/databricks/run_metrics_provider.go:49-67 | one job of one poll; a failed fetch changes nothing |
| RunPolls.RunMetricsProvider.AddMultiJobRunMetrics | internal/receiver/databricksreceiver/internal/databricks/run_metrics_provider.go:39-47 | one poll: jobs in order, abandoned at the first failure, which it reports |
| RunDelivery.PollDelivers | internal/receiver/databricksreceiver/internal/databricks/run_metrics_provider.go:39-67 | what a poll does for one job, however often it is asked about and whatever else the poll does: its watermark moves to its latest run and exactly the runs after the old one are delivered, if the poll reaches it; nothing otherwise |
| RunDelivery.DeliveredPerJob | internal/receiver/databricksreceiver/internal/databricks/run_metrics_provider.go:39-67 | after any polls, failed ones included, each job has been delivered what its own histories say at exactly the polls that reached it |
| RunDelivery.ReachedIfAnswered | internal/receiver/databricksreceiver/internal/databricks/run_metrics_provider.go:39-47 | a job is reached if no request up to its turn fails and it has runs, whatever fails afterwards |
| RunDelivery.AddedAreNewIff | internal/receiver/databricksreceiver/internal/databricks/run_tracker.go:29-59 | runs added at the front are all new exactly if they start later than the latest known |
| RunDelivery.ExactlyOnce | internal/receiver/databricksreceiver/internal/databricks/run_tracker.go:29-59 | for any polls over histories that only gain later runs: nothing of a job no poll reached, else exactly the runs added between the first and the last poll that reached it, each once, oldest first; the points recorded are those of the runs delivered |
| RunDelivery.DeliveredIff | internal/receiver/databricksreceiver/internal/databricks/run_tracker.go:29-59 | for any polls over histories that gain runs anywhere: a run is delivered once if it was new when first listed to a job already reached, and never otherwise |
| RunDelivery.DeliveredInOrder | internal/receiver/databricksreceiver/internal/databricks/run_tracker.go:50-59 | each job's runs are delivered in the order in which they started |
| RunDelivery.LateFinisherIsLost | internal/receiver/databricksreceiver/internal/databricks/raw_client.go:65-69 | a run that starts no later than another and is listed only after it is lost, though every poll succeeds |
| ReceiverNames.Decomposes | internal/receiver/discoveryreceiver/statussources/statements.go:102-165 | the result for every name of the documented form, whatever its type, name and endpoint ID |
| ReceiverSpelling.FullNameIs | internal/receiver/discoveryreceiver/statussources/statements.go:102-106 | the documented form, spelled out |
| ReceiverSpelling.PlaceholderSpelled | internal/receiver/discoveryreceiver/statussources/statements.go:119-121 | the placeholder form, spelled out |
| ReceiverSpelling.TargetMatches | internal/receiver/discoveryreceiver/statussources/statements.go:38 | the second separator matches `{endpoint=`, anything without `}`, and `}/` |
| ReceiverSpelling.TargetMatched | internal/receiver/discoveryreceiver/statussources/statements.go:38 | and nothing else |
| ReceiverSpelling.CountsFrom | internal/receiver/discoveryreceiver/statussources/statements.go:123-129 | matches are counted from the left and do not overlap |
| ReceiverSpelling.EndpointIdIs | internal/receiver/discoveryreceiver/statussources/statements.go:39 | the endpoint ID is what follows the last `}/`, if `{endpoint=` occurs before it and there is no newline, and empty otherwise |
| ReceiverNames.NameRoundTrip | internal/receiver/discoveryreceiver/statussources/statements.go:102-165 | type, name and endpoint ID come back exactly if the ID with its slash holds no separator and no newline is in the way |
| ReceiverNames.FieldRoundTrip | internal/receiver/discoveryreceiver/statussources/statements.go:114-121 | the same for statements that carry the endpoint ID in a field |
| ReceiverNames.CreatorOnce | internal/receiver/discoveryreceiver/statussources/statements.go:35-38 | nothing that ends in a slash runs into the first separator, and it is found where it was put |
| ReceiverNames.TargetOnce | internal/receiver/discoveryreceiver/statussources/statements.go:35-38 | exactly one match of the second separator, even if it starts inside the receiver's name |
| ReceiverNames.PromiseKept | internal/receiver/discoveryreceiver/statussources/statements_test.go:170-183 | exactly when the fuzz test's promise is kept on names of the documented form |
| ReceiverNames.EndpointLeftOver | internal/receiver/discoveryreceiver/statussources/statements_test.go:170-183 | every type segment that is no type or the sentinel and, with its slash, holds no separator leaves its endpoint ID over without a receiver |
| ReceiverNames.LeftOverInput | internal/receiver/discoveryreceiver/statussources/statements_test.go:170-183 | one such name written out |
| ReceiverNames.Validate | internal/receiver/discoveryreceiver/config.go:97-123 | over all receivers and the observers, exactly the problems there are get listed |
| ReceiverNames.NoProblemIff | internal/receiver/discoveryreceiver/config.go:100-116 | a receiver has no problem exactly if its ID passes every check and its entry is valid |
| ReceiverNames.AcceptedGap | internal/receiver/discoveryreceiver/config.go:105-112 | an accepted ID can be found again in its names exactly if it does not end in what a slash makes a separator |
| ReceiverNames.AcceptedButLost | internal/receiver/discoveryreceiver/config.go:105-112 | every `type/receiver_creator` whose type does not itself end in `receiver_creator` is accepted and lost |
| DiscoveryStatus.DetermineCurrentStatus | internal/confmapprovider/discovery/discoverer.go:782-794 | the greater of two statuses in unset, failed, partial, successful |
| DiscoveryStatus.Discoverer.ConsumeConfig | internal/confmapprovider/discovery/discoverer.go:696-726 | the known and the reported configuration are recorded, merged, or the call fails with the known one recorded |
| DiscoveryStatus.Discoverer.ConsumeRecords | internal/confmapprovider/discovery/discoverer.go:734-757 | the last valid status of the records wins over the statuses the group began with |
| DiscoveryStatus.Discoverer.ConsumeScopes | internal/confmapprovider/discovery/discoverer.go:728-757 | reading the first scope once per scope has the effect of its last valid status |
| DiscoveryStatus.Discoverer.ConsumeLogs | internal/confmapprovider/discovery/discoverer.go:646-762 | one call does what its groups do in order up to a configuration that does not decode, and fails exactly if there is one |
| DiscoveryStatus.StatusIsMaximum | internal/confmapprovider/discovery/discoverer.go:728-757 | after any calls each receiver's and each observer's status is the greatest that any group looked at says of it, skipped or not |
| DiscoveryReports.ReportedIff | internal/common/discovery/discovery.go:38-60 | a record counts exactly if its text is "failed", "partial" or "successful", each for its own status |
| DiscoveryReports.StatusIsToldText | internal/confmapprovider/discovery/discoverer.go:646-762 | after any calls a status is each of the three exactly if some group looked at has that text as last valid one of its first scope and none has a greater one, and there is none exactly if no group has any |
| DiscoveryReports.VisitedIff | internal/confmapprovider/discovery/discoverer.go:646-726 | a call looks at exactly the groups with receiver and observer up to the first that does not decode |
| DiscoveryReports.VisitedInIff | internal/confmapprovider/discovery/discoverer.go:646-655 | a call without a record is not looked at, any other is |
| DiscoveryReports.MergedEntry | internal/confmapprovider/discovery/discoverer.go:696-726 | a known non-empty rule and a known section replace the reported ones |
| DiscoveryReports.RecordedConfig | internal/confmapprovider/discovery/discoverer.go:696-726 | a carried configuration is recorded keyed and merged, a known one alone bare |
| DiscoveryStatus.StatusNeverDecreases | internal/confmapprovider/discovery/discoverer.go:728-757 | no status ever goes down |
| DiscoveryStatus.Discoverer.DiscoveryConfig | internal/confmapprovider/discovery/discoverer.go:474-500 | in any order: the successful receivers with a keyed configuration are named with it, bare configurations only leave one of their rules, and the service entry is there exactly if any receiver was selected |
| DiscoveryStatus.NamedIff | internal/confmapprovider/discovery/discoverer.go:474-490 | a receiver is selected exactly if some group reports it successful and some group has a configuration for it, and named exactly if the last configuration recorded is keyed |
| DiscoveryStatus.LastConfigIs | internal/confmapprovider/discovery/discoverer.go:696-726 | the last configuration is that of the last group that has one, keyed exactly if that group carries it |
| DiscoveryStatus.KnownIsNotNamed | internal/confmapprovider/discovery/discoverer.go:474-490 | over any calls, a receiver whose configuration no group looked at carries is named nowhere |
| DiscoveryStatus.SelectedNotNamed | internal/confmapprovider/discovery/discoverer.go:474-490 | one that a single group reports successful and that has a known configuration is selected and yet not named |
| RemoteWrite.LabelValue | internal/receiver/signalfxgatewayprometheusremotewritereceiver/internal/prometheus_spec_utils.go:65-72 | the value of the first label of the name, if there is one |
| RemoteWrite.SumIff | internal/receiver/signalfxgatewayprometheusremotewritereceiver/internal/prometheus_spec_utils.go:37-61 | exactly which names and labels make a cumulative sum rather than a gauge |
| RemotePoints.SumExactly | internal/receiver/signalfxgatewayprometheusremotewritereceiver/internal/prometheus_spec_utils.go:25-72 | the same with every label and suffix spelled out |
| RemotePoints.NameIs | internal/receiver/signalfxgatewayprometheusremotewritereceiver/internal/prometheus_spec_utils.go:65-72 | the name of a series is the value of its first `__name__` label |
| RemoteWrite.Parser.PartitionWriteRequest | internal/receiver/signalfxgatewayprometheusremotewritereceiver/prometheus_to_otel.go:78-107 | every series is in the partition of its type, in order, and in no other; empty series are counted; it fails exactly on a series without name label or samples |
| RemoteWrite.Parser.AddSamples | internal/receiver/signalfxgatewayprometheusremotewritereceiver/prometheus_to_otel.go:177-187 | one point per number, in order with its labels, and one count per NaN |
| RemotePoints.AttributeNames | internal/receiver/signalfxgatewayprometheusremotewritereceiver/prometheus_to_otel.go:264-270 | the attributes are named exactly by the labels other than `__name__` |
| RemotePoints.AttributeValue | internal/receiver/signalfxgatewayprometheusremotewritereceiver/prometheus_to_otel.go:264-270 | each has the value of the last label of its name |
| RemotePoints.PointsAreNumbers | internal/receiver/signalfxgatewayprometheusremotewritereceiver/prometheus_to_otel.go:177-187 | the i-th point has time and value of the i-th sample that is a number, and those attributes; the other samples are the NaNs counted |
| RemoteWrite.Parser.AddSeries | internal/receiver/signalfxgatewayprometheusremotewritereceiver/prometheus_to_otel.go:168-214 | a named series becomes one metric of its kind, an unnamed one is only counted |
| RemotePoints.MetricsAre | internal/receiver/signalfxgatewayprometheusremotewritereceiver/prometheus_to_otel.go:168-214 | the metrics are exactly those of the named series, with their name, kind and points, one each |
| RemoteWrite.Parser.AddMetrics | internal/receiver/signalfxgatewayprometheusremotewritereceiver/prometheus_to_otel.go:111-119 | a partition adds what its series add |
| RemoteWrite.Parser.Transform | internal/receiver/signalfxgatewayprometheusremotewritereceiver/prometheus_to_otel.go:66-76 | in whatever order the partitions are taken, metrics and counters are those of the series of the request |
| RemoteWrite.Parser.FromWriteRequest | internal/receiver/signalfxgatewayprometheusremotewritereceiver/prometheus_to_otel.go:55-64 | one request: its metrics, and the counters reported after it |
| RemoteWrite.Parser.Receive | internal/receiver/signalfxgatewayprometheusremotewritereceiver/prometheus_to_otel.go:55-119 | over any requests: samples received are points emitted, NaNs counted and samples of unnamed series; unnamed and empty series are counted |
| RemoteWrite.Conservation | internal/receiver/signalfxgatewayprometheusremotewritereceiver/prometheus_to_otel.go:168-214 | every sample is a point, a NaN or one of an unnamed series |
| Buckets.Translate | internal/receiver/lightprometheusreceiver/scraper.go:194-211 | prefix sums of the counts are the cumulative counts modulo 2^64, and equal them exactly if these never decrease; one more count than bounds, and none for no buckets |

## Left out

- YAML, URL query, JSON and base64 decoding, confmap merging and the OpenTelemetry data structures are parameters or plain values.
- The participle parser engine: only the token split that the two grammars describe is modelled.
- Close functions on error paths, which the code drops, and those of resolving the `config_sources` settings.
- The individual config sources (Vault, etcd2, ZooKeeper, include), HTTP, observers, timers and process control.
- Floating point: a sample is NaN or a real number, and a bucket's bound is a value to copy.
- Databricks page size 0, an empty page that is not nil, and a history that changes between the pages of one fetch.
- Wrap-around of the 64-bit counters of the remote write parser, and the times reported with them.
- Panics on receiver types and configurations that are not of the expected shape in discovery logs.
- PropertyNames.EnvVarRoundTrip: also speaks of component types outside the collector's type pattern, on which the code panics; the value of a property and its YAML or boolean errors are not modelled.
- The deep merge of two bare `config` sections in the suggested configuration; a decoded configuration is taken to hold the entry of its own receiver only.
- Creation of a key's mutex on first use is not a step of its own; reading or writing attributes under their lock is one step, and so is the reaper's look at an entry under the endpoint's lock.
- The type pattern comes from the collector's core library, which is not part of this model's source: a letter, then letters, digits and underscores.
- CorrelationStore.CorrelationMap.UpdateEndpoint: one time per call, while the code reads the clock for every entry; `CorrelationMachine` has a time per write.
- The checks of a receiver's entry by itself are a flag of `ReceiverNames.Validate`.
- Flag parsing, settings, converters, filters, dimension mapping, generated code and deployment files would only add easy members.
