# dash0 CLI: verification model

A Dafny model of the parts of the dash0 command line where behaviour spans several functions,
several goroutines or whole sessions, with proofs about them. `dafny verify dfyconfig.toml`
checks the project.

**The local OTLP proxy** (`internal/otlp/proxy_*.go`). SDKs send telemetry to the proxy; each
call counts its batch and offers it to a bounded queue of its signal; one worker a signal
decorates and forwards; failures are classified and counted; auth failures are surfaced on
stderr at most every 30 seconds; a sampler keeps a window of rates; a writer redraws a block of
three lines on the terminal and inserts messages above it.

- `ProxyLane`: one signal's lane as atomic steps, with a trail of where every batch went.
- `ProxyPipeline`: all lanes and side channels, interleaved in any order; a run is any sequence
  of steps. `Proxy` is the same state as a class whose methods are those steps.
- `Decorator`: attribute overlay on every resource, scope and record.
- `ProxyStats`: counters and rate sampler. `StatsBlock`: sparkline and layout.
- `Terminal`: a terminal as far as CR, LF, CUU and ED go. `StderrWriter`: the writer, and the
  proof that what it puts out shows as a plain log with the latest block below.

**Traces** (`internal/tracing/traces_get.go`). `TraceTree` orders spans as a forest over a parent
relation that may be cyclic, and `SpanOrder` says where spans stand in the result; `BreadthFirst`
and `LinkFollowing` treat the bounded search over span links, `LinkOrder` the order of new IDs. `Attributes` (`internal/otlp/attributes.go`) is the merge of attribute lists.

**OAuth sessions** (`internal/login`, `internal/config`, `internal/oauth`). `Session` gives the
commands as transitions of the profile store and the authorization servers, `SessionCommands`
runs them step by step, `SessionSafety` has what all runs keep. `CallbackListener` is the
single-shot redirect listener; `Utf8` and `Sanitize` treat text that a server supplies.

**Filters** (`internal/query/filter.go`, `internal/spamfilters/list.go`). `Filter` relates the
filter parser to the criterion printer; `Text` has the string functions both use.

`Wrappers` and `Sequences` hold what the modules share.

## Where the code does less than it says

Each of these is proved with the exact condition under which the stronger reading holds, and with
an input on which it fails.

- The forwarded counter is described as counting accepted batches, but it is raised before the
  queue is asked, so rejected batches count too (`ProxyLane.CountersMeanIff`,
  `ProxyPipeline.RejectedIsCounted`).
- A sample taken while the clock stands still loses its records from the rates
  (`ProxyStats.RunRates`, `ProxyStats.StandingClockLoses`).
- The block is redrawn in place only if no line is wider than the terminal; the sparkline never
  gets narrower than five columns, so on a narrow terminal old blocks stay behind
  (`StderrWriter.RedrawsInPlaceIff`, `StderrWriter.SnapFitsIff`,
  `StderrWriter.NarrowTerminalKeepsBlock`).
- Spans that share an ID with another span can be lost (`TraceTree.CompleteIffRootedIdsDistinct`,
  `TraceTree.DuplicateLost`).
- A trace ID typed in upper case can be fetched twice (`LinkFollowing.NeverTwiceIffLowerCase`).
- `profiles update --api-url` on a profile that is logged in separates the refresh token from its
  issuer, and a later logout sends it to the new URL (`SessionSafety.KeepsLinkIff`,
  `SessionSafety.EditedUrlMisdirects`).
- Deleting a logged-in profile, marking it as OAuth again, or adding one of its name, if the store
  replaces it, forgets a live refresh token without trying to revoke it
  (`SessionSafety.AbandonsIff`, `SessionSafety.OnlyTheseForget`, `SessionSafety.DeletionForgets`).
- The byte cut of a server's error text can leave a broken rune (`Sanitize.TruncateValidIff`,
  `Sanitize.CutSplitsRune`).
- Printed criteria with two or more values never parse back (`Filter.ListsDoNotReparse`).

## Model

| member | source | states |
|---|---|---|
| ProxyLane.ClassificationReadsBack | internal/otlp/proxy_workers.go:224-237 | kind and code determine the class of the error: auth exactly for 401 and 403, and code 0 exactly for transport errors and statuses outside 400-599 |
| ProxyLane.ObservedOk | internal/otlp/proxy_consumer.go:135-139 | counting a batch before it is offered keeps conservation, order and single outcome |
| ProxyLane.OfferedOk | internal/otlp/proxy_consumer.go:93-103 | the non-blocking enqueue, taken or refused, keeps them, and the queue stays within 128 |
| ProxyLane.TakenOk | internal/otlp/proxy_workers.go:102-144 | so does the worker taking the oldest batch |
| ProxyLane.FinishedOk | internal/otlp/proxy_workers.go:146-196 | so does the end of a send by success, failure or panic |
| ProxyLane.OutcomeDecides | internal/otlp/proxy_workers.go:146-196 | the outcome of a send alone decides where the batch goes and what is counted; a warning is due exactly after a 401 or 403 |
| ProxyLane.OfferDecides | internal/otlp/proxy_consumer.go:93-103 | an offer joins the end of the queue exactly when fewer than 128 batches are queued, and is refused otherwise |
| ProxyLane.RecordsAccepted | internal/otlp/proxy_workers.go:146-196 | records of accepted batches are those queued, in flight, delivered, failed or lost to a panic |
| ProxyLane.CountersMeanIff | internal/otlp/proxy_stats.go:46-64 | Failed never exceeds Forwarded; Forwarded is what was accepted exactly when no record was rejected or awaits its offer; Forwarded minus Failed is what was delivered exactly when moreover none is queued, in flight or lost |
| ProxyPipeline.AlwaysOk | internal/otlp/proxy_consumer.go:93-158 | in every interleaving and for every signal: batches handed over followed by the queue are the accepted ones in order, each handed batch ends once, the counters add up |
| ProxyPipeline.CountersInEveryRun | internal/otlp/proxy_consumer.go:93-158 | in every interleaving Forwarded is the sum over all places a batch can be, and Failed counts exactly the failed ones |
| ProxyPipeline.RejectedIsCounted | internal/otlp/proxy_consumer.go:93-103 | after 129 one-record calls without a worker's turn Forwarded says 129, and 128 records were accepted |
| ProxyPipeline.LaneStandsAlone | internal/otlp/proxy_consumer.go:135-158 | a signal's queue, counters, order and return values are those of its own steps alone, whatever other signals do and whether event, tail and lifecycle channels exist, are full or are read |
| ProxyPipeline.InboundIsTold | internal/otlp/proxy_consumer.go:135-158 | a batch with records is told to the event channel (128 places) and the tail channel (16) that exist and have room, and nowhere else |
| ProxyPipeline.FailureIsTold | internal/otlp/proxy_workers.go:175-196 | failures and panics are told to the event channel if it exists and has room, with class and code; successes are not |
| ProxyPipeline.QueueDrains | internal/otlp/proxy_workers.go:102-168 | from every state with a free worker, also after cancellation, its queue can be delivered completely and in order |
| ProxyPipeline.StopsOnlyCancelled | internal/otlp/proxy_workers.go:102-144 | in every run a stopped worker means that the proxy was cancelled, and after cancellation a free worker can stop |
| ProxyPipeline.WarningStep | internal/otlp/proxy_workers.go:198-218 | one step keeps the spacing of warnings, their cause and the throttle's reference time |
| ProxyPipeline.WarningsSpaced | internal/otlp/proxy_workers.go:198-218 | in every run the warnings that reach the channel are at least 30 s apart, each caused by a 401 or 403, and the throttle runs from the last one really sent, so a dropped one starts no window |
| ProxyPipeline.WarnsIff | internal/otlp/proxy_workers.go:198-218 | in every run a worker with a 401 or 403 to surface sends the warning exactly when the channel exists, none went out before or the last one at least 30 s ago, and fewer than 8 messages are queued |
| ProxyPipeline.OnlySurfacingWarns | internal/otlp/proxy_workers.go:198-218 | no other step sends a warning or moves the reference time |
| Proxy.Proxy.constructor | internal/otlp/proxy_consumer.go:64-73 | empty queues, zero counters |
| Proxy.Proxy.ObserveBatch | internal/otlp/proxy_consumer.go:135-158 | counter, event and tail as the step says, lossy where the channel is full |
| Proxy.Proxy.OfferBatch | internal/otlp/proxy_consumer.go:93-129 | nil exactly when the queue had room, and exactly then the batch joins the accepted ones; else it joins the rejected ones |
| Proxy.Proxy.Consume | internal/otlp/proxy_consumer.go:93-129 | a call is the two steps, and returns nil exactly when its batch was accepted |
| Proxy.Proxy.TakeBatch | internal/otlp/proxy_workers.go:102-144 | oldest batch first, in order |
| Proxy.Proxy.FinishSend | internal/otlp/proxy_workers.go:146-168 | a success records the delivery; a failure and a panic go their own ways, and the worker is free again unless a warning is due |
| Proxy.Proxy.ClassifyOutcome | internal/otlp/proxy_workers.go:175-185 | failure counted with the batch's records, event emitted, auth failures marked for surfacing |
| Proxy.Proxy.RecoverPanic | internal/otlp/proxy_workers.go:187-196 | a panic raises no failure counter, only an event |
| Proxy.Proxy.MaybeSurfaceAuthError | internal/otlp/proxy_workers.go:198-218 | a warning goes out exactly if the channel exists and has room and no warning went out in the last 30 s, a first one always; the reference time moves only then |
| Proxy.Proxy.StopWorker | internal/otlp/proxy_workers.go:102-144 | a worker stops only when cancelled and idle |
| ProxyStats.Stats.RecordForwarded | internal/otlp/proxy_stats.go:50-55 | adds to its signal only, ignoring unknown signals and non-positive counts |
| ProxyStats.Stats.RecordFailed | internal/otlp/proxy_stats.go:59-64 | adds to the failure counter of its signal only, ignoring unknown signals and non-positive counts |
| ProxyStats.RunsAscend | internal/otlp/proxy_stats.go:50-64 | in every run of records and ticks no reading is below an earlier one or above the counter |
| ProxyStats.Drive | internal/otlp/proxy_stats.go:186-204 | counters and sampler driven by any sequence of records, failures and ticks are in the state of that run, the window being its last samples |
| ProxyStats.RateSampler.constructor | internal/otlp/proxy_stats.go:129-139 | empty window, capacity at least one |
| ProxyStats.RateSampler.Sample | internal/otlp/proxy_stats.go:144-167 | the window is the last samples of all readings up to the capacity, in order, the newest being the one returned |
| ProxyStats.Rate | internal/otlp/proxy_stats.go:150-159 | every signal's rate against the previous reading; zero when the clock did not advance |
| ProxyStats.RateSampler.History | internal/otlp/proxy_stats.go:172-178 | returns the last samples of all readings up to the capacity |
| ProxyStats.WindowConsecutive | internal/otlp/proxy_stats.go:144-167 | every rate in the window after the first is against the entry before it, also after evictions |
| ProxyStats.FlowConservation | internal/otlp/proxy_stats.go:144-167 | rates times intervals plus what a standing clock lost is the growth of the counter over the window |
| ProxyStats.RatesAccountForAllIff | internal/otlp/proxy_stats.go:150-159 | on a counter that does not go down rates are non-negative, and account for all records exactly when none was counted under a standing clock |
| ProxyStats.WindowGrows | internal/otlp/proxy_stats.go:144-167 | the window of every run is one of such a counter |
| ProxyStats.RunRates | internal/otlp/proxy_stats.go:144-167 | so in every run, whatever the clock does, the window's rates are non-negative, rates times intervals plus losses are the growth, and nothing is lost exactly when no record was counted under a standing clock |
| ProxyStats.StandingClockLoses | internal/otlp/proxy_stats.go:150-159 | a record between two ticks at one time is lost from the rates |
| Decorator.UpsertMap | internal/otlp/proxy_decorator.go:188-192 | for every iteration order: old pairs keep their places, overridden, and exactly the missing keys follow |
| Decorator.LookupIsOverlay | internal/otlp/proxy_decorator.go:188-192 | a lookup afterwards finds the configured value, or else what was there |
| Decorator.OverlayIdempotent | internal/otlp/proxy_decorator.go:188-192 | a second pass changes nothing |
| Decorator.OverlayUnchangedIff | internal/otlp/proxy_decorator.go:188-192 | nothing changes exactly when every configured value was already there |
| Decorator.OrderDoesNotMatter | internal/otlp/proxy_decorator.go:188-192 | two iteration orders give permutations of each other that agree on the old places |
| Decorator.UpsertScope | internal/otlp/proxy_decorator.go:200-213 | name and version replaced only if configured, attributes overlaid |
| Decorator.UpsertMetricDataPoints | internal/otlp/proxy_decorator.go:157-185 | every data point of each of the five flavours is overlaid, flavour and name kept |
| Decorator.DecorateLogs | internal/otlp/proxy_decorator.go:80-100 | every resource, scope and log record of the batch is overlaid, in place and in order |
| Decorator.DecorateTraces | internal/otlp/proxy_decorator.go:104-124 | every resource, scope and span of the batch is overlaid, in place and in order |
| Decorator.DecorateMetrics | internal/otlp/proxy_decorator.go:130-150 | every resource, scope and data point of the batch is overlaid, in place and in order |
| Decorator.BatchIdempotent | internal/otlp/proxy_decorator.go:80-213 | decorating a decorated batch leaves it as it is, whatever the iteration orders |
| Decorator.EmptyDecoratorIsNoOp | internal/otlp/proxy_decorator.go:67-76 | skipping an empty decorator is the same as applying it |
| Decorator.CountKept | internal/otlp/proxy_workers.go:146-168 | the record count taken before decoration is that of the decorated batch |
| Decorator.ScopeReads | internal/otlp/proxy_decorator.go:80-213 | every resource and scope of a decorated batch reads as configured, by key, name and version, and otherwise as before |
| Decorator.RecordReads | internal/otlp/proxy_decorator.go:80-185 | every record of a decorated batch, data points of all flavours included, reads as configured and otherwise as before, its payload kept |
| StatsBlock.Sparkline | internal/otlp/proxy_sparkline.go:25-62 | one glyph a sample, at the nearest level of its share of the peak; the clamps never act |
| StatsBlock.PeakIsMax | internal/otlp/proxy_sparkline.go:32-40 | the peak is the largest sample, or zero if none is positive |
| StatsBlock.PeakBounds | internal/otlp/proxy_sparkline.go:42-60 | every glyph index is within the ramp before clamping |
| StatsBlock.NearestLevel | internal/otlp/proxy_sparkline.go:49-52 | a level is within half a step of the exact proportion |
| StatsBlock.GlyphsFollowSamples | internal/otlp/proxy_sparkline.go:42-60 | glyphs are monotone in the samples, the peak gets U+2587, non-positive samples U+2581 |
| StatsBlock.GlyphIsNearest | internal/otlp/proxy_sparkline.go:42-60 | the glyph of a positive sample is the one of U+2581 to U+2587 nearest to its share of the peak |
| StatsBlock.ScaleFree | internal/otlp/proxy_sparkline.go:49-52 | scaling all samples changes no glyph |
| StatsBlock.DigitCount | internal/otlp/proxy_stderr_writer.go:229-238 | a total fits k columns exactly when it is below 10^k |
| StatsBlock.DigitsReadBack | internal/otlp/proxy_stderr_writer.go:229-238 | printed totals read back as the numbers they are |
| StatsBlock.RateReadsBack | internal/otlp/proxy_stderr_writer.go:247-248 | a printed rate reads back as the nearest whole number, the even one of two |
| StatsBlock.SignsReadBack | internal/otlp/proxy_stderr_writer.go:229-248 | negative totals and rates print as a minus sign and the digits of their size |
| StatsBlock.RateFitsIff | internal/otlp/proxy_stderr_writer.go:247-248 | a rate fits its five columns exactly when it is between -9999.5 and 99999.5 |
| StatsBlock.RenderPaddedSparkline | internal/otlp/proxy_stderr_writer.go:287-299 | always exactly the requested width |
| StatsBlock.NewestAtRightEdge | internal/otlp/proxy_stderr_writer.go:282-299 | from the right edge leftwards the columns show the newest samples, scaled to the peak of what is shown, and blanks where there is no sample |
| StatsBlock.CurrentSparklineWidth | internal/otlp/proxy_stderr_writer.go:261-280 | always between 5 and 30 columns |
| StatsBlock.SparklineWidthIs | internal/otlp/proxy_stderr_writer.go:261-280 | 5 columns up to 41, 30 from 66, and all but 36 in between; 5 without a terminal of known width |
| StatsBlock.FormatStatsBlock | internal/otlp/proxy_stderr_writer.go:217-251 | the three lines, totals padded to the widest |
| StatsBlock.RecordRate | internal/otlp/proxy_stderr_writer.go:191-199 | each history becomes the last 30 rates of its signal, in place |
| StatsBlock.LineWidthIs | internal/otlp/proxy_stderr_writer.go:217-251 | a line is the fixed overhead, its rate (five columns, or more if it needs more), the sparkline and the widest total, whatever the history |
| StatsBlock.EqualWidthsIff | internal/otlp/proxy_stderr_writer.go:217-251 | two lines are equally wide exactly when their rates take equally many columns, as all rates that fit the column do |
| StatsBlock.WidestLineDecides | internal/otlp/proxy_stderr_writer.go:217-251 | all lines are within a width exactly when the one with the widest rate is |
| StatsBlock.SameColumns | internal/otlp/proxy_stderr_writer.go:201-216 | label (logs, spans, metrics, right-aligned), rate, sparkline and total stand in the same columns of every line, with the fixed text between them |
| StatsBlock.TotalsFitIff | internal/otlp/proxy_stderr_writer.go:229-238 | the total column is k wide or less exactly when every total is below 10^k |
| StatsBlock.LeavesMarginIff | internal/otlp/proxy_stderr_writer.go:261-280 | for any rates and totals, the lines leave a margin of up to two columns exactly when the terminal has the stated number of columns |
| StatsBlock.FitsAsSized | internal/otlp/proxy_stderr_writer.go:261-280 | from 41 columns on, with five-column rates and ten-digit totals, every line leaves the two columns free |
| Terminal.FeedIsType | internal/otlp/proxy_stderr_writer.go:166-184 | text without control functions appears as typed on a scrolling page |
| Terminal.EraseUndoesType | internal/otlp/proxy_stderr_writer.go:148-152 | clearing from where a text began brings back the page it was typed on |
| Terminal.TypeLine | internal/otlp/proxy_stderr_writer.go:42-46 | a line stays on its row exactly when it is not wider than what is left of the row |
| Terminal.TypePlaces | internal/otlp/proxy_stderr_writer.go:166-168 | a line that fits is laid out in order, a character a column |
| StderrWriter.EraseEffect | internal/otlp/proxy_stderr_writer.go:144-153 | the erase sequence moves to column 0 two rows up, but not off the screen, and clears from there |
| StderrWriter.RedrawsInPlaceIff | internal/otlp/proxy_stderr_writer.go:155-169 | drawing a block and erasing it restores the screen exactly when no line is wider than the terminal |
| StderrWriter.SnapFitsIff | internal/otlp/proxy_stderr_writer.go:261-280 | the number of columns that this takes, from the widest printed rate and the widest total, whatever they are |
| StderrWriter.NarrowTerminalKeepsBlock | internal/otlp/proxy_stderr_writer.go:144-169 | on fewer than 30 columns an idle block is not fully erased: after one tick and a cancellation the screen is not what it was |
| StderrWriter.StateAfter | internal/otlp/proxy_stderr_writer.go:128-187 | after any run the writer holds the last 30 rates of each signal and the last snapshot, and has a block up exactly on a terminal that saw a tick |
| StderrWriter.LogThenBlock | internal/otlp/proxy_stderr_writer.go:118-127 | at every moment of every run the screen is what was there, all messages in order, then only the latest block |
| StderrWriter.OnlyLogAfterCancel | internal/otlp/proxy_stderr_writer.go:173-175 | after cancellation no block remains |
| StderrWriter.PipedOutputIsLog | internal/otlp/proxy_stderr_writer.go:118-127 | without a terminal the output is the messages and nothing else |
| StderrWriter.StderrWriter.EraseBlock | internal/otlp/proxy_stderr_writer.go:144-153 | erases only a rendered block, only on a terminal |
| StderrWriter.StderrWriter.RenderBlock | internal/otlp/proxy_stderr_writer.go:155-169 | erases the old block before drawing the new |
| StderrWriter.StderrWriter.OnTick | internal/otlp/proxy_stderr_writer.go:176-180 | rates recorded before the block is drawn |
| StderrWriter.StderrWriter.OnLifecycle | internal/otlp/proxy_stderr_writer.go:181-184 | message between erase and redraw |
| StderrWriter.StderrWriter.Run | internal/otlp/proxy_stderr_writer.go:171-187 | for every sequence of events the state is that of their steps, followed by one erase |
| TraceTree.BuildTree | internal/tracing/traces_get.go:390-443 | terminates on every input, cyclic ones too; the result is the pre-order walk of the forest followed by exactly the spans whose parent chain reaches no root, in input order |
| TraceTree.WalkRoots | internal/tracing/traces_get.go:417-434 | the walk visits exactly the IDs whose parent chain reaches a root, each once, subtrees contiguous and parents first |
| TraceTree.FindRoots | internal/tracing/traces_get.go:409-414 | the spans without a parent in the trace; that they come in input order is SpanOrder.SiblingsInInputOrder |
| TraceTree.IndexSpans | internal/tracing/traces_get.go:395-407 | the last span of each ID, the children in input order |
| TraceTree.PermutationOfDistinct | internal/tracing/traces_get.go:390-443 | with distinct IDs the result is a permutation of the input |
| TraceTree.CompleteIffRootedIdsDistinct | internal/tracing/traces_get.go:399-402 | no span is lost exactly when no span below a root shares its ID |
| TraceTree.DuplicateLost | internal/tracing/traces_get.go:399-402 | of two root spans with one ID only the second is shown |
| SpanOrder.SiblingsInInputOrder | internal/tracing/traces_get.go:404-434 | with distinct IDs, roots stand in the result in input order, and so do the children of every rooted span |
| SpanOrder.RestLastInInputOrder | internal/tracing/traces_get.go:435-441 | with distinct IDs, spans whose parent chain reaches no root stand behind all others, in input order |
| SpanOrder.SubtreesContiguous | internal/tracing/traces_get.go:417-434 | with distinct IDs, only descendants of a span stand between two descendants of it |
| LinkFollowing.ExtractLinkedTraceIDs | internal/tracing/traces_get.go:506-531 | the new trace IDs in order of first occurrence over all four loops, and seen grown by exactly these |
| LinkFollowing.FreshFacts | internal/tracing/traces_get.go:513-516 | new IDs are the non-empty unseen links, without repeats |
| LinkFollowing.LinkIff | internal/tracing/traces_get.go:510-529 | an ID is among the links read exactly when some span of some scope of some resource names it in its links or its forward links |
| LinkOrder.NewIdsInOrder | internal/tracing/traces_get.go:506-531 | new IDs come in the order of their first link: by resource, scope, span, backward before forward, and position |
| LinkFollowing.FollowSpanLinks | internal/tracing/traces_get.go:236-252 | no trace twice, at most 20, nearest first by link distance, and nothing left out is nearer; every link of a fetched trace, backwards or forwards, is among the results or still queued; the queue ends empty exactly when the results are the whole closure, and else there are 20; the only failure is the failed fetch of a linked trace |
| LinkFollowing.NeverTwiceIffLowerCase | internal/tracing/traces_get.go:236-252 | the same trace is never fetched under two spellings if the argument is lower case, and can be if it is not |
| BreadthFirst.DiscoveredWithin | internal/tracing/traces_get.go:239-251 | whatever is as near as the head of the queue has been seen |
| BreadthFirst.Expand | internal/tracing/traces_get.go:239-251 | one round keeps seen traces as those fetched and those queued, disjoint, by non-decreasing distance |
| BreadthFirst.EmptyQueueIffClosure | internal/tracing/traces_get.go:239-251 | the queue is empty exactly when the fetched traces are all those reachable over links, also at exactly 20 |
| BreadthFirst.BelowCapIsClosure | internal/tracing/traces_get.go:239-251 | fewer than 20 results are all the traces reachable over links |
| Attributes.MergeAttributes | internal/otlp/attributes.go:43-57 | keys in order of first occurrence, each once, each with its last binding |
| Attributes.LastByPosition | internal/otlp/attributes.go:43-57 | every entry of the merge is a binding of the input behind which its key does not occur again |
| Attributes.KeysByPosition | internal/otlp/attributes.go:43-57 | of two keys of the merge the one that occurs first in the input comes first, and no key of the input is missing |
| Attributes.FindAttribute | internal/otlp/attributes.go:12-19 | text of the first binding of a key |
| Attributes.LookupIsLastBinding | internal/otlp/attributes.go:41-57 | looking a key up in the merge is a backward search of all bindings |
| Attributes.MergeOfSlicesIsMergeOfConcatenation | internal/otlp/attributes.go:41-57 | merging slices is merging their concatenation |
| Attributes.SpanOverridesScopeOverridesResource | internal/otlp/attributes.go:41-57 | later slices win |
| CallbackListener.CallbackListener.Handle | internal/login/callback.go:132-189 | 405, 400, 410, 404 or the handoff as the request and the listener say; only a handoff changes the state, and claims the slot |
| CallbackListener.CallbackListener.SendResult | internal/login/callback.go:182-188 | fills the channel if it is empty and drops the result otherwise |
| CallbackListener.CallbackListener.Wait | internal/login/callback.go:111-120 | returns and removes the result, or reports a dead server or the end of the context, each only if it is so; an error leaves the listener as it was |
| CallbackListener.DeliversFirstArmed | internal/login/callback.go:132-189 | in every interleaving exactly the first GET of /callback with the armed state is claimed, and its result is on its way, waiting or received, once, never dropped |
| CallbackListener.AtMostOneReceived | internal/login/callback.go:111-120 | at most one result is received, that one |
| CallbackListener.OthersLeaveNoTrace | internal/login/callback.go:132-189 | a request changes the listener exactly when it is that first one; later armed requests get 410, and only they |
| CallbackListener.AnswersMean | internal/login/callback.go:132-214 | after any run: 405 for other methods, 404 for other paths, the explanation at the root, 400 for a wrong or unarmed state, 410 after the first armed request |
| CallbackListener.ValidationMeans | internal/login/login.go:367-400 | login goes on exactly with the sent state, no error and a code, a wrong state and a missing code being told apart; error code and description are shown up to 512 bytes and an ellipsis, left out exactly when nothing of them is clean, and each valid exactly when its cut split no rune |
| CallbackListener.ReceivedStateMatches | internal/login/login.go:367-377 | the second check of the state never fails on a received result |
| Sanitize.SanitizeASText | internal/oauth/sanitize.go:42-76 | the byte loop yields the kept runes of the capped text |
| Sanitize.OutputIsClean | internal/oauth/sanitize.go:15-41 | output is valid UTF-8 without any listed code point, also when the cap splits a rune |
| Sanitize.NothingHazardous | internal/oauth/sanitize.go:56-101 | the output holds no control but the tab, no line or paragraph separator, no zero-width or direction mark and no byte-order mark, each given by its code points |
| Sanitize.OnlyHazardsDropped | internal/oauth/sanitize.go:56-101 | and no other rune is dropped |
| Sanitize.OutputIsSubsequence | internal/oauth/sanitize.go:42-76 | output bytes are a subsequence of the input |
| Sanitize.UnchangedIff | internal/oauth/sanitize.go:42-76 | text passes unchanged exactly when it is valid, clean and at most 4096 bytes |
| Sanitize.Idempotent | internal/oauth/sanitize.go:42-76 | a second pass changes nothing |
| Sanitize.TruncateValidIff | internal/login/login.go:750-755 | the cut text is valid exactly when it was short or the cut fell between runes |
| Sanitize.CutSplitsRune | internal/login/login.go:750-755 | 511 letters and an accented one are clean text whose display is not valid |
| Utf8.DecodeEncoded | internal/oauth/sanitize.go:54-74 | an encoded rune decodes to itself, as section 4 of RFC 3629 has it |
| Utf8.EncodeDecoded | internal/oauth/sanitize.go:54-74 | a decoded rune encodes to the bytes it was read from |
| Utf8.CutValidIff | internal/oauth/sanitize.go:46-48 | a prefix of valid text is valid exactly when it does not split a rune |
| Filter.SplitQuotedTokens | internal/query/filter.go:227-241 | terminates, the rest shrinking with every token, and collects all tokens or the error |
| Filter.NextQuotedToken | internal/query/filter.go:245-258 | a token and a strictly shorter rest; a token never both begins with and contains a quote |
| Filter.ReparsesIff | internal/spamfilters/list.go:196-218 | a printed filter parses back to itself exactly for the stated filters, over all filters there are |
| Filter.SingletonReparses | internal/spamfilters/list.go:200-208 | a list of one value comes back exactly when the value is one plain token |
| Filter.ListsDoNotReparse | internal/spamfilters/list.go:200-208 | lists of two or more values never come back, because the bar between them is read as a value |
| Filter.QuotedKeyIff | internal/query/filter.go:123-142 | a single-quoted key parses back, spaces and all, exactly when it is not empty and holds no quote |
| Filter.ImplicitIsIff | internal/query/filter.go:145-157 | without an operator the whole rest is the value of an `is` filter, exactly when it does not begin with an operator |
| Filter.SpellingsAgree | internal/query/filter.go:145-184 | any two tokens known as the same operator parse to the same filter, whatever key and value |
| Filter.SymbolsMeanNames | internal/query/filter.go:34-42 | each of the eight symbols gives the filter of the name it stands for, whatever key and value |
| Filter.NamesMean | internal/query/filter.go:14-32 | every operator with one value, by its literal name, gives the filter with that operator and value |
| Filter.NoOtherOperators | internal/query/filter.go:13-42 | the nineteen names and eight symbols are all the operators |
| Filter.EmptyLiteralMeansSet | internal/query/filter.go:145-184 | an empty quoted literal behind = asks for keys not set, behind != for keys set |
| Filter.SetOperatorsMean | internal/query/filter.go:145-184 | is_set and is_not_set stand without a value and are refused with one |
| Filter.Incomplete | internal/query/filter.go:103-184 | blank text, a key alone and an operator that lacks its value are refused, each with its own error |
| Filter.KeyErrorsIff | internal/query/filter.go:103-142 | over all texts: exactly when blank text, an unclosed quote, an empty key and a key alone are told |
| Filter.ListMeans | internal/query/filter.go:186-241 | a list operator with single-quoted values gives exactly these values in order |
| Filter.OpenListRefused | internal/query/filter.go:227-258 | a list with an unclosed quote is refused, whatever stands before it |
| Filter.QuotedTokensIff | internal/query/filter.go:227-258 | single-quoted tokens joined by spaces split into themselves exactly when none is empty or holds a quote |
| SessionCommands.Cli.CreateProfile | internal/config/config_cmd.go:351-390 | the profile as given, or the refusal of conflicting flags |
| SessionCommands.Cli.UpdateProfile | internal/config/config_cmd.go:439-576 | flag checks, prompts, revocation before the write, and the write |
| SessionCommands.Cli.ApplyUpdate | internal/config/config_cmd.go:536-564 | only given flags change, a change of OAuth mode clears the credentials |
| SessionCommands.Cli.ExchangeAndValidateTokens | internal/login/login.go:409-488 | tokens accepted, or the new refresh token sent for revocation |
| SessionCommands.Cli.PersistProfile | internal/login/login.go:690-726 | URL, tokens and capped expiry replaced, the rest kept |
| SessionCommands.Cli.PersistAndRevoke | internal/login/login.go:498-539 | compensation on failure, old token revoked after the write |
| SessionCommands.Cli.ResolveTarget | internal/login/login.go:172-207 | target name, state, superseded token and URLs, or the reason there is no target |
| SessionCommands.Cli.Classify | internal/login/login.go:549-575 | state of the named profile, its refresh token and its API URL |
| SessionCommands.Cli.ResolveUrl | internal/login/login.go:585-604 | flag, environment, existing profile, and the active profile only for an implicit target |
| SessionCommands.Cli.Prompt | internal/login/login.go:214-238 | profiles that are not yet OAuth are asked about |
| SessionCommands.Cli.ConfirmDestructiveOperation | internal/confirmation/confirmation.go:43-77 | force and agent mode go on, otherwise only a yes does |
| SessionCommands.Cli.RunLogin | internal/login/login.go:113-166 | state and outcome are those of the transition Login: refusal outside a terminal, target, prompt, authorization, exchange, write, revocation, each failure leaving at that point |
| SessionCommands.Cli.RunLogout | internal/login/logout.go:27-158 | state and outcome are those of the transition Logout: refusals, stale-token branch, prompt, revocation before the write |
| SessionCommands.Cli.RevokeToken | internal/oauth/revoke.go:31-52 | one request, or none if URL or token is empty; false exactly when a request was made and failed |
| SessionSafety.KindsAgree | internal/config/config_cmd.go:643-654 | authKind and classifyProfile agree on every profile, and name its tokens and OAuth mode |
| SessionSafety.RunWellFormed | internal/config/config_cmd.go:536-564 | over every run an OAuth profile has an access token exactly when it has a refresh token |
| SessionSafety.NoStaleToken | internal/login/logout.go:97-124 | the branch of logout that clears a stale token has nothing to do after any run |
| SessionSafety.FailureLeavesStore | internal/login/login.go:113-166 | a command that fails leaves every profile and the selection alone |
| SessionSafety.LoginOutcomes | internal/login/login.go:409-539 | a token that a login obtains is stored, or its revocation was tried at its issuer; the superseded token is sent away only after the new one is stored, to the profile's previous URL, and not at all if that is empty; the note tells when it was not sent or not revoked |
| SessionSafety.TokenFromLoginUrl | internal/login/login.go:577-604 | whatever becomes of a login, a token it obtains comes from the URL of the flag, else of the environment, else of the profile |
| SessionSafety.LoginStores | internal/login/login.go:690-726 | a successful login stores that URL, the new tokens and a lifetime of at most a day, and keeps the other settings |
| SessionSafety.SucceedsIff | internal/login/login.go:113-166 | for every command, what it needs to be given and to find in order to succeed, both ways |
| SessionSafety.LoginKeepsSettings | internal/login/login.go:688-706 | OTLP URL and dataset survive a relogin |
| SessionSafety.CreateStores | internal/config/config_cmd.go:351-390 | a created profile is as its flags say, in OAuth mode without any token |
| SessionSafety.UpdateSets | internal/config/config_cmd.go:536-564 | an update sets exactly the given fields; a given OAuth mode clears the credentials |
| SessionSafety.LogoutClears | internal/login/logout.go:97-158 | a logout takes both tokens and keeps URLs, dataset and OAuth mode |
| SessionSafety.NotesMean | internal/login/logout.go:126-158 | the note of logout and update tells that a revocation was requested and failed |
| SessionSafety.FailuresMean | internal/login/login.go:113-166 | for every command, what a failure says is the reason for it |
| SessionSafety.SelectionMeans | internal/config/config_cmd.go:846-905 | which profile is active after a success: the selected one, the store's choice after one was added or removed, else the one before |
| SessionSafety.ActiveFallbackIsIdle | internal/login/login.go:577-604 | falling back to the active profile's URL never changes the result: it is that of the flag, else of the environment, else of the profile |
| SessionSafety.KeepsLinkIff | internal/config/config_cmd.go:536-539 | a profile's API URL stays the issuer of its refresh token under every command except an edit of the URL of a logged-in profile, and never under that one |
| SessionSafety.RevokesAtIssuer | internal/oauth/revoke.go:31-52 | while it does, a token is only sent for revocation to its own issuer |
| SessionSafety.RunKeepsIssuers | internal/login/login.go:490-497 | so it is over every run without such an edit |
| SessionSafety.EditedUrlMisdirects | internal/config/config_cmd.go:536-539 | create, log in, edit the URL, log out: the token goes to the new URL |
| SessionSafety.AbandonsIff | internal/config/config_cmd.go:439-564 | a command leaves a token behind, neither stored nor ever sent to its issuer, exactly when its inputs let it succeed and it replaces, deletes or re-marks a logged-in profile, or drops the token of a profile whose recorded URL is not the issuer |
| SessionSafety.DeletionForgets | internal/config/config_cmd.go:855-868 | create, log in, delete: the token is neither stored nor was sent anywhere |
| SessionSafety.RunAbandonsNothing | internal/login/login.go:402-408 | a run without such commands leaves no token behind |
| SessionSafety.OnlyTheseForget | internal/config/config_cmd.go:546-551 | without URL edits only replacing, deleting or re-marking a logged-in profile forgets a token, under the stated inputs; login, logout and leaving OAuth never do |

## Left out

- Proxy.Proxy.Consume: the two steps of one call with nothing in between; with other steps in between see the run lemmas of ProxyPipeline.
- Decorator.DecorateLogs: updates the array of resource groups in place, but attribute maps inside a group are values, so aliasing between them is not captured.
- StderrWriter.LogThenBlock: assumes a terminal of constant size with at least three rows, the cursor at column 0 with nothing below it, messages of printable characters and line feeds, and one column a character; tabs, wide and combining characters and resizing are not modelled.
- ProxyStats.RateSampler.Sample: reals for floating point and unbounded integers for 64-bit counters; NaN and infinite rates do not occur and are not modelled in the sparkline either.
- TraceTree.BuildTree: depth-first walk as in the source, but call-stack depth is not bounded.
- Filter.ReparsesIff: strings of Unicode characters; invalid UTF-8 and case folding are not modelled.
- Session.Create: adding a profile under a name that exists may fail or replace it; the store's own rule is not part of the repository, so both are allowed.
- Session.Execute: each command runs alone on a store that changes atomically; two CLI processes at once, the token refresh inside the API client and hand edits of the profile file are not modelled.
- Session.Revoke: what a revocation does on the server is not modelled, only where it is sent, when, and whether it is reported as failed.
- Session.WriteUpdate: the note about a failed revocation is modelled on success; the source prints it beside a failed write too.
- CallbackListener.Respond: redirect to the web app and plain-text fallback are one answer; the mapping of API hosts to web-app hosts is left out.
- JSON filters, ParseFilters and the value union of the API client beyond strings.
- Registration and caching of OAuth clients, the PKCE check and browser start: one answer of the environment.
- Delivery of stdout events at shutdown: the writer's context is cancelled before the shutdown event is sent.
- Network, OTLP receiver, browser, sockets, YAML and file system; command wiring, help text, colours, tables, CSV and JSON output; the CRUD commands.
