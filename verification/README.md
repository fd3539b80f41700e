# Verified model of the LLM gateway and its node agent

This project models, in Dafny 4.11, the parts of the gateway and the node agent whose
correctness is hardest to see by reading: the goroutines that supervise an engine process,
admission control and the routing index, the streaming relay, the capacity planner, the
statistics rollup, the two limiters and the cache directory names. `dafny verify dfyconfig.toml`
checks all of it.

| file | models |
|---|---|
| `Supervisor.dfy`, `Persist.dfy` | `internal/agent/supervisor.go`: one step per critical section, any number of goroutines in any interleaving; the instance table, port allocation and state file |
| `Admission.dfy`, `Routing.dfy`, `NodePolls.dfy` | `internal/upstream/pool.go`, `internal/gateway/nodes.go`: the compare-and-swap counter, leases, replica choice, the index by model and the polls that feed it |
| `Bytes.dfy`, `SseReader.dfy`, `Frames.dfy`, `Catalog.dfy`, `SseClient.dfy`, `SseRelay.dfy`, `RelayStream.dfy`, `BenchWriter.dfy`, `JsonText.dfy`, `JsonScan.dfy`, `JsonRewrite.dfy`, `RequestRewrite.dfy`, `Withholding.dfy` | `internal/gateway/sse.go`, `proxy.go`, `catalog.go`, `benchmark.go`, with a client that interprets the stream as section 9.2.6 of the WHATWG HTML Living Standard says, and JSON text as in RFC 8259 |
| `Planner.dfy` | `internal/modelspec/plan.go`, the GPU planner |
| `Rollup.dfy` | `internal/store/stats.go` and the maintenance loop of `internal/gateway/server.go` |
| `RateLimiter.dfy`, `LoginLimiter.dfy` | `internal/gateway/auth.go`, `internal/gateway/adminauth.go` |
| `CacheDir.dfy` | `internal/agent/cache.go` |
| `Options.dfy`, `Arithmetic.dfy` | the option type, and quotients and multiples |

Code that changes state is a class or a method with loops, proved equal to a function of the
state before; the main theorems are about those functions over all runs. Concurrency is a state
machine over critical sections or atomic operations. Clocks, sockets, processes, other programs'
ports and JSON decoding are inputs.

## What the proofs say about the code

Most of what the source promises holds for every run. Where it does not, the failing family is
characterised exactly:

- A stop is final if and only if, at its critical section, no goroutine is launching, holds a
  started but unpublished process, or has already seen an exit it will answer with a restart
  (`StopIsFinalIff`); a stop during the backoff is forgotten because `launch` clears `stopping`.
- A stop that has entered can return if and only if no process was ever published, its channel is
  closed, or a goroutine is launching, publishing or waiting (`StopCanReturnIff`). After a crash
  restart whose relaunch fails none of these holds, so Stop, Remove and the agent's shutdown block
  for ever before they save (`FailedRelaunchBlocksStops`), and a model that was told to stop can come
  back (`HungStopComesBack`). The state file after a shutdown is right if and only if it was before,
  or the shutdown's first stop returns (`FileIsWantedIff`).
- A probe that times out marks an instance failed and leaves its engine running
  (`TimedOutEngineLivesOn`), so a new Start is accepted beside it.
- Two node names can give two (node, model) pairs one key if and only if one name is the other
  followed by a slash, or begins so (`KeysCollideIff`); slash-free names never do.
- `stream_options: null` on a streaming request panics, and nothing else does (`CrashesIff`).
- `perGPUVRAM` uses zero for "nothing seen yet". It finds the smallest card if and only if every
  card reports memory or the last one reports none (`SmallestIsMinimumIff`); otherwise the budget
  can exceed what the node has.
- A fitting plan stays within the memory budget if and only if the memory that the weights leave
  caches one window of the shortest length trimming can end at (`SafeIffOneWindowFits`,
  `FittingPlanCanOverrun`); a viable plan always does.
- More memory never lowers the planned concurrency if and only if the operator named the context, the
  model's maximum is at most 8192, its geometry is unknown or the engine cannot start anyway
  (`MemoryPaysIff`): one more token of cache can double the default context. Fitting, viability and
  the context itself are always monotone.
- A rollup whose `since` falls between two rows of a bucket replaces that bucket's entry with the
  later part (`RollupKeepsEntryIff`). The server passes unaligned times, so both its rollup of
  the last two hours and its roll-up-then-purge cycle do this, and after the purge the loss is permanent
  (`StraddledBucketIsShortForever`): the loop leaves a bucket with its rows from the later of the last
  `since` that hit it and the cutoffs purged before (`LoopLeavesTail`). The comments at `internal/gateway/server.go:273-274` and
  `285-286` say the opposite: the rollup from the cutoff covers the rows that are kept, not the
  ones that are deleted.
- The fixed-window limiter lets through at most twice the limit less one in a minute, one fewer
  than its comment allows, and that bound is reached.
- A cache directory name is read back correctly if and only if the owner has no `--` and does not
  end in `-`, and the name has no `--` (`RoundTripIff`); which ids share a directory with another is
  `SharedIff`. The comment on `repoFromCacheDir` says that
  only the first pair is treated as the split; the code replaces every later pair too.
- However a document is laid out, a byte scan for a key finds exactly the keys, with their colon
  directly after them, that have its letters or end in an escaped quote and its letters; string values
  never matter. So it tells whether some key stands for it if and only if one is plainly written with
  its colon directly after it, or there is a look-alike just when there is such a key
  (`ScanIsRightIff`; `QuotedKeyFoolsTheScan`, `EscapedKeyIsMissed`). The model-name rewrite is right
  if and only if the value its needles pick is that of the first key that stands for `model` with a
  value that stands for the upstream name (`PatchIsRightIff`, `EscapedNameIsLeftAlone`).
- A frame is withheld for a key that spells usage with its colon directly after it, when no such colon
  is directly followed by null, whatever else the frame carries. Only pure usage reports are lost if
  and only if usage frames are not withheld, or every frame with such a key is a pure report
  (`OnlyReportsLostIff`). Frames with any text and a usage report are lost (`TextIsWithheld`), and so
  are frames with a null report after a space (`SpacedNullIsWithheld`). Since a client's other stream
  options are passed on (`OtherOptionsAreKept`), a client that sets the option for usage on every
  chunk without asking for usage itself gets nothing from an upstream that honours it (`AllWithheld`).

Smaller places where code and comment disagree, modelled as the code does: the relay passes
`[DONE]` through and goes on reading, though the comment says it stops; a model whose launch fails
at `Start` stays desired and is written to the state file by the next save; a `compressed-tensors`
checkpoint is sized at two bytes per parameter, not the 8-bit figure its comment names.

## Model

| member | source | states |
|---|---|---|
| Supervisor.RunKeepsInv | internal/agent/supervisor.go:216-372 | the invariant (one driver, its process and channel fit the shared fields, restarts bounded) holds in every state of every interleaving |
| Supervisor.OneEngineBoundedRestarts | internal/agent/supervisor.go:216-372 | in every reachable state at most one goroutine launches or reaps, at most one engine is alive, `restarts <= MaxRestarts`, at most `1 + MaxRestarts` launches |
| Supervisor.ReaperClosesAnOpenChannel | internal/agent/supervisor.go:317-325 | no `exited` channel is ever closed twice: the one a reaper is about to close is open |
| Supervisor.SettledStaysSettled | internal/agent/supervisor.go:314-372 | once no goroutine drives the instance none ever will, and it reads failed or stopped for ever |
| Supervisor.GiveUpIsForever | internal/agent/supervisor.go:339-358 | after the give-up decision the instance stays failed or stopped in every continuation and nothing is started |
| Supervisor.ProbeNeverResurrects | internal/agent/supervisor.go:296-304 | in every interleaving a stopped or failed instance stays so until a crash restart is counted, however late a probe answers |
| Supervisor.ReadyIffProbed | internal/agent/supervisor.go:296-304 | over every run the state reads ready exactly when the last event that wrote it is an answered probe of an instance that was starting or ready |
| Supervisor.ReadsLastWrite | internal/agent/supervisor.go:296-372 | what the state reads after each event that writes it, and that every other event leaves it |
| Supervisor.AnsweredEngineIsReady | internal/agent/supervisor.go:302 | a reachable ready instance with its engine alive |
| Supervisor.StopIsFinalIff | internal/agent/supervisor.go:381-395 | no later launch is possible exactly when only waiting reapers could have relaunched |
| Supervisor.StopOfPublishedProcessIsFinal | internal/agent/supervisor.go:381-413 | a stop after publication and before the reaper's first lock: no launch, no restart counted, and stopped or failed with nothing alive once the reaper is done |
| Supervisor.StopReturnsAfterReap | internal/agent/supervisor.go:397-409 | such a stop returns only when its process is dead and reaped |
| Supervisor.StopDuringBackoffIsForgotten | internal/agent/supervisor.go:360-368 | a stop during the backoff has a continuation in which the engine runs with the flag down |
| Supervisor.OnlyOperatorStopClearsDesired | internal/agent/supervisor.go:389-393 | over every run `desired` is lost exactly by an operator's stop |
| Supervisor.StopIsForGood | internal/agent/supervisor.go:381-413 | once such a stop has returned, every continuation reads stopped or failed with nothing alive and nothing started |
| Supervisor.Instance.Publish | internal/agent/supervisor.go:245-251 | the publishing critical section: command set, stop flag cleared, all else unchanged |
| Supervisor.Instance.NoteExit | internal/agent/supervisor.go:317-325 | the reaper's first critical section: reads the stop flag, closes the channel unless closed |
| Supervisor.Instance.Decide | internal/agent/supervisor.go:339-364 | the reaper's second critical section: give up, or count a restart and make a new channel |
| Supervisor.Instance.ProbeAnswered | internal/agent/supervisor.go:294-304 | ready unless it reads stopped or failed, and then unchanged; the answer says which |
| Supervisor.Instance.EnterStop | internal/agent/supervisor.go:389-395 | raises the stop flag, clears `desired` on request, and returns the channel and process of that moment |
| Supervisor.Instance.Set | internal/agent/supervisor.go:119-123 | sets the state and nothing else |
| Supervisor.StopCanReturnIff | internal/agent/supervisor.go:389-409 | an entered stop has a continuation in which it returns exactly when no process was published, its channel is closed, or a goroutine may still close it |
| Supervisor.FailedRelaunchBlocksStops | internal/agent/supervisor.go:368-370 | a reachable failed and wanted instance no stop of which ever returns |
| Supervisor.AliveIff | internal/agent/supervisor.go:216-372 | an engine is alive exactly when the driving goroutine is about to publish it or waits for it |
| Supervisor.TimedOutEngineLivesOn | internal/agent/supervisor.go:310 | a failed instance whose engine is alive |
| Persist.RunKeeps | internal/agent/supervisor.go:185-214 | in every run of commands ports are pairwise distinct and in range, and desired models are those whose last accepted command was Start |
| Persist.AtMostRange | internal/agent/supervisor.go:459-477 | distinct ports leave room for at most 200 instances |
| Persist.RestoreStartsFirst | internal/agent/supervisor.go:532-550 | restoring distinct specs starts as many of the first ones as other programs leave ports for, and nothing else |
| Persist.FileIsWantedIff | internal/agent/supervisor.go:452-457 | after a shutdown the file lists exactly the wanted specs exactly when it did before, or the first stop returns |
| Persist.RestartRestoresWanted | internal/agent/supervisor.go:452-550 | after any run and a shutdown, a fresh supervisor comes up with exactly the models whose last accepted command was Start, in any file order: with a right file exactly when there are ports for them, with ports for the whole file exactly when the file is right |
| Persist.AllFree | internal/agent/supervisor.go:459-477 | with no port held by others there are ports for as many models as there can be |
| Persist.HungStopComesBack | internal/agent/supervisor.go:397-412 | a stopped model that the state file still lists after the shutdown |
| Persist.FreePort | internal/agent/supervisor.go:459-477 | the lowest port neither used nor busy, none exactly when all are taken |
| Persist.AcceptsIff | internal/agent/supervisor.go:185-199 | a start is accepted exactly when it names a model that is not starting or ready on the node, and a port is left |
| Persist.StoppedCanStart | internal/agent/supervisor.go:185-199 | a model whose stop returned can be started again exactly when a port is left; a start of a running one changes nothing |
| Persist.EngineSupervisor.AllocatePort | internal/agent/supervisor.go:459-477 | the scan returns that port |
| Persist.EngineSupervisor.Save | internal/agent/supervisor.go:491-507 | the file lists exactly the desired specs |
| Persist.EngineSupervisor.Start | internal/agent/supervisor.go:185-214 | the table and file after a Start, accepted or not, launched or failed |
| Persist.EngineSupervisor.Stop | internal/agent/supervisor.go:381-413 | the table and file after a stop, desired cleared only on request; it blocks, unsaved, exactly when its channel can no longer be closed |
| Persist.EngineSupervisor.Remove | internal/agent/supervisor.go:416-425 | the model is stopped, forgotten and off the file, unless the stop blocks |
| Persist.EngineSupervisor.StopAll | internal/agent/supervisor.go:452-457 | the engines halted and saved one after the other up to the first stop that blocks, what should be running unchanged |
| Persist.EngineSupervisor.RestoreAll | internal/agent/supervisor.go:532-550 | the listed specs started in file order |
| Admission.CounterIsExact | internal/upstream/pool.go:64-91 | in every interleaving `inflight` equals outstanding leases, is never negative, and never exceeds the largest limit ever in force |
| Admission.FixedLimitHolds | internal/upstream/pool.go:64-76 | a limit that never changes is never exceeded |
| Admission.ReleaseIsOnce | internal/upstream/pool.go:86-91 | a second release changes nothing |
| Admission.CasFailsOnlyAfterInterference | internal/upstream/pool.go:64-75 | a failed swap names the other goroutine's swap or release that moved the counter since the load |
| Admission.AloneIsAnswered | internal/upstream/pool.go:64-75 | run alone, a goroutine below the limit ends granted with one slot and one lease more, and one at the limit is refused and changes nothing |
| Admission.AdmittedIffRoom | internal/upstream/pool.go:314-364 | run alone, a request is admitted exactly when a healthy replica has a free slot, and told there is no backend exactly when none is healthy |
| Admission.FindLeastLoaded | internal/upstream/pool.go:337-350 | the scan finds a least loaded healthy replica |
| Admission.TakeFirst | internal/upstream/pool.go:358-363 | a slot is taken on a replica with room, exactly one counter moves; none only if none has room |
| Admission.Acquire | internal/upstream/pool.go:314-364 | the choice is right, exactly one counter moves by one, and the lease is for it |
| Admission.Backend.TryAcquire | internal/upstream/pool.go:64-75 | takes a slot exactly when one is free |
| Admission.Lease.Release | internal/upstream/pool.go:86-91 | gives the slot back the first time only |
| Routing.KeysCollideIff | internal/upstream/pool.go:201-203 | two node names can share a key exactly when one extends the other past a slash |
| Routing.KeyDecodes | internal/upstream/pool.go:256 | for names that are apart a key determines its node and model |
| Routing.KeysCollideExample | internal/upstream/pool.go:201-203 | two nodes and models with one key |
| Routing.UpdateRefreshes | internal/upstream/pool.go:200-225 | an engine at an unchanged address keeps its object and in-flight count with the new limit, any other gets a new idle healthy one, other keys are untouched |
| Routing.OfferedIffServed | internal/upstream/pool.go:287-299 | a model is offered exactly when some node's pair serves it |
| Routing.IndexNode | internal/upstream/pool.go:240-258 | adding a node's keys keeps the index the exact inverse of the pairs so far |
| Routing.IndexNodes | internal/upstream/pool.go:240-260 | whatever order the nodes are taken in, the result is the exact inverse index of the node table |
| Routing.SyncedTable | internal/upstream/pool.go:196-238 | the node table stays sound after a sync and other nodes keep their objects |
| Routing.Pool.SyncNode | internal/upstream/pool.go:196-261 | the index is again the exact inverse of the table, reported engines are refreshed, other nodes' objects and counts are unchanged |
| Routing.Pool.DropNode | internal/upstream/pool.go:265-282 | the node's keys and no others are gone, and the index is again the exact inverse |
| Routing.Pool.Refresh | internal/upstream/pool.go:200-238 | reported engines are stored or refreshed, stale ones deleted, other nodes' objects untouched |
| Routing.Pool.Rebuild | internal/upstream/pool.go:240-260 | the pool's index is the inverse of its table again |
| NodePolls.MinPositive | internal/gateway/nodes.go:312-322 | the smaller of the positive limits |
| NodePolls.RoutedIsLastGoodAnswer | internal/gateway/nodes.go:113-160 | over every run of polls a node's routed engines are the ready ones of its last successful poll, or none, and only within the 90 s grace of it |
| NodePolls.RoutedIff | internal/gateway/nodes.go:113-160 | over every run of polls, engines are routed to a node exactly when its host is usable, it has answered, and no poll it missed since came later than the grace period after its last answer |
| NodePolls.ReadyAreMirrored | internal/gateway/nodes.go:143-158 | as many engines as ready instances, in report order, each with its instance's served name, the URL of the node's host and its port, the smaller positive limit and the node's weight |
| NodePolls.CollectReady | internal/gateway/nodes.go:143-158 | the loop over a report computes those engines |
| NodePolls.MirrorServes | internal/gateway/nodes.go:136-160 | such a pool has every ready instance of the report at its own address and limit under its node and name, and no other name of the node |
| NodePolls.NodesAreIndependent | internal/gateway/nodes.go:113-160 | other nodes' polls leave a node's status alone |
| NodePolls.ReadyAreDistinct | internal/gateway/nodes.go:143-158 | every routed engine is a ready one, and distinct served names stay distinct |
| NodePolls.SyncCarries | internal/gateway/nodes.go:136-160 | after a sync every engine routed to any node is in the pool at its address and limit |
| NodePolls.NodeManager.PollNode | internal/gateway/nodes.go:113-160 | after an answer from a usable host the pool serves exactly the ready instances of the report; every poll keeps statuses, node table, index and pool objects in step; engines at an unchanged address keep their object and in-flight count, other nodes' objects are untouched, and a missed poll changes no object |
| Bytes.SplitIsLossless | internal/gateway/sse.go:104-115 | the lines concatenate to the stream and only the last can lack its newline |
| SseReader.ReadSSELine | internal/gateway/sse.go:104-115 | for any buffer size, exactly the first line, and the stream's ending exactly when it has no newline |
| SseReader.ReadLines | internal/gateway/sse.go:104-115 | repeated reads give exactly the stream split after each newline |
| SseClient.PrefixSeesPrefix | internal/gateway/proxy.go:217-335 | a client that got a prefix of the bytes has dispatched a prefix of the events |
| SseRelay.StreamLines | internal/gateway/proxy.go:270-277 | a stream of one-line events splits into a data line and a blank line for each |
| SseRelay.ForwardEvents | internal/gateway/proxy.go:274-311 | what is written for such a stream, event by event |
| SseRelay.RelayIsTransparent | internal/gateway/proxy.go:217-335 | for every interleaving of keep-alives the client dispatches the upstream events, patched, without the usage events exactly when withheld |
| SseRelay.CarriesPrefix | internal/gateway/sse.go:63-80 | the connection carries a prefix of the writes, all of them if none failed; nothing after the first error |
| SseRelay.BrokenRelayDeliversPrefix | internal/gateway/sse.go:63-90 | with failing writes the client has a prefix of those events |
| RelayStream.SseWriter.WriteFlush | internal/gateway/sse.go:63-80 | one write with the sticky error |
| RelayStream.SseWriter.KeepAliveIfIdle | internal/gateway/sse.go:85-90 | a comment is written only when idle |
| RelayStream.RelayLine | internal/gateway/proxy.go:274-311 | one line is forwarded, patched or withheld, and the relay stops exactly when it is neither [DONE] nor a usage frame and the connection has failed |
| RelayStream.RelayStream | internal/gateway/proxy.go:217-335 | for any buffer size and ticks, the lines read, the writes made and the recorded outcome; the usage kept is the parse of the last line read that reports usage, none exactly when none does, and the token count the number of lines that carry one; the relay ends at the stream's end or at the first line that makes it stop |
| RelayStream.AccountIsDigest | internal/gateway/proxy.go:278-303 | the relay, withholding or not, and the incremental parser keep the same usage and count |
| RelayStream.ClientOfRelay | internal/gateway/proxy.go:217-335 | what a finished relay's client has dispatched: a prefix of the patched events, all of them if unbroken |
| BenchWriter.DigestInTwo | internal/gateway/benchmark.go:88-117 | digesting a stream in two pieces is digesting it at once |
| BenchWriter.ChunkingIsInvisible | internal/gateway/benchmark.go:88-117 | for any chunking, the same usage, token count and partial tail as one write |
| BenchWriter.AccountMeans | internal/gateway/proxy.go:278-303 | for all lines and any parse: the usage is that of the last data line other than [DONE] that has usage and parses, or as it was when there is none, so from none it stays none exactly then; the count grows by the number of data lines other than [DONE] without usage that carry a token |
| BenchWriter.DigestIsFold | internal/gateway/benchmark.go:88-117 | digesting a text steps over exactly its complete lines |
| BenchWriter.DigestLeavesTail | internal/gateway/benchmark.go:88-117 | and keeps what follows the last newline |
| BenchWriter.LinesAndTail | internal/gateway/benchmark.go:88-117 | complete lines and tail together are the text |
| BenchWriter.Writer.Write | internal/gateway/benchmark.go:88-117 | one write is the batch digest of the tail and the chunk: the last usage reported and one token for each line that carries one, over the complete lines |
| Frames.TrimSpaceMeans | internal/gateway/proxy.go:423-429 | what is trimmed is white space, and no white space is left at either end |
| Frames.SseDataMeans | internal/gateway/proxy.go:423-429 | a line is data exactly when it begins with the prefix; its payload is the rest of the line without the white space around it |
| Catalog.PatchModelName | internal/gateway/catalog.go:43-59 | the needle loop replaces the first compact needle, else the first spaced one |
| Catalog.PatchInside | internal/gateway/catalog.go:117-124 | patching a line patches its payload |
| JsonText.LayoutIsGood | internal/gateway/proxy.go:431-447 | every way to write a document, with white space wherever it may stand, keeps the order of tokens the scans rest on |
| JsonText.LayoutHoldsKeys | internal/gateway/proxy.go:431-447 | its key tokens are exactly the keys of the document's objects |
| JsonScan.MatchIsKey | internal/gateway/proxy.go:431-447 | a match of a key pattern in JSON text is at the end of an object key that spells it, its colon directly after it, never inside a string value |
| JsonScan.KeyIsMatch | internal/gateway/proxy.go:431-447 | every key that spells it is matched |
| JsonScan.ScanFindsMember | internal/gateway/proxy.go:431-447 | a pattern occurs exactly when some object has a key that spells it with its colon and such text directly after it |
| JsonScan.ScanIsRightIff | internal/gateway/proxy.go:431-447 | the scan tells whether some key stands for the one looked for exactly when it is plainly written with its colon directly after it, or there is a look-alike just when there is such a key |
| JsonScan.HasUsageMeans | internal/gateway/proxy.go:431-433 | a frame counts as usage exactly when some key spells usage with its colon directly after it and no such colon is directly followed by null |
| JsonScan.CarriesTokenMeans | internal/gateway/proxy.go:439-447 | a frame counts as carrying a token exactly when it has text directly under content or reasoning_content, or tool calls |
| JsonRewrite.PatchRenamesModel | internal/gateway/catalog.go:43-59 | the rewrite changes one value and no other byte: that of the first key that spells model and names the upstream model directly after its colon, or failing that after one space |
| JsonRewrite.PatchIsRightIff | internal/gateway/catalog.go:43-59 | it renames the first model that the document, decoded, names exactly when that value is the one picked |
| JsonRewrite.EscapedNameIsLeftAlone | internal/gateway/catalog.go:43-59 | every escaped spelling of the name is left alone |
| JsonScan.QuotedKeyFoolsTheScan | internal/gateway/proxy.go:431-447 | every key that ends in an escaped quote and the letters of another is taken for it, and never stands for it |
| JsonScan.EscapedKeyIsMissed | internal/gateway/proxy.go:431-447 | every key that stands for the one looked for without spelling it is missed |
| JsonScan.EscapedUsage | internal/gateway/proxy.go:431-433 | such a key for usage |
| Withholding.WithheldMeans | internal/gateway/proxy.go:281-289 | a chunk, however laid out, is withheld exactly when usage frames are and it counts as a report |
| Withholding.ClientGetsKept | internal/gateway/proxy.go:217-335 | whatever the keep-alives, the client dispatches exactly the chunks that do not, patched |
| Withholding.OnlyReportsLostIff | internal/gateway/proxy.go:281-289 | only pure usage reports are lost exactly when usage is not withheld, or every chunk that counts as a report is a pure one |
| Withholding.AllWithheld | internal/gateway/proxy.go:281-289 | an upstream that reports usage on every event delivers nothing |
| Withholding.TextIsWithheld | internal/gateway/proxy.go:281-289 | for every key and text a chunk with that text that is withheld and is no pure report |
| Withholding.SpacedNullIsWithheld | internal/gateway/proxy.go:431-433 | the same with a null report after a space |
| Withholding.OtherOptionsAreKept | internal/gateway/proxy.go:461-478 | other stream options are passed on while usage is injected and withheld |
| RequestRewrite.RewriteBody | internal/gateway/proxy.go:510-536 | the in-place rewrite computes `Rewrite` |
| RequestRewrite.CrashesIff | internal/gateway/proxy.go:461-478 | it panics exactly on a streaming request with null `stream_options` |
| RequestRewrite.PeekReads | internal/gateway/proxy.go:489-501 | a request is understood exactly when its three fields are missing, null or of their type, and then the head holds their values |
| RequestRewrite.RewriteIsReference | internal/gateway/proxy.go:510-536 | otherwise the body is field for field the always-rewritten one, injection reported exactly when the client had not asked |
| RequestRewrite.UsageOnlyIfAsked | internal/gateway/proxy.go:133-139 | the payloads to deliver include usage events exactly when the client asked, all other events always |
| RequestRewrite.ClientSeesUsageOnlyIfAsked | internal/gateway/proxy.go:133-335 | end to end, whatever the keep-alives, the client dispatches exactly those events |
| RequestRewrite.UpstreamIsAlwaysAsked | internal/gateway/proxy.go:461-478 | every streaming request sent upstream asks for usage |
| Planner.LargestValidTP | internal/modelspec/plan.go:697-707 | the largest size dividing GPU count and KV heads |
| Planner.LatentAttentionUsesEveryGpu | internal/modelspec/plan.go:240-252 | with latent attention that is the GPU count |
| Planner.NodeArchIsWeakestCard | internal/modelspec/plan.go:786-811 | a node has a feature exactly when all its cards do |
| Planner.FoldArch | internal/modelspec/plan.go:786-811 | the loop computes that architecture |
| Planner.PerGpuVram | internal/modelspec/plan.go:1003-1011 | the loop's result |
| Planner.SmallestIsMinimumIff | internal/modelspec/plan.go:1003-1011 | it is the smallest card exactly when all report memory or the last reports none |
| Planner.SilentCardInflatesBudget | internal/modelspec/plan.go:1003-1011 | a silent first card makes the budget exceed the node's memory |
| Planner.NativeAlwaysRuns | internal/modelspec/plan.go:828-839 | an unquantized checkpoint always passes the format check |
| Planner.NativeIs | internal/modelspec/plan.go:828-839 | fp32 where some card has crippled fp16, else bf16 where all cards have it, else fp16 |
| Planner.RunsIff | internal/modelspec/plan.go:864-891 | the feature each format needs |
| Planner.NodeRunsIff | internal/modelspec/plan.go:786-891 | a node runs a format exactly when all its cards have the kernels for it |
| Planner.CanonicalNames | internal/modelspec/plan.go:842-861 | which spellings name one format; canonical names stay |
| Planner.FormatSizes | internal/modelspec/plan.go:183-199 | what parameters weigh in each format |
| Planner.WeightsMean | internal/modelspec/plan.go:173-178 | a measured checkpoint weighs what was measured, any other what its parameters do |
| Planner.OlderMeans | internal/modelspec/plan.go:74-84 | versions compare by major, then minor number, and an unknown one is never too old |
| Planner.KvCostIsSum | internal/modelspec/plan.go:205-218 | a token costs, summed over the layers that cache, the KV heads and the head's positions, a key and a value of two bytes, or of one byte at fp8; all layers cache where no full-attention count is given |
| Planner.KvCostIsZeroIff | internal/modelspec/plan.go:205-218 | a token costs nothing exactly when the geometry is unknown |
| Planner.TrimContext | internal/modelspec/plan.go:398-410 | the halving loop returns the first of M, M/2, M/4, … that is at most the floor or admits eight sequences |
| Planner.TrimMonotone | internal/modelspec/plan.go:408-410 | more cache never shortens the trimmed context |
| Planner.PlanGpu | internal/modelspec/plan.go:233-574 | the step-by-step plan is the case analysis `PlanOf` |
| Planner.FitsIff | internal/modelspec/plan.go:495-567 | a plan fits exactly when the driver is new enough, the format runs, the weights leave memory over, and the disk and host memory are unknown or large enough |
| Planner.FittingPlanReads | internal/modelspec/plan.go:411-567 | the format, cache format, download size and viability of a fitting plan |
| Planner.SequencesAreMost | internal/modelspec/plan.go:426-428 | the concurrency is the largest number up to 256 of whole windows that the cache holds, and at least one |
| Planner.StreamsIff | internal/modelspec/plan.go:332-345 | streaming experts is offered exactly when a mixture-of-experts model overflows known cards by no more than three quarters of the host's memory |
| Planner.RunnableIs | internal/modelspec/plan.go:350-354 | the formats listed are exactly those that run |
| Planner.ViableIsSafe | internal/modelspec/plan.go:290-293 | a viable plan has known geometry and the largest valid TP; the bytes of its weights and of its sequences' windows, with the token cost as that sum, are at most 9/10 of TP times the smallest card, and at most the node's total where every card reports memory |
| Planner.SafeIffOneWindowFits | internal/modelspec/plan.go:371-428 | a fitting plan stays in budget exactly when what the weights leave caches the shortest window, given by the request and the model's maximum |
| Planner.FittingPlanCanOverrun | internal/modelspec/plan.go:426-428 | for every card and parameter count that leaves room, a fitting plan that does not |
| Planner.UnknownGeometryNotViable | internal/modelspec/plan.go:383-391 | unknown geometry is never viable |
| Planner.ExplicitContextIsKept | internal/modelspec/plan.go:400-410 | a named context is only capped at the model's maximum |
| Planner.DefaultContextIsFirstAcceptable | internal/modelspec/plan.go:392-410 | the default context is the first acceptable halving of the maximum |
| Planner.MoreMemoryNeverHurts | internal/modelspec/plan.go:380-428 | on identical cards more memory keeps fitting and viability, never shortens the context, and never lowers the concurrency of a steady context |
| Planner.ConcurrencyGrowsIff | internal/modelspec/plan.go:398-428 | more cache never lowers concurrency exactly when the context was named or the model's maximum is at most 8192 |
| Planner.MemoryPaysIff | internal/modelspec/plan.go:233-428 | on nodes of identical cards more memory never lowers the planned concurrency exactly then, or when geometry is unknown or the engine cannot start |
| Planner.OneTokenMoreFewerSequences | internal/modelspec/plan.go:404-428 | otherwise one token more drops it from at least 15 to 8 |
| Planner.AdviceIsSoundAndComplete | internal/modelspec/plan.go:295-359 | on overflow `NeedsQuantized` holds exactly when some smaller format, planned again, passes the format and weight checks |
| Rollup.RollupInto | internal/store/stats.go:45-92 | the query's table: an entry of a bucket with rows from `since` on holds, over those rows, the number of requests and of each failure class by its status condition, and the sum of each token column; other entries stay |
| Rollup.Store.Rollup | internal/store/stats.go:34-42 | both tables are so replaced, every entry by these counts and sums |
| Rollup.Store.Purge | internal/store/stats.go:95-101 | older rows go, tables stay, and the count is right |
| Rollup.RolledEntry | internal/store/stats.go:45-92 | the exact value of every entry for any `since`, the boundary bucket included |
| Rollup.TotalSums | internal/store/stats.go:26-66 | a bucket's aggregate is, field by field, the sum over the rows of its model and time: requests, errors, rate limits and user errors by the literal status conditions, prompt, completion and cached tokens |
| Rollup.RolledSums | internal/store/stats.go:45-92 | so is every entry after a rollup whose bucket has rows, and the others stay |
| Rollup.RollupAbsorbs | internal/store/stats.go:31-42 | a rollup from an earlier time makes a previous one irrelevant |
| Rollup.ClassesAreDisjoint | internal/store/stats.go:25-29 | no request is in two failure classes |
| Rollup.RollupKeepsEntryIff | internal/gateway/server.go:272-277 | a correct entry stays correct exactly when `since` does not fall between two of its rows |
| Rollup.TablesRememberPurgedRows | internal/store/stats.go:34-101 | over every aligned run each bucket below the cutoff keeps the aggregate of all rows ever logged in it |
| Rollup.BothTablesRememberPurgedRows | internal/store/stats.go:34-42 | with times on day boundaries both tables do |
| Rollup.AlignedCutoffIsSafe | internal/gateway/server.go:284-291 | an aligned cutoff never splits a bucket |
| Rollup.MaintenanceKeepsEntryIff | internal/gateway/server.go:284-291 | the purge cycle keeps an entry exactly when the cutoff does not split its rows |
| Rollup.StraddledBucketIsShortForever | internal/gateway/server.go:284-291 | a split bucket stays short of requests in every continuation |
| Rollup.TwoRequestsStraddle | internal/gateway/server.go:284-291 | any two requests of a bucket around the cutoff split it |
| Rollup.LoopLeavesTail | internal/gateway/server.go:272-291 | the exact entry of a closed bucket after any rollups and rising cutoffs: its requests from the later of the last `since` that found one and the cutoffs purged before it |
| Rollup.LoopKeepsEntryIff | internal/gateway/server.go:272-291 | it is still correct exactly when that time does not split its requests |
| RateLimiter.Limiter.Allow | internal/gateway/auth.go:121-138 | answer and windows after a call |
| RateLimiter.Limiter.Sweep | internal/gateway/auth.go:142-151 | exactly the windows older than five minutes go |
| RateLimiter.BurstBound | internal/gateway/auth.go:103-138 | at most twice the largest limit in use, less one, in any minute |
| RateLimiter.BurstReachesBound | internal/gateway/auth.go:103-106 | and that is reached for every limit |
| RateLimiter.RefusedOnlyWhenFull | internal/gateway/auth.go:121-138 | a request is refused only when its limit is positive and that many were let through within a minute that ends now; a limit of zero or less lets every request through |
| RateLimiter.AnswersAreIndependent | internal/gateway/auth.go:121-138 | every answer is the one the key would get alone and never swept |
| RateLimiter.SweepChangesNoAnswer | internal/gateway/auth.go:142-151 | inserting a sweep anywhere changes no answer |
| LoginLimiter.Compact | internal/gateway/adminauth.go:45-50 | compaction in the backing array is the pure filter, and leaves the rest of the array alone |
| LoginLimiter.Limiter.Allow | internal/gateway/adminauth.go:40-66 | answer and table after an attempt; only the address's own array is written |
| LoginLimiter.Limiter.Reset | internal/gateway/adminauth.go:68-72 | exactly that address is forgotten |
| LoginLimiter.EvictionForgetsOnlyTheDead | internal/gateway/adminauth.go:51-59 | eviction removes only addresses with nothing left inside the period |
| LoginLimiter.AnswersFollowTheRule | internal/gateway/adminauth.go:40-66 | every answer is that of an uncompacted, unevicted log of the address's own tries |
| LoginLimiter.AtMostTenPerPeriod | internal/gateway/adminauth.go:40-66 | between resets any fifteen minutes hold at most ten tries let through |
| CacheDir.CheckRepo | internal/agent/cache.go:158-177 | accepts exactly owner/name with two valid parts |
| CacheDir.RoundTripIff | internal/agent/cache.go:35-50 | the exact condition for reading an id back |
| CacheDir.ReadableIdsDoNotCollide | internal/agent/cache.go:48-50 | the encoding is injective on those ids |
| CacheDir.UnreadableIdsCollide | internal/agent/cache.go:48-50 | two valid ids with one directory |
| CacheDir.SharedIff | internal/agent/cache.go:48-50 | a valid id shares its directory with another exactly when its owner or name holds a second place to cut |

## Left out

- HTTP handlers, TLS, sessions, passwords, key hashing, the admin and customer pages, deployment files, `cmd/mockvllm` and `cmd/llmplan`: input and output plumbing without a hard property.
- Process execution, signals, log capture and root-cause text: a process starts, fails to start or exits as an event; the restart backoff's length is not modelled, only that other steps can fall into it.
- Supervisor: publishing a process and spawning its probe and reaper is one step; the stop's kill and its grace timer are part of waiting for the channel.
- Persist.EngineSupervisor.Stop: a stop that can return is taken to return; one that cannot stays blocked while other commands go on.
- Concurrent `persist` calls: the file is written in one step and commands run one at a time; the file's sort order is not modelled, restoring is proved for every order.
- Persist.RestartRestoresWanted: assumes that the state directory is set and readable, and that other programs hold the same ports throughout the restore.
- Routing.Pool.SyncNode: requires pairwise distinct model names in one report and node names that are apart, and its table keeps a report's order, where the original's order is a map's.
- NodePolls.NodeManager.PollNode: one step, where the original updates the status under its lock and the pool after releasing it, so a reader between the two can see a new status with the old routing.
- Admission.Acquire: requires positive weights, which the pool's constructors give; loads are exact quotients of real numbers; 32-bit width of the limit is not modelled.
- Bytes are chars; `TrimSpace` trims ASCII white space only.
- SseRelay.RelayIsTransparent: for upstream events of one `data: ` line and a blank line, and model names without line breaks; the client's `retry` field and byte order mark are not modelled.
- SseReader.Reader.ReadSlice: stands for the buffered reader's contract; what kind of error a failed read was is not modelled.
- RelayStream.ClientOfRelay: for an upstream that sends whole lines; the partial last line of a stream that breaks inside one is relayed but its event is not described.
- JSON decoding: `RequestRewrite` works on decoded fields, so duplicate keys and case-insensitive key matching are not modelled; `parseUsage` is an arbitrary function.
- JsonRewrite.PatchIsRightIff: for model names without quotes or backslashes, and a rewrite of the first value that names the model, as the source does.
- Withholding.OnlyReportsLostIff: a pure report is an object whose choices are all empty; documents are one line, as one-line events carry them.
- Planner: format names are taken decoded (case folding and spelling variants are not modelled), CUDA versions parsed, `archOf` is an arbitrary function, integers are unbounded, geometry is not negative, and the float constants are exact ratios rounded down; `EstTokensPerSec`, warnings, blocker texts and the CPU planner are not modelled.
- Rollup: percentiles, averages and cost columns; SQLite itself; times before 1970. The tables are exact integers.
- RateLimiter.BurstBound: for a clock that never goes back and positive limits; a limit that is not positive switches the check off.
- LoginLimiter.AnswersFollowTheRule: for a clock that never goes back.
- `Entry.Cost`, price suggestions, GPU name and bandwidth tables, model document rendering: simple lookups or algebra.
