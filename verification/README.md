# Verified model of the VLESS manager

The repository is a router-side VPN manager built on an embedded Xray. This
project models the parts whose correctness is not visible from reading one
function, and proves what they are for:

- **The MIPS crypto backend.** The generators emit straight-line MIPS code for
  Poly1305 and ChaCha20. `Mips` gives the emitted instructions a word-level
  meaning (numbers modulo 2^32, a HI:LO pair, SGTU as the carry test, unaligned
  loads and stores on byte memory). The code is proved equal to sections 2.3 to
  2.5 of RFC 8439, for every state, key, message, alignment and length, with
  every carry the code drops shown to be zero.
- **XTLS Vision framing.** The padding printer, the resumable parser, the
  splitter, the record recogniser, the TLS filter, and the writer and reader as
  objects sharing one traffic state. The round trip holds for every cut of the
  byte stream, what the filter decides is stated on the bytes of the hello, and
  both ends agree on the switch to direct copy.
- **The DNS cache and the query race.** A map that is rebuilt in batches while
  answers arrive refines a plain map; racing groups of servers agrees with
  asking them one by one.
- **The manager's concurrency.** The operation queue as a state machine over all
  interleavings, the on/off policy, and the health check over tunnel generations.
- **Transactions and shared work.** Route installation with rollback from any
  prefix, the multi-file geodata swap, and group ping.

Each component has its own module and file. Code that changes state is modelled
by classes and methods with loops, proved against functions; the theorems are
about those functions and about all runs. Where a promise does not hold
everywhere, a lemma states exactly when it does, and another one shows an input
for which it does not: `VisionUnpad.RoundTrip` and `RestartLosesBytes`,
`VisionReader.LeavesOnlyAtEnd` and `EarlySwitch`, `VisionPad.PaddingNonNegative`
and `PaddingCanBeNegative`, `DnsCache.FindIsView` and `UpdateCanHide`,
`DnsQuery.FailuresAgree` and `FailuresCanDiffer`, `Ping.ExactlyIfConsistent` and
`MissingIdsCollide`. `Routing.CleanupStrips` is exact in the same way, with
`Routing.CopiesStay` for the rules that survive.

The capacity of a pooled buffer is a parameter: every Vision result holds for any
capacity from 42 to 65536, of which the repository's 8192 is one.

Three behaviours are kept as the code has them, although the surrounding design
suggests otherwise: a reader whose read ends inside a terminal frame's header may
leave padding mode early (`proxy.go:244-253`); a server skipped because FakeDNS is
off counts as an empty answer in the parallel query only (`dns.go:408` and `498`);
and a lookup during cache migration can miss a family that the old map still
holds (`cache_controller.go:315-318`).

`dafny verify dfyconfig.toml` checks everything.

## Model

| member | source | states |
|---|---|---|
| `Mips.UnalignedLoad` | packaging/mipscrypto/polyblocks.go:41-43 | the MOVWL/MOVWR pair reads the little-endian word at any alignment |
| `Mips.UnalignedStore` | packaging/mipscrypto/assembly.go:116-121 | the store pair writes exactly the four bytes at any alignment |
| `Poly1305.LazyFoldCongruent` | packaging/mipscrypto/polyblocks.go:8-9 | the partially reduced accumulator is the accumulator of section 2.5.1 of RFC 8439 modulo 2^130 - 5, for every message |
| `Poly1305.LazyFoldBound` | packaging/mipscrypto/polyblocks.go:49 | it stays below 5 * 2^128, so the high limb never exceeds four between blocks |
| `Poly1305.BlockNumberIsRfc` | packaging/mipscrypto/polyblocks.go:45 | a block, whole or short, is the little-endian number of its bytes followed by a byte 1 |
| `Poly1305.LazyFoldSplit` | packaging/mipscrypto/_poly1305/mul64_mipsle.go:65-76 | whole blocks may be folded first and the rest later |
| `PolyBlocks.AddCarryExact` | packaging/mipscrypto/polyblocks.go:113-117 | the five emitted instructions are an exact full adder with carry in R24 |
| `PolyBlocks.AbsorbExact` | packaging/mipscrypto/polyblocks.go:40-45 | absorbing adds the block and its 2^128 bit, with no carry lost |
| `PolyRows.RowsExact` | packaging/mipscrypto/polyblocks.go:49-62 | the row schoolbook code leaves the exact product of accumulator and key in R8 to R15 |
| `PolyColumns.ColumnBelow62Bits` | packaging/mipscrypto/polyblocks.go:95-96 | with the carry in, every column sum is below 2^62 |
| `PolyColumns.MaccExact` | packaging/mipscrypto/polyblocks.go:94-111 | the MADDU columns leave the exact product, and the last HI is zero |
| `PolyReduce.VariantsAgree` | packaging/mipscrypto/polyblocks.go:46-63 | both variants leave identical words, those of the exact product |
| `PolyReduce.ReduceExact` | packaging/mipscrypto/polyblocks.go:64-87 | the reduction gives p mod 2^130 + 5 * (p div 2^130), with no carry out of R7 |
| `PolyReduce.BlockExact` | packaging/mipscrypto/polyblocks.go:40-87 | one emitted block, in either variant, is one lazy Poly1305 step, keeps the bound and advances pointer and count |
| `PolyReduce.MessageWordsValue` | packaging/mipscrypto/polyblocks.go:41-43 | the four loaded words spell the sixteen message bytes |
| `PolyUpdate.PolyBlocksCall` | packaging/mipscrypto/polyblocks.go:26-92 | the whole routine leaves the fold of its blocks in the state and changes no other byte |
| `PolyUpdate.UpdateMips` | packaging/mipscrypto/_poly1305/mul64_mipsle.go:64-80 | chunks and tail together compute the one-pass fold for every length, keep the key and the bound, and touch only the state |
| `PolyEmit.WritePolyBlocks` | packaging/mipscrypto/polyblocks.go:26-92 | the generator's loops emit exactly the code the lemmas are about |
| `PolyEmit.WriteMacc` | packaging/mipscrypto/polyblocks.go:94-111 | likewise the column multiply |
| `Products.FullExact` | packaging/mipscrypto/products.go:41-68 | the carry chain is an exact 64x64 multiply for all inputs |
| `Products.ShortExact` | packaging/mipscrypto/products.go:31-40 | the short form is exact for c <= 7 and clamped keys |
| `Products.ProductsExact` | packaging/mipscrypto/products.go:20-76 | all six results of the frame are the exact products, arguments unchanged |
| `Products.WriteProducts` | packaging/mipscrypto/products.go:20-76 | the generator emits that code |
| `ChaCha20.RotateLeftValue` | packaging/mipscrypto/assembly.go:62-65 | rotating right by 32 - k is the left rotation by k of RFC 8439: the top k bits move to the bottom |
| `ChaCha20.StepsAreQuarterRound` | packaging/mipscrypto/assembly.go:56-66 | the twelve steps are the quarter round of section 2.1 of RFC 8439 |
| `ChaCha20.InterleavedIsRound` | packaging/mipscrypto/assembly.go:67-77 | emitting step by step across four quarters equals four quarter rounds in sequence, for every state |
| `ChaCha20.GroupsAreRfc` | packaging/mipscrypto/assembly.go:52-55 | the generator's two groups are the RFC's: quarter q of a column round works on q, q + 4, q + 8, q + 12, of a diagonal round on q, 4 + (q + 1) % 4, 8 + (q + 2) % 4, 12 + (q + 3) % 4; within a group no word is used twice |
| `ChaChaBlocks.EmittedRound` | packaging/mipscrypto/assembly.go:52-77 | instruction by instruction: the one at 48 * half + 4 * step + q has the operation, the amount and the two registers the RFC's index formulas give |
| `ChaChaBlocks.RoundCodeExact` | packaging/mipscrypto/assembly.go:51-78 | one pass of the emitted loop is one more column round and diagonal round of the RFC on the working state |
| `ChaChaBlocks.OutputExact` | packaging/mipscrypto/assembly.go:97-123 | both output forms store input xor key stream, for every alignment, in place or apart |
| `ChaChaBlocks.XorBlock` | packaging/mipscrypto/assembly.go:44-90 | one block of the batch: the RFC block for the running counter is xored in and the counter moves on |
| `ChaChaStream.WordXorBytes` | packaging/mipscrypto/assembly.go:107-121 | xor of words is xor of their bytes |
| `ChaChaStream.XorBlocksCall` | packaging/mipscrypto/assembly.go:26-95 | block k of a batch is xored with the key stream for counter + k mod 2^32 |
| `ChaChaStream.StreamXorTwice` | packaging/mipscrypto/_overlay/chacha_mipsle.go:57-78 | applying the cipher twice from the same counter is the identity |
| `ChaChaStream.StreamXorSplit` | packaging/mipscrypto/_overlay/chacha_mipsle.go:70-76 | batches with the counter carried on equal one pass |
| `ChaChaStream.MatrixIsInput` | packaging/mipscrypto/_overlay/chacha_mipsle.go:65-68 | the driver's state, word by word, is the only one with "expand 32-byte k" in words 0 to 3, key word i - 4 in 4 to 11, the counter in 12 and nonce word i - 13 from 13 on |
| `ChaChaStream.Cipher.XorKeyStreamBlocks` | packaging/mipscrypto/_overlay/chacha_mipsle.go:57-78 | the whole input is xored with the RFC stream of the state that holds constants, key, counter and nonce at the RFC's places; counter advanced by the block count mod 2^32, other memory untouched; wrong lengths change nothing |
| `ChaChaEmit.WriteBlockAssembly` | packaging/mipscrypto/assembly.go:26-95 | the generator emits exactly that code: arguments, counter, load, rounds, alignment test, both outputs and the step to the next block |
| `VisionFrame.FeedAppend` | xray_src/proxy/proxy.go:562-614 | parsing does not depend on where the bytes are cut |
| `VisionFrame.FeedStream` | xray_src/proxy/proxy.go:562-614 | Continue frames, one terminal frame and a trailer parse to the contents and the trailer |
| `VisionFrame.FrameLayout` | xray_src/proxy/proxy.go:528-533 | byte by byte: command, two big-endian lengths, content, zeros |
| `VisionUnpad.RoundTrip` | xray_src/proxy/proxy.go:540-621 | for every cut (first buffer at least 21 bytes) the output is the contents and the raw trailer, if and only if no later buffer looks like a new stream |
| `VisionUnpad.RoundTripContinue` | xray_src/proxy/proxy.go:540-621 | before the terminal frame: exactly the contents so far |
| `VisionUnpad.RestartLosesBytes` | xray_src/proxy/proxy.go:556-562 | a raw buffer of 21 bytes starting with the id does lose bytes |
| `VisionUnpad.StreamEndsLate` | xray_src/proxy/proxy.go:602-614 | only the last byte of the last frame ends the stream |
| `VisionUnpad.BetweenStreams` | xray_src/proxy/proxy.go:556-562 | between streams a buffer passes unchanged unless it has 21 bytes and starts with the id, which is then skipped |
| `VisionState.UnpadLoop` | xray_src/proxy/proxy.go:563-617 | the chunk loop equals byte-by-byte parsing and consumes a byte each time |
| `VisionState.TrafficState.XtlsUnpadding` | xray_src/proxy/proxy.go:540-621 | one call computes the specification and changes only its direction's parser |
| `VisionState.TrafficState.XtlsFilterTls` | xray_src/proxy/proxy.go:624-675 | the loop over the buffers computes the filter fold, with any values behind the buffers' contents; what the fold knows is VisionTls.FilterMeans |
| `VisionState.FilterBuffer` | xray_src/proxy/proxy.go:629-671 | one buffer, field by field as in the code, is one step of the fold, whose meaning is VisionTls.StepKnows |
| `VisionState.FilterKeepsInv` | xray_src/proxy/proxy.go:624-675 | direct copy is enabled only once a server hello has been seen |
| `VisionState.FilterCounts` | xray_src/proxy/proxy.go:629 | without a server hello every buffer uses up one packet |
| `VisionTls.StepKnows` | xray_src/proxy/proxy.go:629-671 | one more buffer: the filter stops exactly if it shows, within the announced server hello, 00 2b 00 02 03 04, or completes that hello |
| `VisionTls.FilterMeans` | xray_src/proxy/proxy.go:624-675 | over every run of calls from a fresh view, in terms of the bytes: direct copy is enabled exactly if the deciding buffer shows TLS 1.3 inside the hello and the suite the hello names is 0x1301 to 0x1304; the packets left are 0 after a decision and 8 minus the buffers seen before; suite, TLS and server hello flags likewise |
| `VisionPad.PaddingNonNegative` | xray_src/proxy/proxy.go:507-524 | padding is never negative, for every draw, if and only if the seeds meet the stated condition |
| `VisionPad.PaddingCanBeNegative` | xray_src/proxy/proxy.go:507-533 | seeds outside the condition: a one-byte content makes the padding negative and the buffer panics |
| `VisionPad.PaddingHides` | xray_src/proxy/proxy.go:510-524 | content and padding never exceed the frame; a short content with long padding comes to the seeded length whatever its own, unless cut off; otherwise the padding is the draw |
| `VisionPad.PadIsFrame` | xray_src/proxy/proxy.go:501-537 | a padded buffer is the id and one frame whose two lengths decode back, and fits the buffer |
| `VisionPad.Split` | xray_src/proxy/proxy.go:480-488 | both halves fit, and the cut is at the last record header whenever that is allowed |
| `VisionPad.Reshape` | xray_src/proxy/proxy.go:466-498 | the byte stream is kept, every piece is at most Size - 21, small writes are unchanged |
| `VisionPad.IsCompleteRecord` | xray_src/proxy/proxy.go:412-463 | true exactly for concatenations of complete non-empty application data records |
| `VisionWriter.VisionWriter.EmitFrame` | xray_src/proxy/proxy.go:501-537 | one more frame on the wire, the id before the first one |
| `VisionWriter.VisionWriter.EmitPieces` | xray_src/proxy/proxy.go:364-397 | the loop itself: frames so far, the two flags it returns and the bytes handed on, with Continue up to at most one terminal frame |
| `VisionWriter.VisionWriter.FramePieces` | xray_src/proxy/proxy.go:364-397 | one frame per piece with the padding its kind calls for; padding ends if and only if a complete write has a piece of a TLS connection that starts application data, or the filter is at its last packet without a server hello; direct copy is armed if and only if direct copy is enabled in the first case; no byte lost |
| `VisionWriter.VisionWriter.WriteMultiBuffer` | xray_src/proxy/proxy.go:326-409 | every call keeps: frames are Continue until one terminal frame, nothing framed after it, wire and raw bytes spell what was given; when padding ends and direct copy is armed as an if-and-only-if on the bytes written, complete meaning that they are whole application data records |
| `VisionReader.LeavesOnlyAtEnd` | xray_src/proxy/proxy.go:233-256 | the reader stays in padding mode until the terminal frame is consumed, if and only if no read ends inside its header with zero lengths so far |
| `VisionReader.TerminalRead` | xray_src/proxy/proxy.go:244-282 | then it leaves padding mode and switches to direct copy exactly if the frame is Direct |
| `VisionReader.Delivers` | xray_src/proxy/proxy.go:203-289 | contents, rest of the read, input, rawInput, later reads: in order, nothing lost or repeated |
| `VisionReader.EarlySwitch` | xray_src/proxy/proxy.go:244-253 | a read that ends after the first header byte really switches too early |
| `VisionReader.AfterEndExact` | xray_src/proxy/proxy.go:233-256 | after an End frame a read comes out unchanged, if and only if the filter is done or no buffer looks like a new stream |
| `VisionReader.UnknownCommand` | xray_src/proxy/proxy.go:251-253 | a command above 2 changes neither padding mode nor direct copy |
| `VisionReader.VisionReader.ReadMultiBuffer` | xray_src/proxy/proxy.go:203-289 | one call does that step, hands the held bytes over once, puts exactly the unpadded non-empty buffers through the filter while packets are left, and changes nothing of the writer or the other direction |
| `VisionLink.EndToEnd` | xray_src/proxy/proxy.go:203-409 | writer and reader joined: the reader delivers exactly what the writer was given, and both agree on direct copy |
| `VisionLink.Converse` | xray_src/proxy/proxy.go:203-409 | any run of writes and reads on one traffic state: what the filter knows is what the bytes written and read say; without a server hello padding has ended by the data write by which the seventh buffer is filtered; no byte written is lost |
| `DnsCache.StepInv` | xray_src/app/dns/cache_controller.go:103-295 | every event keeps the invariant: no empty record, and every flushed key is covered by the new map |
| `DnsCache.StepView` | xray_src/app/dns/cache_controller.go:103-295 | an update changes one (domain, family), a cleanup removes exactly the expired ones among its keys, flush and end of migration change nothing |
| `DnsCache.CacheIsPlainMap` | xray_src/app/dns/cache_controller.go:103-295 | in every run the cache is the plain map of last answers |
| `DnsCache.FindIsView` | xray_src/app/dns/cache_controller.go:311-320 | a lookup returns the plain map's answer, if and only if the key is not half moved, and otherwise nothing |
| `DnsCache.HalfMovedOnlyUnflushed` | xray_src/app/dns/cache_controller.go:221-243 | only keys still to be flushed can be half moved |
| `DnsCache.UpdateCanHide` | xray_src/app/dns/cache_controller.go:273-294 | a run in which one is: enough answers, a cleanup that starts a migration, and an update of the other family |
| `DnsCache.MigrationGoesOn` | xray_src/app/dns/cache_controller.go:200-216 | a migration can always go on and gets shorter |
| `DnsCache.CacheController.UpdateRecord` | xray_src/app/dns/cache_controller.go:245-295 | the update; the record published for the other family is the plain map's |
| `DnsCache.CacheController.FindRecords` | xray_src/app/dns/cache_controller.go:311-320 | the lookup under the shared lock |
| `DnsCache.CacheController.CollectExpiredKeys` | xray_src/app/dns/cache_controller.go:73-101 | exactly the domains with an answer that expires before now, or before now minus the stale time when stale answers are served; none during a migration |
| `DnsCache.DropCleans` | xray_src/app/dns/cache_controller.go:122-136 | of the given keys exactly the answers before the bound go, every other answer stays, and a record left empty is deleted |
| `DnsCache.CacheController.WriteAndShrink` | xray_src/app/dns/cache_controller.go:103-170 | removes exactly the answers of its keys older than that bound; keeps the peak; starts a migration over all keys if and only if some records are left and their number is below the peak by more than 10240 and by more than 65 per cent of the peak |
| `DnsCache.CacheController.Flush` | xray_src/app/dns/cache_controller.go:221-243 | one batch of 4096 keys, or all that are left; it fills only what the new map lacks |
| `DnsQuery.MergeQueryErrors` | xray_src/app/dns/dns.go:381-403 | the loop returns the answer the errors determine |
| `DnsQuery.MergedUnique` | xray_src/app/dns/dns.go:381-403 | the errors determine exactly one answer |
| `DnsQuery.MakeGroups` | xray_src/app/dns/dns.go:521-575 | the groups are the maximal runs of equal policy, and every client finds its own |
| `DnsQuery.ParallelQuery` | xray_src/app/dns/dns.go:428-480 | for every arrival order: the winner at the first moment anybody can win, or a failure with one error per client exactly if nobody answers |
| `DnsQuery.WinnerInFirstGroup` | xray_src/app/dns/dns.go:449-476 | the winner's group is the first group with any answer |
| `DnsQuery.SerialQuery` | xray_src/app/dns/dns.go:405-426 | the first server that answers, or the merged errors of those asked |
| `DnsQuery.ParallelAgreesWithSerial` | xray_src/app/dns/dns.go:405-480 | both succeed or both fail; same answer with singleton groups; always from the serial answer's group |
| `DnsQuery.FailuresAgree` | xray_src/app/dns/dns.go:405-520 | the two failures are equal if and only if nobody was skipped or the errors read as empty anyway |
| `DnsQuery.FailuresCanDiffer` | xray_src/app/dns/dns.go:405-520 | one server without a record and one skipped: the parallel failure is empty, the serial one is not |
| `DnsQuery.SilentIsEmpty` | xray_src/app/dns/dns.go:405-480 | a single server that answers nothing without an error makes both forms fail as empty |
| `Operations.Pick` | cmd/vless-manager/operations.go:244-250 | the first user operation, or the first one if there is none |
| `Operations.RunInv` | cmd/vless-manager/operations.go:192-323 | in every state of every run: dedupe keys are those of live operations, each held once; each operation is completed at most once and exactly when no longer pending; a body starts at most once and never after removal; the worker never sleeps on work without a wake-up under way |
| `Operations.InvKept` | cmd/vless-manager/operations.go:192-438 | every step of callers, cancellers and worker keeps that |
| `Operations.StepDecreases` | cmd/vless-manager/operations.go:192-323 | every step the program takes by itself leaves less work |
| `Operations.CanStep` | cmd/vless-manager/operations.go:209-236 | while a caller has not returned, some step is possible |
| `Operations.EveryOperationCompletes` | cmd/vless-manager/operations.go:192-323 | left alone, the program comes to rest, and then every caller has returned and every operation was completed exactly once |
| `Operations.Coordinator.Submit` | cmd/vless-manager/operations.go:192-202 | the locked part of Run: accepted if and only if it has no key or its key is not held, and then queued last |
| `Operations.NextAllChooses` | cmd/vless-manager/operations.go:238-261 | the choice: the oldest live user operation, else the oldest live one; sleep only if all had ended; each dropped operation had ended and gets exactly one result |
| `Operations.PopLive` | cmd/vless-manager/operations.go:238-261 | the loop of next makes that choice |
| `Operations.Coordinator.Next` | cmd/vless-manager/operations.go:238-261 | the same on the coordinator |
| `Operations.Coordinator.RemoveQueued` | cmd/vless-manager/operations.go:420-438 | takes the operation back exactly if it is still queued |
| `Operations.Coordinator.CancelKind` | cmd/vless-manager/operations.go:379-403 | the active operation, or the oldest cancellable one of that kind |
| `Failover.ChangeIsConfirmed` | cmd/vless-manager/failover.go:455-504 | in every run a change at hysteresis H follows H ticks in a row that were enabled, wanted it and saw the opposite |
| `Failover.StopNeedsOpenInternet` | cmd/vless-manager/failover.go:409-426 | a tunnel is stopped only after open probes succeeded on all those ticks |
| `Failover.SteadyWishIsConfirmed` | cmd/vless-manager/failover.go:474-486 | among any H agreeing ticks in a row one makes the change, or would but for the pause, from any state |
| `Failover.OpenInternetStops` | cmd/vless-manager/failover.go:409-504 | any H enabled ticks in a row with open internet stop a running tunnel, from any state |
| `Failover.ClosedInternetStarts` | cmd/vless-manager/failover.go:409-504 | any H enabled ticks in a row without it start a stopped tunnel, or meet the pause |
| `Failover.ActsOnProbes` | cmd/vless-manager/failover.go:409-504 | a start never comes on a tick with open internet, nor a stop on one without |
| `Failover.NoStartInPause` | cmd/vless-manager/failover.go:488-514 | in every run no start before the backoff of a failed one has ended, unless reset |
| `Failover.PauseHasCause` | cmd/vless-manager/failover.go:488-514 | every pause was set by a failed start and ends its backoff after it, with no reset between |
| `Failover.OuterController.Decide` | cmd/vless-manager/failover.go:405-504 | the tick's decision and new state, in terms of the probes and the count of agreeing ticks |
| `Failover.OuterController.StartReturned` | cmd/vless-manager/failover.go:511-528 | the backoff after a failed start |
| `Failover.OuterController.ResetBackoff` | cmd/vless-manager/failover.go:200-205 | the reset |
| `Health.RunInv` | cmd/vless-manager/process.go:279-368 | in every run the tunnel runs exactly if its generation is odd, and the generation never decreases |
| `Health.RecordedForProbed` | cmd/vless-manager/failover.go:552-581 | a result is recorded only for an instance that ran uninterrupted from before the probe until the recording |
| `Health.SwapNeedsFailures` | cmd/vless-manager/failover.go:599-646 | the swap point follows the configured number of recorded failures in a row, all of one instance, still running when the underlay was confirmed |
| `Health.EnoughFailuresSwap` | cmd/vless-manager/failover.go:572-646 | conversely, that many failures in a row of the running instance do lead to the underlay check and, if it is confirmed outside the pause, to the swap |
| `Health.SwapsAreSpaced` | cmd/vless-manager/failover.go:637-646 | two swap points are a backoff apart, unless reset |
| `Health.PauseHasCause` | cmd/vless-manager/failover.go:637-646 | every swap pause was set by a swap point or by the stop of its swap, and ends its backoff after that, with no reset between |
| `Health.ProcessManager.Start` | cmd/vless-manager/process.go:272-350 | only a successful start changes the generation |
| `Health.ProcessManager.Stop` | cmd/vless-manager/process.go:352-368 | a stop of a running instance moves it on |
| `Health.HealthController.BeginProbe` | cmd/vless-manager/failover.go:547-564 | a probe begins exactly if the check is on and a tunnel runs, and remembers its generation |
| `Health.HealthController.RecordProbe` | cmd/vless-manager/failover.go:572-617 | a result is recorded if and only if the probed instance still runs; the count of its failures in a row; on to the underlay check exactly at the limit |
| `Health.HealthController.ConfirmUnderlay` | cmd/vless-manager/failover.go:620-635 | the second check of the same instance |
| `Health.HealthController.CheckBackoff` | cmd/vless-manager/failover.go:639-646 | the swap backoff, under a lock of its own |
| `Routing.CleanupStrips` | cmd/vless-manager/routing.go:339-385 | the cleanup removes exactly the manager's objects, foreign rules and their order intact, if and only if none of them is there more than five times |
| `Routing.CopiesStay` | cmd/vless-manager/routing.go:340-346 | of a rule that is there n times, at least n - 5 stay |
| `Routing.DropOne` | cmd/vless-manager/routing.go:355-360 | no chain deletion fails on a live reference |
| `Routing.OwnHooksAreListed` | cmd/vless-manager/routing.go:348-384 | the cleanup looks for every hook of this build and of the older ones |
| `Routing.RollbackRestores` | cmd/vless-manager/routing.go:165-228 | any prefix of the plan, then the cleanup, restores clean tables exactly |
| `Routing.PlanGoesThrough` | cmd/vless-manager/routing.go:165-218 | on clean tables no command is refused, and the hooks end up first, LAN before loopback |
| `Routing.Kernel.Disable` | cmd/vless-manager/routing.go:339-385 | runs the cleanup, five attempts per rule |
| `Routing.Kernel.Install` | cmd/vless-manager/routing.go:220-228 | all commands went through, or a prefix was followed by the cleanup, which puts clean tables back |
| `Routing.Kernel.Enable` | cmd/vless-manager/routing.go:149-161 | installed on the cleaned tables; a failure leaves exactly the foreign part, for leftovers the cleanup can handle |
| `Packets.Captured` | cmd/vless-manager/routing.go:172-193 | which packets a capturing chain leaves alone and which it takes |
| `Packets.CapturedPass` | cmd/vless-manager/routing.go:194-201 | captured LAN and loopback packets pass the inspection, all others go on as before |
| `Packets.ListenerProtected` | cmd/vless-manager/routing.go:202-211 | the listener takes only captured LAN and loopback packets |
| `Geodata.UndoAllIsExact` | xray_src/app/geodata/download.go:296-319 | undoing in reverse restores every file, also with shared targets |
| `Geodata.FailedSwap` | xray_src/app/geodata/download.go:263-294 | a failed swap leaves the data files alone |
| `Geodata.StopAndRollBack` | xray_src/app/geodata/download.go:251-261 | stopping at any asset and rolling back restores every data file |
| `Geodata.CommitInstalls` | xray_src/app/geodata/download.go:321-329 | a commit leaves the last download of each target and no backup |
| `Geodata.Store.SwapAll` | xray_src/app/geodata/download.go:251-261 | all swapped, or everything as before |
| `Geodata.Store.Update` | xray_src/app/geodata/geodata.go:67-86 | the whole update, whatever fails, including the reload |
| `Ping.PhysicalPingServers` | cmd/vless-manager/ping.go:237-258 | the loops compute the next level without repeated keys |
| `Ping.FirstsFacts` | cmd/vless-manager/ping.go:245-254 | that level has every key once, nothing new, and no key is forgotten |
| `Ping.LevelShallower` | cmd/vless-manager/ping.go:264-269 | the recursion goes down one level of nesting |
| `Ping.PingBatch` | cmd/vless-manager/ping.go:160-298 | for every list and probe: the results and the probed servers of the specification, whatever the identifiers |
| `Ping.BatchIsAlone` | cmd/vless-manager/ping.go:264-298 | with consistent identifiers every entry, however nested, gets the latency and first fastest member it would get alone |
| `Ping.ProbedOnce` | cmd/vless-manager/ping.go:237-269 | then exactly the physical servers below are probed, each once if there is a profile |
| `Ping.ExactlyIfConsistent` | cmd/vless-manager/ping.go:245-283 | with physical members, every entry always gets its own result if and only if no identifier or stand-in means two servers |
| `Ping.IdsSuffice` | cmd/vless-manager/ping.go:245-283 | identifiers that are present and mean one server each are enough for that, at every depth |
| `Ping.MissingIdsCollide` | cmd/vless-manager/ping.go:246-273 | two servers without an identifier in one profile do spoil its result |
| `Ping.Summarise` | cmd/vless-manager/ping.go:280-294 | the loop finds the first fastest reachable member among the results looked up |
| `Ping.ResultNamesMember` | cmd/vless-manager/ping.go:280-294 | the profile's result has the latency, address and port of the first fastest member's result and names that member; unreachable with its own address if none answers |
| `Ping.PreferGroupMember` | cmd/vless-manager/api.go:2432-2450 | moves that member to the front and changes nothing else |
| `Ping.MoveKeepsOthers` | cmd/vless-manager/api.go:2440-2443 | a permutation that keeps the order of the others |
| `Ping.PreferringIsStable` | cmd/vless-manager/api.go:2432-2450 | pinging the preferred profile again gives the same latency from the same member |
| `Ping.FastestReachable` | cmd/vless-manager/ping.go:301-313 | the first smallest reachable, compatible latency |

## Left out

- HTTP handlers, web UI, authentication, subscriptions, updates and speed tests: input and output around easy logic.
- Clocks, randomness and the network appear as parameters: tick times, padding draws, probe results, arrival orders, which file or kernel command fails.
- CPU detection, environment switches and the choice between the generic and MIPS routines.
- The single-block routine `xorBlockMIPS32R2`: the batch routine without its counter and loop.
- The final reduction and tag of Poly1305, which stay upstream's.
- `PolyUpdate.UpdateMips`: upstream's portable update of a tail below sixteen bytes is not part of this model; it is specified as the same lazy fold on the state.
- The upstream `XORKeyStream` that buffers partial blocks and checks overlap and counter overflow.
- `VisionState.TrafficState.XtlsFilterTls`: a cipher suite that lies past the buffer's content is read from whatever the backing array holds; the model takes that value, for each buffer, as a parameter.
- 32-bit wrap-around of padding seeds, and writes that mix nil and data buffers, which panic in the splitter.
- `VisionReader.Delivers`: read errors, connection counters, splice flags and the unwrapping of connection types are not modelled.
- Random padding failures: a failed random source panics in the code.
- Cache records are values: that a reader may hold a record while cleanup clears one of its fields in place is not captured.
- Recovery from a panic during migration, which drops the old map.
- The floating-point threshold 0.65 is compared exactly, as 20 times the reduction against 13 times the peak.
- `sortClients`, the domain matcher and static hosts: the query theorems hold for every client list. Errors are compared as values, not by unwrapping.
- `DnsQuery.ParallelAgreesWithSerial`: both forms are given the same outcome per client, although the parallel one allows a longer timeout.
- `Acquire` and its lease, progress reports, stall detection and cancelling the active operation, which only signal its context.
- `Health.SwapNeedsFailures`: says nothing about which instance the swap then stops, since nothing is locked between the last check and the stop.
- The 64-bit wrap-around of the generation counter.
- The ring buffer of log lines, priority groups and their rotation, and `globalRouteReady`, which matches printed tables.
- Kernel commands of the cleanup that fail although the object is there.
- `Routing.CleanupStrips`: takes the manager's rules to be where and what the cleanup looks for; a jump to its chains from anywhere else would stay and keep the chain alive.
- `Geodata.Store.Update`: file operations of the rollback and of the commit themselves are taken to succeed, and backup names to stay free.
- `Ping.ExactlyIfConsistent`: for profiles nested deeper only the sufficient condition is proved, since two profiles with one identifier may happen to have the same members.
- `Ping.PingBatch`: cancellation of a batch, progress callbacks and the order of parallel probes; a probe is a function of the server.
