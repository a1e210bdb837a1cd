# A verified model of uboot-tftp

uboot-tftp is a TFTP server that drives U-Boot boards. A board asks for a script, runs it, and
asks again; between two requests a Python coroutine on the server is suspended. The scripts read,
probe, erase and write a NOR chip, and the server parses and patches U-Boot environments.

This project models that behaviour in Dafny and proves what it promises.

**The device** (`Device`, `Hush`, `DeviceFrame`). Memory, one NOR chip whose writes can only clear
bits, environment variables, the exit status, and a hush shell over a command syntax tree that is
parsed completely before anything runs. A command with malformed or out-of-range operands fails and
changes nothing else.

**Script generators** (`NorScripts`, `NorBackup`, `NorProbe`, `BatchCrc`). The emitted scripts are
syntax trees; running them has the intended effect. A restore is exact just when the erase is accepted
or no bit has to be set, and what it writes without a fitting file is stated too; the nested probe
finds the largest doubling that can be read; batch checksums leave memory as it was and are right in
either byte order.

**Active-memory search** (`Ranges`, `ActiveSearch`, `MemorySearch`). Coalescing is canonical and
shortest; the search terminates and reports exactly the addresses that changed, in the samples it took,
in every round. With a device's checksums as samples that means changed checksums, hence changed memory.

**Environment and images** (`Utf8`, `EnvImage`, `EnvRoundTrip`, `FlashImage`, `MkImage`). Building and
parsing an environment partition undo each other, with the exact condition for the ambiguous header;
patching a flash image; inferring its layout; script images that a board accepts and reads back.

**The session protocol** (`Protocol`, `ProtocolRoundTrip`, `SessionModel`, `SessionRuns`,
`SessionSafety`, `SessionStores`, `Scripted`). `SessionModel` says on values what one request does; a
handler is an arbitrary coroutine that may also crash. `SessionStores` and `Scripted` are the classes
that update sessions and jobs in place, each method proved to do exactly that. `SessionRuns` and
`SessionSafety` are about every run of requests, uploads and download workers.

**Download jobs** (`DownloadJobs`, `DownloadWorkers`). The store as a class whose methods are the steps
under its lock, and every interleaving of worker threads with sessions.

**Refinement** (`Runs`, `Refinement`, `Simulation`, `Interleaved`, `EndToEnd`, `ChecksOverNetwork`). The
network run of any handler on a hush client does what running that handler directly against the device
does, exchange by exchange, among whatever other clients and workers do. Backup, restore, probe and
checksums are then carried over to the network.
`Sequences`, `Bytes` and `Wrappers` hold what all of them share.

Points where the code may surprise, and the model follows it: a restore whose `sz` is not a whole number
of erase blocks, or whose file is missing, is not refused by its script; the client-id pattern's `$` also
accepts one final newline; `hush_shell` may already be preset by the configuration or the first request,
so the hush gate speaks of the merged variables; a reported value with a slash is read as several
segments; a second acquisition of an artifact under other parameters is an error; a handler that raises
leaves its session in the store.

## Model

| member | source | states |
|---|---|---|
| Simulation.NetworkRefinesDirect | src/uboot_tftp/scripted.py:228-438 | for every handler, device and number of exchanges, whatever other clients and workers do before each script and before each request, the network run simulates the direct run at every exchange: same scripts in the same order, same frame and environment, same device up to protocol temporaries |
| Simulation.SameRun | src/uboot_tftp/scripted.py:607-613 | the consequences outright: equal script sequence, the coroutine in the direct run's frame (hence the same value at every await), and, once the run is over, no protocol variable left on the device |
| Interleaved.AmongOthersRefines | src/uboot_tftp/scripted.py:228-438 | the same simulation when the server handles any sequences of other clients' requests and uploads and of download steps in between: that they leave the session alone is derived |
| Interleaved.ForeignEvents | src/uboot_tftp/scripted.py:228-274 | however many events of others the server handles, a client's session stays as it is |
| Interleaved.AloneRefines | src/uboot_tftp/scripted.py:228-438 | a client that has the server to itself: the simulation asks only about its own reports and scripts |
| Simulation.GateStepSim | src/uboot_tftp/scripted.py:322-331 | the preflight exchange: a hush shell confirms itself, the handler is created and first resumed with nothing |
| Simulation.UploadSim | src/uboot_tftp/scripted.py:407-438 | an `exec_recv` exchange: `setexpr`, upload, and the continuation for success or failure hand over exactly the memory the direct run reads, or the receive failure |
| Simulation.ContinueSim | src/uboot_tftp/scripted.py:371-405 | a plain `exec` exchange reports exactly the asked-for variables and resumes the handler |
| Simulation.LastStepSim | src/uboot_tftp/scripted.py:357-359 | a final or unparsable script ends both runs, and unwinding removes the temporaries |
| Simulation.AddressSame | src/uboot_tftp/scripted.py:562-574 | the upload address computed through a temporary is base plus offset with 32 bits, and malformed offsets fail |
| Refinement.ContinuationArrives | src/uboot_tftp/scripted.py:537-559 | for values that come through a path (exactly those of ProtocolRoundTrip.ValuesArriveIff) the parsed continuation carries the token, the status and exactly the requested values |
| Refinement.RecognizedIff | src/uboot_tftp/scripted.py:249-252 | for any token, keys and values: a continuation is recognized if and only if the last `token=` segment its path is read as holds the session's token |
| Refinement.ForeignToken | src/uboot_tftp/scripted.py:249-252 | a concrete value, `a/token=<other>` under another key, that loses the session |
| Refinement.UploadArrives | src/uboot_tftp/scripted.py:417 | the upload path names the client, the token and the expected file |
| Refinement.LoadedIsSourced | src/uboot_tftp/scripted.py:399-404 | what `source` finds at the base address after loading is the script and continuation that were compiled |
| Refinement.WaitAnswered | src/uboot_tftp/scripted.py:249-294 | the server answers a current continuation with the outcome of resuming the suspended frame |
| Refinement.CheckAnswered | src/uboot_tftp/scripted.py:249-265 | the server answers the confirmed preflight with the outcome of the new handler's first run |
| DeviceFrame.SourceErased | src/uboot_tftp/scripted.py:562-574 | running a script that does not mention protocol temporaries commutes with forgetting them, and sets none |
| Runs.NetAt | src/uboot_tftp/scripted.py:228-438 | every state of the network run keeps the server invariant |
| SessionRuns.After | src/uboot_tftp/sessions.py:23-80 | the invariant of every reachable state, crashes included: sessions sit under their own ids, a receive is pending exactly while the handler waits for it and under the current token, no handler before the preflight, no unstarted handler, attached sessions are exactly the live ones that hold the key |
| SessionRuns.NextOk | src/uboot_tftp/scripted.py:228-294 | every event keeps that invariant |
| SessionRuns.FetchOk | src/uboot_tftp/scripted.py:228-369 | one request touches only its own session's state and attachments; a served script means a new token, a new receive starts empty |
| SessionRuns.SettleOk | src/uboot_tftp/scripted.py:276-294 | return, receive failure, crash, foreign yield and instruction all leave a consistent session |
| SessionRuns.AskAllBooks | src/uboot_tftp/scripted.py:153-176 | acquisitions attach the session to exactly the keys it records |
| SessionRuns.DiscardOnly | src/uboot_tftp/scripted.py:445-452 | discarding detaches the session from everything it held and nobody else |
| SessionRuns.RecordOk | src/uboot_tftp/uploads.py:70-90 | recording an upload keeps the invariant |
| SessionSafety.ExactDelivery | src/uboot_tftp/scripted.py:266-274 | the value `exec_recv` returns is the body of the last upload closed under this exchange's own token, given recv=ok; otherwise the handler gets the receive failure |
| SessionSafety.ExecGetsNothing | src/uboot_tftp/scripted.py:274 | after a plain `exec` the handler goes on with nothing, whatever was uploaded |
| SessionSafety.CreatedThenStarted | src/uboot_tftp/scripted.py:254-265 | a new handler is first resumed with nothing |
| SessionSafety.UploadsRight | src/uboot_tftp/uploads.py:34-90 | over any interleaving the recorded body is the one read off the events: first accepted close of each connection, last one wins |
| SessionSafety.TokensServedOnce | src/uboot_tftp/scripted.py:249-252 | with fresh tokens, no token is answered with a script twice in a run |
| SessionSafety.StaleChangesNothing | src/uboot_tftp/scripted.py:250-252 | a continuation without the current token changes no state and is answered with "not found" |
| SessionSafety.TokensStayDistinct | src/uboot_tftp/scripted.py:332-369 | no two sessions ever share a token |
| SessionSafety.Isolation | src/uboot_tftp/scripted.py:228-274 | requests and uploads of one client leave every other session unchanged |
| SessionSafety.LeftAlone | src/uboot_tftp/scripted.py:228-274 | over any stretch of a run, a session nobody addresses stays exactly as it is |
| SessionSafety.HushGate | src/uboot_tftp/scripted.py:254-265 | unless the second accepted request found hush_shell set to true, state and answer do not depend on the handlers at all |
| SessionSafety.HistoryRight | src/uboot_tftp/scripted.py:537-543 | a session's variables are the first request's settings overlaid by every report accepted since |
| SessionRuns.PublicOfMerged | src/uboot_tftp/scripted.py:532-543 | merging reports keeps the public variables equal to all variables minus the three transport keys |
| Scripted.ScriptedSessionProvider.FetchPath | src/uboot_tftp/scripted.py:228-234 | one request on the objects does exactly what the value model says, and keeps the invariant |
| Scripted.ScriptedSessionProvider.StartSession | src/uboot_tftp/scripted.py:236-247 | restarting discards the old session and prepares the new one |
| Scripted.ScriptedSessionProvider.ResumeSession | src/uboot_tftp/scripted.py:249-274 | token check, merge, gate and hand-over as on values |
| Scripted.ScriptedSessionProvider.PassGate | src/uboot_tftp/scripted.py:254-263 | the preflight branch: refuse or create the handler |
| Scripted.ScriptedSessionProvider.ContinueSession | src/uboot_tftp/scripted.py:264-274 | the pending receive is used up and its body handed over |
| Scripted.ScriptedSessionProvider.AdvanceSession | src/uboot_tftp/scripted.py:276-294 | every outcome of the coroutine leads to the state and answer of the value model |
| Scripted.ScriptedSessionProvider.ResultFromInstruction | src/uboot_tftp/scripted.py:333-369 | receive, final and plain instructions |
| Scripted.ScriptedSessionProvider.DiscardSession | src/uboot_tftp/scripted.py:445-452 | all artifacts released, the session forgotten |
| Scripted.ScriptedSessionProvider.AcquireAll | src/uboot_tftp/scripted.py:153-176 | the loop of acquisitions equals the recursive definition |
| SessionStores.InMemorySessionStore.Get | src/uboot_tftp/sessions.py:54-55 | lookup by normalized id, malformed ids raise |
| SessionStores.InMemorySessionStore.Require | src/uboot_tftp/sessions.py:70-74 | a missing session raises |
| SessionStores.InMemorySessionStore.Replace | src/uboot_tftp/sessions.py:57-68 | the old session is dropped and a blank one stored |
| SessionStores.InMemorySessionStore.Discard | src/uboot_tftp/sessions.py:76-77 | exactly that id is removed |
| SessionStores.InMemoryUploadStore.Open | src/uboot_tftp/uploads.py:56-68 | accepted if and only if the session waits for this upload |
| SessionStores.InMemoryUploadStore.Record | src/uboot_tftp/uploads.py:70-90 | checked again; stores the body, appends to the list and keeps the per-client index right |
| SessionStores.CapturingUpload.Close | src/uboot_tftp/uploads.py:34-45 | recorded at most once; a refused close leaves the connection uncaptured |
| SessionStores.OfClient | src/uboot_tftp/uploads.py:81-90 | the index holds exactly the client's uploads |
| DownloadJobs.DownloadJobStore.Acquire | src/uboot_tftp/download_jobs.py:98-135 | attaches the session, creates the entry and starts one worker for a new key, refuses different parameters without change |
| DownloadJobs.DownloadJobStore.Get | src/uboot_tftp/download_jobs.py:137-140 | a snapshot of the entry, its reference count the number of attached sessions |
| DownloadJobs.DownloadJobStore.Release | src/uboot_tftp/download_jobs.py:142-148 | detaches one session and changes nothing else |
| DownloadJobs.DownloadJobStore.UpdateProgress | src/uboot_tftp/download_jobs.py:187-194 | progress never touches state or attachments |
| DownloadJobs.DownloadJobStore.MarkDone | src/uboot_tftp/download_jobs.py:196-202 | the entry is done, nothing else changes |
| DownloadJobs.DownloadJobStore.MarkFailed | src/uboot_tftp/download_jobs.py:204-211 | the entry is failed with its message, nothing else changes |
| DownloadWorkers.NextKeepsInv | src/uboot_tftp/download_jobs.py:98-211 | every step of every worker and session keeps the invariant between entries, workers and files |
| DownloadWorkers.RunInv | src/uboot_tftp/download_jobs.py:154-211 | and so does every interleaving |
| DownloadWorkers.StateMovesOnce | src/uboot_tftp/download_jobs.py:196-211 | a state moves at most once, from pending to done or failed |
| DownloadWorkers.OneWorkerEach | src/uboot_tftp/download_jobs.py:110-135 | each key has exactly one worker |
| DownloadWorkers.DoneMeansDownloaded | src/uboot_tftp/download_jobs.py:162-202 | an observed "done" means the final file holds that worker's whole download, from then on |
| DownloadWorkers.PollReturnsDownload | src/uboot_tftp/ubootops.py:56-63 | the polling loop returns the whole download or reports failure |
| DownloadWorkers.TrustedIffDistinct | src/uboot_tftp/download_jobs.py:98-202 | in every run a key seen done holds its own worker's whole download, if and only if no file of one key is a file of another; a violating run is given for equal finals, equal temporaries, and a final equal to a temporary |
| Protocol.NormalizeIdempotent | src/uboot_tftp/protocol.py:25-29 | a normalized id is normalized to itself |
| Protocol.CollectValues | src/uboot_tftp/protocol.py:52-56 | the loop's dictionary: later segments win, segments without a key are skipped |
| Protocol.ParsedNormalized | src/uboot_tftp/protocol.py:32-69 | a parsed id finds the same session again |
| ProtocolRoundTrip.ParseAnyRendered | src/uboot_tftp/protocol.py:32-69 | a rendered continuation path with any token, keys and values parses into the client and the split, decoded pieces of its segments |
| ProtocolRoundTrip.ParseRendered | src/uboot_tftp/protocol.py:32-69 | when nothing has a slash or changes under percent-decoding, those pieces are the segments themselves |
| ProtocolRoundTrip.ValuesArriveIff | src/uboot_tftp/scripted.py:556-559 | all reported values are read back as they are if and only if none has a slash or changes under percent-decoding, whatever the token and the status are |
| ProtocolRoundTrip.ReadIff | src/uboot_tftp/protocol.py:52-56 | the dictionary has a value for a key if and only if the last segment with that key has it |
| ProtocolRoundTrip.UnquotePair | src/uboot_tftp/protocol.py:37 | percent-decoding a `key=value` segment decodes key and value separately |
| ProtocolRoundTrip.ContinuationRoundTrip | src/uboot_tftp/scripted.py:386-405 | token, status and every key come back as sent and nothing else does; the server's own values survive if and only if no key is called like them or the device's value is the same |
| ProtocolRoundTrip.SlashCuts | src/uboot_tftp/scripted.py:556-559 | a value with a slash is read as its front under its key, and its rest as segments of their own |
| MkImage.CompiledRuns | src/uboot_tftp/mkimage.py:38-94 | wherever it lies in memory, a compiled image passes the loader's magic, size and checksum tests and gives its script back |
| MkImage.CompilesIff | src/uboot_tftp/mkimage.py:38-81 | exactly the scripts and times that fit the 32-bit fields are compiled, to 72 bytes more than the script |
| NorBackup.BackupDelivers | src/uboot_tftp/ubootops.py:65-80 | the bytes uploaded are the first `size` bytes of the chip |
| NorBackup.BuildBackup | src/uboot_tftp/ubootops.py:74-79 | the builder emits that script with two fresh temporaries |
| EndToEnd.BackupOverNetwork | src/uboot_tftp/ubootops.py:65-80 | over the network the handler's `exec_recv` is resumed with the first `size` bytes of the chip (0xFF throughout without one), although its script image was loaded over the same memory |
| EndToEnd.RestoreOverNetwork | scripts/openipc.py:133-145 | over the network a handler that awaits the restore has it done on the device's own chip before it goes on |
| ChecksOverNetwork.AskedOverNetwork | src/uboot_tftp/scripted.py:371-405 | over the network a handler that asks for variables goes on in the environment that the device's answers make |
| ChecksOverNetwork.ChecksumsOverNetwork | scripts/openipc.py:372-390 | over the network a batch of checksums is read, in either byte order, as the host's view of the memory the script found |
| ChecksOverNetwork.EndianOverNetwork | scripts/openipc.py:352-360 | over the network the handler reads 44 if and only if the device is little-endian |
| ChecksOverNetwork.ProbeOverNetwork | src/uboot_tftp/ubootops.py:83-114 | over the network, after the two exchanges of the probe, `size` reads as the largest doubling that fits the chip and the cap |
| NorBackup.RestoreRuns | scripts/openipc.py:133-145 | the whole final state of the restore script, whether or not the file exists and whatever its length: base kept, temporaries unset |
| NorBackup.WhatIsWritten | scripts/openipc.py:136-143 | a longer file is cut, a shorter one is followed by what memory held, and without a file, or room for it, memory itself is written |
| NorBackup.RestoreExact | scripts/openipc.py:133-145 | the chip holds the image if and only if the size is a whole number of erase blocks or every bit needed is still set; the rest of the chip is unchanged |
| NorBackup.UnalignedRestoreDestroys | scripts/openipc.py:138-142 | a concrete chip on which a refused erase leaves neither old nor new contents |
| NorBackup.BackupThenRestore | scripts/openipc.py:115-145 | backup, anything on the chip, then restore puts the bytes back and leaves the rest |
| NorBackup.RestoresFile | scripts/openipc.py:133-145 | a file of the right length ends up on the chip, the rest of which is unchanged |
| NorBackup.BuildRestore | scripts/openipc.py:133-145 | the builder emits that script with two fresh temporaries |
| NorScripts.MemSetEffect | src/uboot_tftp/ubootscript.py:14-32 | fills exactly the range and unsets its temporary |
| NorScripts.NorReadEffect | src/uboot_tftp/ubootscript.py:69-88 | copies chip to memory, nothing else changes |
| NorScripts.NorWriteEffect | src/uboot_tftp/ubootscript.py:91-110 | ANDs memory into the chip, nothing else changes |
| NorScripts.NorEraseEffect | src/uboot_tftp/ubootscript.py:58-66 | erases aligned ranges and refuses others |
| NorScripts.FetchStaticEffect | src/uboot_tftp/ubootscript.py:113-133 | with an offset: what loading at base plus offset does, also when it fails, and no temporary is left |
| NorScripts.FetchStaticPlain | src/uboot_tftp/ubootscript.py:126-127 | without an offset: what loading at the base does, whatever other base was given |
| NorScripts.TmpNamesDiffer | src/uboot_tftp/ubootscript.py:163-164 | generated names differ when the counter does |
| NorScripts.TmpCounter.Next | src/uboot_tftp/ubootscript.py:163-164 | each name uses the next number |
| NorProbe.GenProbe | src/uboot_tftp/ubootscript.py:135-161 | the recursive generator only appends, and terminates |
| NorProbe.ProbeLength | src/uboot_tftp/ubootscript.py:147-161 | exactly 6k+1 entries for k doublings |
| NorProbe.DoublingsCounts | src/uboot_tftp/ubootscript.py:147-161 | k counts the i with sz*2^i at most max_sz |
| NorProbe.ProbeParses | src/uboot_tftp/ubootscript.py:147-161 | the flat list is a well-nested if/else/fi script |
| NorProbe.ProbeFinds | src/uboot_tftp/ubootscript.py:135-161 | running it sets size to the largest sz*2^k that is at most max_sz and can be read, or keeps the last good size |
| NorProbe.LargestIsLargest | src/uboot_tftp/ubootscript.py:147-161 | no doubling within the limit is larger |
| NorProbe.ProbedSizeIsLargest | src/uboot_tftp/ubootops.py:83-114 | the whole operation, two scripts with reloads in between, returns that size, or 0 when there is none or no chip |
| BatchCrc.CrcScriptEffect | scripts/openipc.py:362-370 | one checksum: memory and flash as before, the result in its variable, helpers unset |
| BatchCrc.BatchEffect | scripts/openipc.py:372-383 | any batch of ranges, overlapping each other or the scratch word, leaves memory as it was and reports the original memory's checksums |
| BatchCrc.ChecksumAll | scripts/openipc.py:372-390 | script, reply and decoding together return one value for each range, in order |
| BatchCrc.DecodeAll | scripts/openipc.py:384-390 | the unpacking loop, dropped leading zeros included |
| BatchCrc.ChecksumsRight | scripts/openipc.py:384-390 | with the device's byte order the values are the checksums |
| BatchCrc.DecodedRight | scripts/openipc.py:384-390 | the byte order that makes decoding right |
| BatchCrc.DecodedDistinguishes | scripts/openipc.py:444-452 | with either byte order, equal values mean equal checksums |
| BatchCrc.EndianEffect | scripts/openipc.py:352-360 | the test answers 44 if and only if the device is little-endian and restores the word it used |
| Ranges.Coalesce | scripts/openipc.py:405-427 | covers exactly the input's addresses, sorted with strict gaps |
| Ranges.CanonicalUnique | scripts/openipc.py:405-427 | lists of that shape with the same addresses are equal |
| Ranges.CoalesceCanonical | scripts/openipc.py:405-427 | order, duplicates and cuts of the input make no difference |
| Ranges.CanonicalShortest | scripts/openipc.py:405-427 | no list with the same addresses is shorter |
| ActiveSearch.BatchedPartitions | scripts/openipc.py:395-396 | batches are non-empty, at most the size, and concatenate to the input |
| ActiveSearch.ChunksCover | scripts/openipc.py:398-403 | the parts cover exactly the range |
| ActiveSearch.SampleAll | scripts/openipc.py:440-451 | what is kept is exactly the ranges whose own two samples of this round, at the times their batch is reached, differ, in order |
| ActiveSearch.FindActive | scripts/openipc.py:429-468 | terminates; an address is reported if and only if in every round that comes about it lies in a range whose two samples of that round differed, the last round having ranges of at most the minimum size; always-changing addresses are among them; it fails if and only if a changed range that is too large cannot be split evenly, with that size, and the sizes on the way there were all split without remainder |
| MemorySearch.SearchMemory | scripts/openipc.py:429-468 | with a device's checksums as samples, in either byte order: an address is reported if and only if in every round that comes about a range around it had another checksum the second time its batch was asked for |
| MemorySearch.ReportedIff | scripts/openipc.py:440-451 | the same for one address, whatever the memory does between two scripts |
| MemorySearch.DiffersIff | scripts/openipc.py:444-452 | the host sees a range differ if and only if its checksum changed, and then a byte of it changed |
| MemorySearch.SamplesAreReplies | scripts/openipc.py:372-390 | the samples of a batch are the values one script and one reply deliver |
| ActiveSearch.RoundAddresses | scripts/openipc.py:462-466 | a round samples exactly the addresses that changed in every round before it |
| ActiveSearch.RoundLevel | scripts/openipc.py:456-466 | the ranges of a round have one size and lie inside the input |
| ActiveSearch.AlwaysChangingSurvives | scripts/openipc.py:438-466 | an address whose surroundings always sample as changed survives every round |
| ActiveSearch.PowerSizesNeverFail | scripts/openipc.py:398-403 | for sizes that are something up to the minimum, times a power of the parts, no round is ever stuck |
| Utf8.DecodeEncode | src/uboot_tftp/ubootenv.py:450-459 | decoding undoes encoding; decoding malformed input replaces each longest unfinished beginning of a character |
| EnvImage.EncodeEnvPayload | src/uboot_tftp/ubootenv.py:478-488 | the loop's payload, and the first bad entry otherwise |
| EnvImage.ParseEnv | src/uboot_tftp/ubootenv.py:450-459 | the loop's dictionary |
| EnvRoundTrip.BuildSucceeds | src/uboot_tftp/ubootenv.py:106-135 | building succeeds if and only if pad, flags, entries and size are acceptable |
| EnvRoundTrip.RoundTrip | src/uboot_tftp/ubootenv.py:78-135 | parsing what was built returns the environment, for every size and pad byte, if and only if there is no flags byte, or it is zero, or the four-byte reading of the header does not match by accident, or that reading finds no entry |
| FlashImage.PatchExplicit | src/uboot_tftp/ubootenv.py:225-257 | the length is kept if and only if the partition lies inside the image, and then every byte outside it; the partition is the built image |
| FlashImage.ExtractAfterPatch | src/uboot_tftp/ubootenv.py:161-202 | extracting with the same explicit layout returns the new environment if and only if the partition starts inside the image or at its end |
| FlashImage.PatchTwice | src/uboot_tftp/ubootenv.py:225-257 | patching twice is patching once with the later environment, under exactly that condition |
| FlashImage.FirstOfIsLeast | src/uboot_tftp/ubootenv.py:357-366 | the boundary is the least index where any magic occurs |
| FlashImage.InferredLayout | src/uboot_tftp/ubootenv.py:299-347 | inference succeeds if and only if a marker follows and a common size fits before it; the partition then ends at the first marker, lies inside the image behind the boot region, and has the first common size whose boot region yields defaults |

## Left out

- The TFTP library, sockets, block transfer and `server.py`: a request or an upload is one atomic step.
- HTTP downloads and the GitHub manifest: a downloader is an arbitrary function that succeeds with bytes or fails.
- TOML, argparse, module loading, path resolution, static file serving: library behaviour.
- `cp.b` and `uboot_memcpy`: no modelled operation uses it; overlapping copies would need the command's direction.
- Terminal colours and progress bars are echo commands without effect, `uboot_exec_delay` with them; script texts are syntax trees with an arbitrary injective rendering.
- `base` given as text and offsets containing variables: bases are one variable, offsets plain numbers.
- Simulation.NetworkRefinesDirect: requires of each exchange that no key is called token or recv, that the values come through a path (ProtocolRoundTrip.ValuesArriveIff, Refinement.RecognizedIff and Refinement.ForeignToken say exactly when they do and what happens otherwise), that scripts do not use the protocol's own temporary names, and that the base variable is not called filesize; the exit status after the end of a run is not compared.
- SessionModel: a handler observes clock and downloads through one number given at each resumption and does not see the result of its acquisitions otherwise; handlers do not write to the shared variables; clean-up code of closed coroutines is not run; request counters and time stamps are dropped.
- Scripted.ScriptedSessionProvider.FetchPath: answers are a script and the appended commands, compiled only in `Runs`; a pending receive is a value inside its session, not an object of its own.
- SessionSafety.ExactDelivery: the length of an uploaded body is not compared with the requested size, as in the code.
- `fetch_env`: nothing is claimed about the exported text, whose memory the next script image overwrites.
- Negative receive sizes, and the number formats of `_parse_max_size`.
- Device.Step: malformed and out-of-range operands make a command fail; `setexpr` works with 32 bits.
- Protocol.NormalizeIdempotent: lower-casing is that of ASCII.
- FlashImage.InferredLayout: the embedded-default extraction, the `mtdparts` reading and the raw-partition fallback are arbitrary functions of the region; with an `mtdparts` layout nothing is claimed.
- CRC-32 is an arbitrary function from bytes to 32 bits, never assumed injective.
