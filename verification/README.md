# LocalSandbox: a verified model of the guest multiplexer, the mount cache and their codecs

LocalSandbox runs workloads inside a small virtual machine. Host and guest talk over one byte channel; the guest can
mount host directories from a persistent, content-addressed disk cache. This project models the parts of that system
whose correctness depends on many operations at once, and proves what those operations keep.

**The guest session multiplexer** (`MuxState`, `GuestMux`, `MuxRuns`, `MuxInvariant`, `MuxTheorems`, `MuxOrder`,
`MuxHistory`, `MuxAnswers`).
Many virtual byte streams share one port, with credit in both directions, a priority queue for control frames, a
round-robin queue for data, half-close, reset and a sticky failure. Each critical section is a function from state to
state; the class `GuestMux` updates its queues in place and is proved equal to those functions. A run is any
interleaving of the sections and of arriving frames, with a log of what happened. One invariant, kept by every step,
yields the theorems: frame order within a session, conservation of credit and bytes on both sides, the scheduler, exact
round-robin fairness, and the fate of handles. A second one ties every session to the log, so that the answer of every
operation is a function of what has happened, whatever the interleaving was.

**The mount cache** (`Snapshot`, `Paths`, `SourceTree`, `WalkOrder`, `TreeHash`, `CacheProtocol`, `Import`,
`ImportRoundTrip`, `CacheKernel`, `CacheManager`, `CacheService`, `CacheInvariant`, `CacheRegistry`, `CacheRuns`,
`CacheDigest`, `CacheAnswers`, `CacheOverlays`, `CacheOverlayRuns`, `CacheSound`, `CachePipeline`, `CacheUndo`,
`CacheCover`, `CacheAlias`). A tree is hashed through a canonical byte stream; a build imports it in batches, seals it, and
mounts it read-only; overlays are mounted on validated images. BLAKE3 is any function to 32-byte digests, so results about
keys end in "the same tree, or these two streams are a collision". The operating system is a table of devices and mounts
in which every call may fail, and in which anybody may rewrite a device between any two calls, unless it is mounted
read-only or the manager itself has set it read-only. What a write makes of a device's raw bytes is up to the system.

**Three smaller pieces.** The length-prefixed frame codec and the terminal loop that drains it (`Frame`, `MuxCodec`),
the deterministic ZIP writer with a reader written from the PKWARE APPNOTE (`Zip`, `ZipLimits`, `ZipWriter`), and the channel-backed
byte stream of the proxy (`ChannelStream`).

## A property that does not hold

"Every mounted overlay shows the tree of its own image" is false as the code stands, in two ways.

*Targets above the cache directory.* `validate_target` rejects targets at or below `/tmp/lsb/cache-images` and
`/mnt/.overlay`, but accepts `/tmp`, `/tmp/lsb` and `//`. An overlay mounted there hides the manager's mount directory,
and the next overlay takes its lower directory from whatever is found at that path. `CacheAlias.BindAfterCoverFails` is
the run at `/tmp`. `CacheCover.SecondOverlayIsRightIff` gives the exact condition: the later overlay, of the same image
or of another one, is right if and only if the earlier target is not on the way to the cache directory.

*Two spellings of one place.* The manager compares target strings, and unmounts by path. So `/a` and `/a/` are different
targets to it (`CacheCover.AliasedTargets`), but aborting the image bound first takes off the overlay of the image bound
last, answers Ready, and leaves its own overlay mounted over an image that is gone. `CacheAlias.AbortAfterAliasFails` is
the run at `/a` and `/a/`, `CacheAlias.AbortTakesTheWrongOverlay` the same for any two spellings.
`CacheAlias.AbortLeavesOverlaysRightIff` gives the exact condition on the two places, for any accepted targets: after
binding both and aborting the first, every mounted overlay is right if and only if the places differ and the first is
not above the cache directory; or they are the same place and it lies above the cache directory or the staging
directory, where the rollback fails before it removes the image.

What a caller can test is `CacheOverlayRuns.SafeTarget`: the target is not on the way to the cache directory, and no other
reserved target string names its place. In every run whose bindings are safe the property is proved in full
(`CacheOverlayRuns.OverlaysShowTheirImages`), with what the registry says about each overlay and the converse. A list of
requests is safe by itself if no target is above the cache directory and different target strings name different places
(`CacheOverlayRuns.PlainlySafeRunsAreSafe`). That a validated image itself stays mounted read-only with the expected key
needs no condition on requests.

A smaller one: a reader that takes a zero-byte read for the end of a `ChannelStream` loses data exactly when data
follows an empty chunk (`ChannelStream.ReaderGetsEverythingIff`).

## Model

| member | source | states |
|---|---|---|
| Frame.StreamRoundTrip | crates/lsb-proto/src/frame.rs:66-101 | Reading the concatenation of any written frames within the payload limit returns exactly those frames and then a clean end. |
| Frame.ReadThenWrite | crates/lsb-proto/src/frame.rs:66-101 | Whatever the reader accepts is what writing the message produces, followed by the unread rest: no message has two encodings. |
| Frame.ReadFrameSaysWhy | crates/lsb-proto/src/frame.rs:78-101 | A reader that stops reports the end of the stream, a frame cut short, or a length out of range exactly if less than a length field is left, if the stream is a proper beginning of some frame, or if it starts no frame at all. |
| Frame.ReadBackIffItFits | crates/lsb-proto/src/frame.rs:66-101 | A written frame is read back if and only if its payload is within the limit; an oversized one writes its length modulo 2^32. |
| Frame.TryParseAgreesWithReadFrame | crates/lsb-proto/src/frame.rs:78-125 | The peeking parser succeeds exactly when the blocking reader would, with the same message and the same length. |
| Frame.ByteSource.Next | crates/lsb-proto/src/frame.rs:78-101 | The reader's successive exact reads give the result of the frame grammar and leave the source after the frame. |
| Frame.DrainIgnoresChunking | crates/lsb-guest/src/main.rs:3914-3944 | However a stream is cut, draining after every chunk yields the same frames and leftover as draining it whole. |
| Frame.DrainMatchesReadAll | crates/lsb-guest/src/main.rs:3914-3944 | The drained frames are those a blocking reader gets, and re-encoding them in front of the leftover gives back the bytes. |
| Frame.TerminalIgnoresChunking | crates/lsb-guest/src/main.rs:3914-3944 | The effects of the terminal loop, typed bytes and window sizes in order, depend on the bytes received and not on the reads. |
| Frame.ResizeRoundTrip | crates/lsb-proto/src/frame.rs:128-143 | Parsing a built resize payload, whatever follows it, gives back its rows and columns. |
| Frame.EveryMessageIsAnInput | crates/lsb-guest/src/main.rs:3914-3944 | Every message is keystrokes, a window size, or one the terminal ignores. |
| Frame.TerminalShowsWhatWasSent | crates/lsb-guest/src/main.rs:3914-3944 | However the frames of any list of such inputs arrive, the terminal gets exactly the keystrokes and window sizes of the list, in order, and nothing is left over. |
| Frame.TerminalInput.Feed | crates/lsb-guest/src/main.rs:3914-3944 | One read drains the growing buffer in place and appends the effects of every complete frame, as the function does that TerminalShowsWhatWasSent is about. |
| MuxCodec.MuxRoundTrip | crates/lsb-proto/src/mux.rs:175-273 | Decoding an encoded, well-formed frame returns that frame. |
| MuxCodec.MuxCanonical | crates/lsb-proto/src/mux.rs:223-372 | Every accepted type and payload is the encoding of the frame it decodes to. |
| MuxCodec.DecodeGivesTheMeaning | crates/lsb-proto/src/mux.rs:223-372 | Every message that carries a session id is decoded, or refused with its error, by its type number, its id and its body alone. |
| MuxCodec.DecodeNeedsAnId | crates/lsb-proto/src/mux.rs:223-372 | A shorter message is refused for its type or its length. |
| MuxCodec.SenderRefusesWhatTheReceiverWould | crates/lsb-proto/src/mux.rs:175-372 | Encoding refuses exactly the frames decoding would refuse, with the same error. |
| MuxCodec.WireRoundTrip | crates/lsb-proto/src/mux.rs:175-273 | A sequence of well-formed mux frames sent over the framed stream is received as that sequence. |
| GuestMux.GuestMux.AcceptSession | crates/lsb-guest/src/main.rs:3001-3016 | The in-place section leaves the state and outcome of the specification, skipping ids without a session. |
| GuestMux.GuestMux.CloseSession | crates/lsb-guest/src/main.rs:3018-3037 | Dropping a handle marks the local end and schedules the FIN once. |
| GuestMux.GuestMux.FailWith | crates/lsb-guest/src/main.rs:3066-3077 | The first failure resets every session and empties the queues; later ones change nothing. |
| GuestMux.GuestMux.PruneDrained | crates/lsb-guest/src/main.rs:3079-3090 | Only a drained session is removed, from the map and from both queues. |
| GuestMux.GuestMux.Read | crates/lsb-guest/src/main.rs:3170-3222 | The first half of a read takes a prefix of the inbound bytes or reports failure, reset, end or waiting. |
| GuestMux.GuestMux.GrantCredit | crates/lsb-guest/src/main.rs:3223-3233 | The second half queues the credit once there is room. |
| GuestMux.GuestMux.WriteBytes | crates/lsb-guest/src/main.rs:3236-3299 | A write takes as much as chunk size, credit and queue space allow, and schedules the session. |
| GuestMux.GuestMux.FlushBytes | crates/lsb-guest/src/main.rs:3301-3324 | A flush is done, waits or fails as specified, and changes nothing. |
| GuestMux.GuestMux.IsRemoteClosed | crates/lsb-guest/src/main.rs:3143-3155 | Whether the host can no longer be heard on a session. |
| GuestMux.GuestMux.NextOutgoing | crates/lsb-guest/src/main.rs:3382-3425 | The writer's loop over the ready queue yields the specified frame and state. |
| GuestMux.GuestMux.HandleIncoming | crates/lsb-guest/src/main.rs:3427-3527 | Each frame kind changes its session as specified or is reported as a violation. |
| MuxInvariant.StepKeeps | crates/lsb-guest/src/main.rs:2948-3544 | Every critical section, arriving frame and failure keeps the invariant on sessions, queues and histories. |
| MuxInvariant.Reachable | crates/lsb-guest/src/main.rs:2948-3544 | The invariant holds after any run from the initial state. |
| MuxTheorems.FramesOfASessionAreOrdered | crates/lsb-guest/src/main.rs:3382-3466 | In every run the frames handed to the writer for one id are a prefix of (OpenErr, or OpenOk, Windows and Data, Fin) repeated, also when the id is reused. |
| MuxTheorems.EmittedFramesReachTheHost | crates/lsb-guest/src/main.rs:3360-3425 | Every emitted frame encodes, and the host's decoder reads back exactly the emitted sequence. |
| MuxTheorems.ReceiveCreditIsConserved | crates/lsb-guest/src/main.rs:3180-3229 | While not failed, credit granted less bytes received, plus unread bytes, plus bytes read and not yet returned as credit, is 256 KiB. |
| MuxTheorems.HostWithinCreditIsNotCutOff | crates/lsb-guest/src/main.rs:3456-3489 | A host that has sent no more than the credit emitted to it never meets the receive-credit failure. |
| MuxTheorems.SendSideIsConserved | crates/lsb-guest/src/main.rs:3246-3298 | Bytes accepted by writes are the bytes sent followed by those queued; sent, queued and remaining credit add up to the host's grants; the queue count is exact and bounded. |
| MuxTheorems.ReadyMeansWork | crates/lsb-guest/src/main.rs:3276-3292 | While not failed, an id is in the ready queue, once, if and only if its session is scheduled, if and only if it has data or an unsent FIN. |
| MuxTheorems.ControlQueueIsBounded | crates/lsb-guest/src/main.rs:3533-3544 | The control queue never exceeds 128 frames. |
| MuxTheorems.WriterNeverSkips | crates/lsb-guest/src/main.rs:3389-3421 | While not failed, the writer's missing-session and idle-session branches are never taken: the head of the ready queue always yields a frame. |
| MuxTheorems.FairnessBound | crates/lsb-guest/src/main.rs:3389-3421 | A session behind p others sends its next frame as the (p+1)-th data or FIN frame from now and not before, whatever else happens. |
| MuxTheorems.FailureSticks | crates/lsb-guest/src/main.rs:3066-3077 | After a failure the reason never changes and nothing more is emitted. |
| MuxTheorems.FailedStepIsSilent | crates/lsb-guest/src/main.rs:3427-3527 | In a failed state each step keeps the failure, emits nothing and hands out no session, although frames are still absorbed. |
| MuxTheorems.LiveHandleFindsItsSession | crates/lsb-guest/src/main.rs:3188-3191 | In every reachable state, failed or not, the operations of a live handle find its session. |
| MuxTheorems.PrunedOnlyWhenDone | crates/lsb-guest/src/main.rs:3079-3129 | A session leaves the map only after its handle was dropped, both FINs, and every byte read and sent. |
| MuxTheorems.ReadsReturnTheirCredit | crates/lsb-guest/src/main.rs:3197-3228 | Bytes taken by a read are returned as credit as soon as the control queue has room. |
| MuxOrder.SessionsAreAcceptedInOrder | crates/lsb-guest/src/main.rs:3001-3016 | Until a failure, the sessions handed out followed by those waiting are the sessions opened, in order. |
| MuxOrder.FlushedMeansSent | crates/lsb-guest/src/main.rs:3301-3325 | A flush that returns has seen every written byte handed to the writer. |
| MuxHistory.SessionsAreWhatTheLogSays | crates/lsb-guest/src/main.rs:2948-3544 | In every reachable state the open sessions are those opened and not yet finished by both sides and read to the end; a session has the host's FIN exactly if one arrived since its opening, its own exactly if it was emitted since, and its queue holds the chunks taken and not yet shipped; until a failure it is closed exactly if its handle was dropped, and reset as the last Rst says. |
| MuxAnswers.ReadsFollowTheLog | crates/lsb-guest/src/main.rs:3170-3233 | A read on a live handle answers with the last reset since the opening, else with the first bytes received and not taken, else the end exactly if a FIN has arrived, else it waits. |
| MuxAnswers.WritesFollowTheLog | crates/lsb-guest/src/main.rs:3236-3299 | A write fails exactly after a reset or the host's FIN, and otherwise takes the least of its length, 64 KiB, the unused credit and the room in 256 KiB of unsent bytes; it waits exactly if that is nothing. |
| MuxAnswers.FlushesFollowTheLog | crates/lsb-guest/src/main.rs:3301-3324 | A flush returns exactly if everything written has been sent, unless the session was reset. |
| MuxAnswers.RemoteClosedFollowsTheLog | crates/lsb-guest/src/main.rs:3143-3155 | The host counts as gone on a live handle exactly after its FIN or Rst. |
| MuxAnswers.AcceptsFollowTheLog | crates/lsb-guest/src/main.rs:3001-3016 | The session opened first and not yet handed out is handed out; the caller waits exactly if there is none. |
| MuxAnswers.ControlFramesAreSentInOrder | crates/lsb-guest/src/main.rs:3382-3466 | Every opening is answered and every read returns its credit: the control frames sent, then those waiting, are those that became due, in order. |
| MuxAnswers.ArrivalsFollowTheLog | crates/lsb-guest/src/main.rs:3427-3531 | Which violation an arriving frame is, if any, follows from the history; a frame that is none opens a session exactly if it asks for "exec", "watch" or "file". |
| MuxAnswers.WriterFollowsTheLog | crates/lsb-guest/src/main.rs:3382-3425 | The writer sends the control frame due first, else the next chunk or the FIN of the session at the head of the ready queue, and waits exactly if no session has either. |
| MuxAnswers.FailingResetsEverything | crates/lsb-guest/src/main.rs:3066-3077 | The first failure empties the queues and resets every session with its reason, and leaves room for the credit of every read that has taken bytes. |
| MuxAnswers.FailureAnswers | crates/lsb-guest/src/main.rs:2948-3425 | After a failure every operation answers with the first reason given. |
| Snapshot.StreamRoundTrip | crates/lsb-proto/src/mount_cache.rs:84-182 | An independent decoder recovers the exact record list from the bytes fed to the hasher. |
| Snapshot.StreamInjective | crates/lsb-proto/src/mount_cache.rs:84-182 | Two valid record lists with the same stream are the same list. |
| Snapshot.FinishedStreamDecodes | crates/lsb-proto/src/mount_cache.rs:95-163 | After any calls, accepted or refused, finishing succeeds exactly at a record boundary, and the stream decodes to what the accepted calls described. |
| Snapshot.RefusedCallChangesNothing | crates/lsb-proto/src/mount_cache.rs:95-146 | A refused call leaves the fed bytes and the remaining count as they were. |
| Snapshot.CallsAreJudgedByTheDraft | crates/lsb-proto/src/mount_cache.rs:95-146 | After any calls, the next one is accepted or refused, with its error, by the records described so far and the file being written. |
| Snapshot.ChunkingDoesNotMatter | crates/lsb-proto/src/mount_cache.rs:122-135 | Any cutting of a file's bytes into writes leaves the encoder in the same state. |
| Snapshot.KeyEncoder.AddDirectory | crates/lsb-proto/src/mount_cache.rs:95-103 | The object's call does what the call specification says, field by field. |
| Snapshot.KeyEncoder.BeginFile | crates/lsb-proto/src/mount_cache.rs:105-120 | Opens a file record with its length, or refuses without effect. |
| Snapshot.KeyEncoder.WriteFileBytes | crates/lsb-proto/src/mount_cache.rs:122-135 | Feeds content up to the declared length, or refuses without effect. |
| Snapshot.KeyEncoder.CloseFile | crates/lsb-proto/src/mount_cache.rs:137-146 | Closes only a complete file record. |
| Snapshot.KeyEncoder.EncodeRecordPrefix | crates/lsb-proto/src/mount_cache.rs:166-182 | Feeds type, length, path and mode of an acceptable path, and nothing otherwise. |
| Paths.RenderAccepted | crates/lsb-proto/src/mount_cache.rs:184-204 | Among paths made of file names the encoder accepts exactly those without a backslash in any component. |
| Paths.RecordPathsAreLocations | crates/lsb-proto/src/mount_cache.rs:184-204 | A record path is accepted exactly if it is empty or spells a location of proper names without backslashes. |
| SourceTree.DirectoryFacts | crates/lsb-guest/src/mount_cache_runtime.rs:988-1059 | The walk below a directory succeeds exactly if everything there is representable, and visits each entry once, parents first. |
| SourceTree.WalkVisitsEverything | crates/lsb-guest/src/mount_cache_runtime.rs:976-1059 | The walk of a tree succeeds if and only if the tree is normalised; it then records every entry once, root first, with acceptable records. |
| WalkOrder.NormalisedMeans | crates/lsb-guest/src/mount_cache_runtime.rs:1003-1058 | The trees whose walk succeeds, entry by entry: UTF-8 names without backslashes, directories of mode 755, single-link files of mode 644. |
| WalkOrder.WalkIsInOrder | crates/lsb-guest/src/mount_cache_runtime.rs:988-1059 | Entries are recorded in the order of their component lists, names compared byte by byte. |
| WalkOrder.IncreasingIsUnique | crates/lsb-guest/src/mount_cache_runtime.rs:988-1059 | There is only one such order of the same entries. |
| WalkOrder.WalkStopsForAReason | crates/lsb-guest/src/mount_cache_runtime.rs:988-1131 | A walk that stops names something that is wrong with some entry or listing of the tree. |
| SourceTree.ListingOrderIsIrrelevant | crates/lsb-guest/src/mount_cache_runtime.rs:1075-1131 | The result of the walk does not depend on the order in which directories are listed. |
| SourceTree.StreamDeterminesTree | crates/lsb-guest/src/mount_cache_runtime.rs:976-1059 | Two normalised trees feed the encoder the same bytes if and only if they are the same tree. |
| TreeHash.HexInjective | crates/lsb-proto/src/mount_cache.rs:24-27 | Different digests have different hexadecimal spellings. |
| TreeHash.HexReadsBack | crates/lsb-proto/src/mount_cache.rs:24-27 | The two digits at each position, read as a hexadecimal number, are the byte at that position. |
| TreeHash.KeySpellsTheDigest | crates/lsb-proto/src/mount_cache.rs:24-27 | A tree's key is 64 lower-case digits that spell the digest of its stream, byte by byte. |
| TreeHash.KeyDeterminesTree | crates/lsb-guest/src/mount_cache_runtime.rs:976-986 | Trees with equal keys are equal, or their streams are a collision of the hash. |
| TreeHash.KeyIgnoresListing | crates/lsb-guest/src/mount_cache_runtime.rs:976-986 | The key does not depend on listing order. |
| TreeHash.HashFile | crates/lsb-guest/src/mount_cache_runtime.rs:1021-1049 | Reading a file in 512 KiB pieces feeds exactly its record. |
| TreeHash.HashEntry | crates/lsb-guest/src/mount_cache_runtime.rs:996-1050 | One directory entry, with everything below it, is refused or fed as the walk says. |
| TreeHash.HashDirectory | crates/lsb-guest/src/mount_cache_runtime.rs:988-1059 | The recursive loops feed exactly the records of the walk, or stop exactly when the walk does. |
| TreeHash.HashSourceTree | crates/lsb-guest/src/mount_cache_runtime.rs:976-986 | The key computed by the loops is the key of the tree, or a refusal. |
| CacheProtocol.ImportPathsAreLocations | crates/lsb-proto/src/lib.rs:639-656 | Import paths are exactly the spellings of locations below the root whose names are portable. |
| CacheProtocol.ValidateBatch | crates/lsb-proto/src/lib.rs:462-507 | The loop accepts exactly the batches of 1 to 4096 valid entries whose lengths add up to the declared data; its running sum cannot overflow. |
| CacheProtocol.NamesAreSpelled | crates/lsb-proto/src/lib.rs:604-627 | Which strings are digests and which are tokens, by their characters. |
| CacheProtocol.RequestsAreAccepted | crates/lsb-proto/src/lib.rs:426-526 | Which requests are accepted, field by field with their limits. |
| CacheProtocol.ValidForExactly | crates/lsb-proto/src/lib.rs:528-602 | An answer is valid for a request exactly if it is the one Ready form for it, or a rejection of the same action and image. |
| Import.SourceDirectory.CreateDir | crates/lsb-guest/src/mount_cache_runtime.rs:504-520 | Creates a directory under an existing one, or fails leaving at most an unfinished one. |
| Import.SourceDirectory.WriteFile | crates/lsb-guest/src/mount_cache_runtime.rs:521-562 | Creates or continues a single-link file at exactly its end, with any partial write on failure. |
| Import.SourceDirectory.ApplyImportBatch | crates/lsb-guest/src/mount_cache_runtime.rs:509-572 | The loop applies the entries in order and stops at the first failure, as specified. |
| Import.EntryDoesWhatItAsks | crates/lsb-guest/src/mount_cache_runtime.rs:509-572 | Without system failures an entry makes exactly the tree it asks for, or breaks off for the stated reason where that cannot be had. |
| Import.EntryFailsHalfway | crates/lsb-guest/src/mount_cache_runtime.rs:509-572 | A failure halfway leaves the new directory or file with some mode and at most a prefix of the chunk. |
| Import.SuccessUsesAllData | crates/lsb-guest/src/mount_cache_runtime.rs:509-572 | A batch that succeeds has used all its data. |
| Import.ValidBatchUsesItsData | crates/lsb-guest/src/mount_cache_runtime.rs:509-572 | For a validated batch the data cursor never overruns and ends exactly at the end; the data errors cannot occur. |
| Import.ImportOnlyAdds | crates/lsb-guest/src/mount_cache_runtime.rs:509-572 | Whatever the entries and failures, nothing is removed or retyped, and every earlier file content stays a prefix. |
| Import.ImportKeepsWellFormed | crates/lsb-guest/src/mount_cache_runtime.rs:509-572 | Validated entries leave a well-formed tree, also when the system fails halfway. |
| ImportRoundTrip.ImportRebuildsTheTree | crates/lsb-guest/src/mount_cache_runtime.rs:509-572 | Any parents-first listing of a tree, cut into chunks and valid batches in any way, rebuilds exactly that tree. |
| ImportRoundTrip.SealedKeyIsTheHostKey | crates/lsb-guest/src/mount_cache_runtime.rs:976-1059 | The key of the rebuilt tree is the key of the host's own walk. |
| ImportRoundTrip.WalkIsAListing | crates/lsb-vm/src/sandbox.rs:4117-4196 | The order of the encoder's walk is such a listing, however each file is cut. |
| CacheKernel.Discover | crates/lsb-guest/src/mount_cache_runtime.rs:801-874 | A device is used only with the exact serial, size and mode, if it is a virtio block device, not the root and not mounted. |
| CacheAnswers.DiscoveryNamesTheCause | crates/lsb-guest/src/mount_cache_runtime.rs:801-874 | Each reason for finding no device is given exactly when that check fails and those before it pass. |
| CacheAnswers.NoDeviceNoChange | crates/lsb-guest/src/mount_cache_runtime.rs:137-230 | A preparation that finds no device is rejected with that reason and changes nothing. |
| CacheService.MountCacheManager.PrepareBuild | crates/lsb-guest/src/mount_cache_runtime.rs:137-199 | The in-place method leaves the registry, kernel and reply of the specification on every branch. |
| CacheService.MountCacheManager.PrepareHit | crates/lsb-guest/src/mount_cache_runtime.rs:201-293 | Likewise for a cache hit, with its rollback branches. |
| CacheService.MountCacheManager.RollbackUntrackedMount | crates/lsb-guest/src/mount_cache_runtime.rs:426-430 | Takes an untracked mount down before rejecting, or reports the failure. |
| CacheService.MountCacheManager.ImportBatch | crates/lsb-guest/src/mount_cache_runtime.rs:101-135 | Imports only into a tracked image that is being built, and rolls it back on failure. |
| CacheService.MountCacheManager.SealBuild | crates/lsb-guest/src/mount_cache_runtime.rs:295-337 | Hashes, writes the sentinel, syncs and unmounts, with every failure branch. |
| CacheService.MountCacheManager.Remount | crates/lsb-guest/src/mount_cache_runtime.rs:338-368 | Freezes, remounts read-only and hashes again before the image becomes valid. |
| CacheService.MountCacheManager.HashRawDevice | crates/lsb-guest/src/mount_cache_runtime.rs:962-974 | Reading the device in 512 KiB pieces hashes exactly its first bytes up to the expected size. |
| CacheService.MountCacheManager.MountOverlay | crates/lsb-guest/src/mount_cache_runtime.rs:370-419 | Reserves binding and target only after the overlay is mounted, and rolls the image back otherwise. |
| CacheService.MountCacheManager.RollbackImage | crates/lsb-guest/src/mount_cache_runtime.rs:432-465 | The loop takes overlays down last to first, releases their names, then the image; it stops at the first failing call. |
| CacheService.MountCacheManager.Handle | crates/lsb-guest/src/mount_cache_runtime.rs:66-99 | Validates and dispatches every request as specified. |
| CacheInvariant.HandleKeepsInv | crates/lsb-guest/src/mount_cache_runtime.rs:66-465 | Every request, under any behaviour of the system calls, keeps validated images frozen with their key and leaves other images' frozen mounts alone. |
| CacheInvariant.HashReadsTheNewMount | crates/lsb-guest/src/mount_cache_runtime.rs:342-349 | Hashing right after mounting reads the device just mounted. |
| CacheRegistry.HandleExplains | crates/lsb-guest/src/mount_cache_runtime.rs:66-488 | Every request changes the registry in one of five ways, each with its reply; rejections and incomplete rollbacks are accounted for. |
| CacheRuns.ValidatedMeansFrozenWithKey | crates/lsb-guest/src/mount_cache_runtime.rs:201-368 | In every run, phase Validated means mounted read-only at the image's directory with a tree whose key is the expected key. |
| CacheRuns.KeyedDeviceHoldsTheHostTree | crates/lsb-guest/src/mount_cache_runtime.rs:254-276 | A device tree with the host's key is the host's tree, or a hash collision. |
| CacheRuns.ValidatedUntilForgotten | crates/lsb-guest/src/mount_cache_runtime.rs:295-419 | A validated image stays the same validated image, never building again, as long as it is tracked. |
| CacheRuns.RegistryHolds | crates/lsb-guest/src/mount_cache_runtime.rs:370-465 | In every run live overlays have pairwise distinct bindings and targets, all reserved. |
| CacheRuns.RegistryIsExact | crates/lsb-guest/src/mount_cache_runtime.rs:370-465 | If no rollback of an image has failed, nothing else is reserved. |
| CacheRuns.RejectionReleases | crates/lsb-guest/src/mount_cache_runtime.rs:101-465 | A Rejected response leaves its image untracked with all its bindings and targets released. |
| CacheRuns.AnswersAreValid | crates/lsb-proto/src/lib.rs:528-602 | Every answer passes the response validation for its request, so the internal-response error is unreachable. |
| CacheDigest.SealAnswersTheDigest | crates/lsb-guest/src/mount_cache_runtime.rs:295-368 | Whatever the system does, a seal answered Ready carries the key of the tree and the spelled digest of the raw device that it leaves read-only and mounted. |
| CacheDigest.SealedDigestHolds | crates/lsb-guest/src/mount_cache_runtime.rs:295-368 | In every run that key and digest stay those of the image's device for as long as the image is tracked. |
| CacheAnswers.RequestsAreTurnedAway | crates/lsb-guest/src/mount_cache_runtime.rs:66-135 | A request that cannot be served in a state is told why and changes nothing; every other failure is the system's. |
| CacheAnswers.HitIsJudgedByItsContent | crates/lsb-guest/src/mount_cache_runtime.rs:201-293 | With nobody interfering a hit is accepted exactly if sentinel and tree have the expected key; otherwise it is rejected for its first flaw and everything is as it was. |
| CacheAnswers.HitWhenOneCallFails | crates/lsb-guest/src/mount_cache_runtime.rs:201-293 | What a hit answers when one call fails, with everything as it was. |
| CacheAnswers.HitLeftMounted | crates/lsb-guest/src/mount_cache_runtime.rs:426-430 | A rejected hit that cannot be taken down is reported as such. |
| CacheAnswers.BuildWhenOneCallFails | crates/lsb-guest/src/mount_cache_runtime.rs:137-199 | What a build answers when one call fails, with nothing left mounted or tracked. |
| CacheAnswers.BadBatchForgetsTheImage | crates/lsb-guest/src/mount_cache_runtime.rs:101-135 | A batch that cannot be imported is rejected and the image with it. |
| CacheAnswers.SealIsJudgedByTheTree | crates/lsb-guest/src/mount_cache_runtime.rs:295-337 | Sealing a tree without the key is rejected as unreadable or as a mismatch, and forgets the image. |
| CacheAnswers.SealWhenOneCallFails | crates/lsb-guest/src/mount_cache_runtime.rs:295-368 | When one call of a seal fails only an unreadable tree is a rejection; otherwise the image stays in building. |
| CacheAnswers.AbortWhenOneCallFails | crates/lsb-guest/src/mount_cache_runtime.rs:421-465 | An abort that cannot take the image down says so and forgets it all the same. |
| CacheAnswers.OverlayWhenOneCallFails | crates/lsb-guest/src/mount_cache_runtime.rs:387-399 | When one call of mounting an overlay fails it is rejected and the image forgotten; only a failure to create the upper directories leaves a mount behind. |
| CacheOverlays.LowerIsRightUnlessCovered | crates/lsb-guest/src/mount_cache_runtime.rs:387-390 | An overlay gets its image's tree exactly when nothing has been mounted on the way to it since the image. |
| CacheOverlayRuns.ServeKeepsOverlayInv | crates/lsb-guest/src/mount_cache_runtime.rs:66-465 | Every request, unless it binds an overlay above the cache directory or at the place of another reserved target, keeps the invariant on overlays, their owners, their registrations and their lower directories. |
| CacheOverlayRuns.OverlaysShowTheirImages | crates/lsb-guest/src/mount_cache_runtime.rs:370-465 | In every run whose bindings are safe in that sense, every mounted overlay has as lower directory the tree of its image's read-only device, with the image's key. |
| CacheOverlayRuns.OverlaysBelongToValidatedImages | crates/lsb-guest/src/mount_cache_runtime.rs:370-465 | In such a run a mounted overlay of a tracked image lies on a validated image, on that image's device, with its key, at a registered target; and unless a rollback has failed every mounted overlay's image is tracked. |
| CacheOverlayRuns.RegisteredOverlaysAreMounted | crates/lsb-guest/src/mount_cache_runtime.rs:396-409 | In such a run every registered overlay is mounted at its target and shows its image. |
| CacheOverlayRuns.PlainlySafeRunsAreSafe | crates/lsb-guest/src/mount_cache_runtime.rs:382-385 | A run is safe if none of its accepted targets is above the cache directory and different target strings name different places. |
| CacheSound.RunSound | crates/lsb-guest/src/mount_cache_runtime.rs:66-465 | From devices that hold well-formed trees, and with a world that only puts well-formed trees on devices, every run leaves well-formed trees on all devices. |
| CacheSound.OverlaysShowTheHostTree | crates/lsb-guest/src/mount_cache_runtime.rs:201-419 | In every safe run over such devices a mounted overlay shows the tree the host hashed for its key, or the two trees are a hash collision. |
| CacheOverlays.AcceptedTargetsAreLocations | crates/lsb-guest/src/mount_cache_runtime.rs:574-589 | An accepted target names a place without steps up, outside the manager's own directories. |
| CacheCover.TargetsAccepted | crates/lsb-guest/src/mount_cache_runtime.rs:574-589 | Whatever components an absolute target has, it is accepted exactly if it is more than a slash, takes no step up and does not lead to or below the manager's two directories. |
| CacheCover.SecondOverlayIsRightIff | crates/lsb-guest/src/mount_cache_runtime.rs:370-419 | With accepted targets on any two validated images, or twice on one, the second overlay shows its image's tree if and only if the first target is not on the way to the cache directory. |
| CacheCover.TmpIsAcceptedAndCovers | crates/lsb-guest/src/mount_cache_runtime.rs:574-589 | `/tmp` is accepted as a target and hides the cache directory. |
| CacheCover.AliasedTargets | crates/lsb-guest/src/mount_cache_runtime.rs:382-385 | A trailing slash gives a different string for the same place, and both are accepted. |
| CacheAlias.AbortLeavesOverlaysRightIff | crates/lsb-guest/src/mount_cache_runtime.rs:370-465 | Two validated images get an overlay each on any accepted targets and the first, which had none before, is aborted: every mounted overlay shows its image if and only if the two places are compatible, a condition on the places alone. |
| CacheAlias.AbortTakesTheWrongOverlay | crates/lsb-guest/src/mount_cache_runtime.rs:432-465 | For two spellings of one place that abort answers Ready, leaves the aborted image's overlay mounted without its image, and takes off the other image's overlay, which stays registered. |
| CacheAlias.AbortAfterAliasFails | crates/lsb-guest/src/mount_cache_runtime.rs:382-465 | The whole run at `/a` and `/a/`: two hits, two bindings and an abort, all answered Ready, end with a wrong overlay and a registered one that is not mounted. |
| CacheAlias.BindAfterCoverFails | crates/lsb-guest/src/mount_cache_runtime.rs:370-419 | The whole run at `/tmp`: two hits and bindings at `/tmp` and `/a`, all answered Ready, end with a wrong overlay at `/a`. |
| CachePipeline.PreparedBuild | crates/lsb-guest/src/mount_cache_runtime.rs:137-199 | In an undisturbed system preparing a build leaves an empty source mounted for writing. |
| CachePipeline.SealedBuild | crates/lsb-guest/src/mount_cache_runtime.rs:295-368 | Sealing a tree with its key leaves it frozen, marked and validated, and answers with the key and the device's digest. |
| CachePipeline.SentinelRoundTrip | crates/lsb-guest/src/mount_cache_runtime.rs:903-939 | Reading back a written sentinel gives the key. |
| CachePipeline.SentinelExactly | crates/lsb-guest/src/mount_cache_runtime.rs:903-939 | A sentinel is read as a key exactly if it is the two lines with that key, in at most 256 bytes of UTF-8. |
| CachePipeline.HitAfterBuild | crates/lsb-guest/src/mount_cache_runtime.rs:201-293 | The image a build leaves is accepted by a later hit with the same key. |
| CachePipeline.BuildPublishesTheTree | crates/lsb-guest/src/mount_cache_runtime.rs:66-368 | Preparing, importing any chunking and batching of a listing, and sealing answers Ready throughout and leaves the image validated with exactly that tree. |
| CacheUndo.AcceptedHit | crates/lsb-guest/src/mount_cache_runtime.rs:201-293 | A hit answered Ready, whatever the system did, is on a read-only device with the requested serial and size, mounted read-only, whose sentinel and tree key are the expected key. |
| CacheUndo.AbortUndoes | crates/lsb-guest/src/mount_cache_runtime.rs:421-465 | Aborting the image mounted last takes its overlays down in reverse, however nested, then the image, and leaves no trace in table or registry. |
| CacheUndo.HitBindAbortIsIdentity | crates/lsb-guest/src/mount_cache_runtime.rs:201-465 | In an undisturbed system a hit, any overlays bound on it and an abort leave devices, mounts and registry exactly as they were. |
| Zip.FieldsRoundTrip | xtask/src/seawork_release.rs:857-865 | Little-endian fields written one after the other are read back in order. |
| Zip.OffsetsAreLengths | xtask/src/seawork_release.rs:758-761 | The recorded header offset of an entry is the length of everything written before it. |
| Zip.ArchiveReadBack | xtask/src/seawork_release.rs:749-855 | A reader following sections 4.3.16, 4.3.12, 4.3.7 and 4.3.9 of the PKWARE APPNOTE recovers names, checksums, sizes and compressed bytes. |
| Zip.MembersTile | xtask/src/seawork_release.rs:749-812 | The members occupy consecutive, non-empty extents from the start to the central directory. |
| Zip.ZipRoundTrip | xtask/src/seawork_release.rs:728-855 | Whatever the writer accepts is read back as the same entries in name order. |
| Zip.ZipIsDeterministic | xtask/src/seawork_release.rs:728-748 | Any permutation of distinctly named entries gives the same bytes or the same failure. |
| ZipLimits.ArchiveNames | xtask/src/seawork_release.rs:1105-1130 | Which names can be archived, by their segments. |
| ZipLimits.ZipIsWrittenExactly | xtask/src/seawork_release.rs:728-855 | An archive is written exactly if there are 1 to 65535 files with such names, each fits its fields, and the two parts stay below 4 GiB, in whatever order the files come. |
| ZipWriter.WriteEntry | xtask/src/seawork_release.rs:753-811 | One entry is written as header, data and descriptor, or refused exactly if its name or sizes do not fit. |
| ZipWriter.WriteBlocks | xtask/src/seawork_release.rs:749-812 | The loop writes every entry and collects the central records, or fails exactly when one cannot be written. |
| ZipWriter.WriteCentral | xtask/src/seawork_release.rs:813-836 | The second loop writes the central directory. |
| ZipWriter.WriteDeterministicZip | xtask/src/seawork_release.rs:728-855 | The whole writer produces the specified archive, or fails exactly when a count, size or offset does not fit. |
| ChannelStream.Stream.Prepend | crates/lsb-proxy/src/stream.rs:38-49 | Puts data in front of the unread part of the buffer. |
| ChannelStream.Stream.Read | crates/lsb-proxy/src/stream.rs:52-84 | Drains the buffer before the channel, keeping what does not fit. |
| ChannelStream.PrependGoesFirst | crates/lsb-proxy/src/stream.rs:38-49 | Prepended data is in front of everything undelivered. |
| ChannelStream.ReadTakesAPrefix | crates/lsb-proxy/src/stream.rs:52-84 | A read returns a prefix of the undelivered stream and leaves the rest; it waits only when there is none. |
| ChannelStream.ReadTakesWhatItCan | crates/lsb-proxy/src/stream.rs:52-84 | A read waits exactly on an open, empty stream, and otherwise takes as much of the current chunk as there is space for. |
| ChannelStream.EmptyReadMeans | crates/lsb-proxy/src/stream.rs:67-82 | With space to fill, a read returns nothing exactly at the end of the stream or on an empty chunk. |
| ChannelStream.PutBack | crates/lsb-proxy/src/stream.rs:38-84 | Prepending what was just read restores the stream. |
| ChannelStream.StreamIsAQueue | crates/lsb-proxy/src/stream.rs:38-84 | Under any interleaving of arrivals, closing, prepends and reads the stream delivers what a plain byte queue would. |
| ChannelStream.BytesAreConserved | crates/lsb-proxy/src/stream.rs:52-84 | Without prepends, delivered and undelivered bytes are those that were there and arrived, in order. |
| ChannelStream.ReaderGetsEverythingIff | crates/lsb-proxy/src/stream.rs:70-80 | A reader that stops at a zero-byte read gets everything if and only if no data follows an empty chunk. |

## Left out

- The host side of the multiplexer: hosts appear as arbitrary arriving frames.
- Threads and condition variables: a section that would wait is a step that changes nothing, and lock poisoning is not modelled.
- BLAKE3, CRC-32 and DEFLATE: arbitrary functions; streaming them over read buffers is modelled as applying them to the whole content.
- JSON encoding of requests and responses: requests and responses are decoded values.
- TreeHash.HashFile: hashes a file that does not change; the size and identity comparisons that refuse one changing under the reader are not modelled.
- TreeHash.HashEntry: an entry keeps its kind and identity between the status call and opening; the refusal of one that was replaced is not modelled.
- TreeHash.HashDirectory: a directory is listed once; the second listing that refuses a change in between is not modelled.
- TreeHash.HashSourceTree: the walk reads one tree, so the refusals of a tree that changes during the walk are not modelled.
- Symbolic links: an entry that is neither a directory nor a regular file is one kind, and paths are not resolved through links.
- Mounts made by anyone but the cache manager after the start: the mount table changes only through its calls, from an initial table without overlays.
- The file system beside the cache images: plain directories are created and removed by calls that succeed or fail without further effect.
- Where a file system puts its data: the raw bytes of a device after a write are arbitrary, and never-written ones are zero.
- Device discovery from sysfs and the formatter process: reduced to the facts they report and whether they succeed; the inode count is passed on unused.
- Formatting and mounting diagnostics, timeouts and log messages.
- The host's snapshot walk on Windows and its batching limits: any parents-first listing and any division into valid batches is covered instead.
- Building the list of files for an archive, its case-insensitive collision test, and the temporary file: the writer starts from names and contents.
- Writing and shutting down a `ChannelStream`: they only forward a command.
- Everything else in the repository: command-line handling, networking, process execution, file watching, release evidence and language bindings.
