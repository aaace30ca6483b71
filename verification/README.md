# R1DB in Dafny

A model of the parts of R1DB that keep state, merge, encode or check something, with proofs of
what they promise. R1DB packages the CockroachDB engine; the model covers code of its command
line, its blob service, its base package and Ratio1's release scripts.

| files | what they model |
|---|---|
| `TunnelModel`, `TunnelNames`, `TunnelProtocol`, `TunnelWorld`, `TunnelRecovery`, `TunnelDiscovery` | The ephemeral tunnels of a release test: the remote account, the state file and the process as one world in which every call may fail after taking effect and the process may be killed between any two steps |
| `LogMerge`, `FileStream`, `LogWriter` | `debug merge-logs`: the heap of log streams, the file stream with its seek, its window and its reopening, the lookahead buffer, and the three goroutines that render and write |
| `Blobs` | Chunked blob streaming in both directions and the publication of an uploaded file |
| `Decommission` | The driver of `node decommission` as a trace of requests |
| `PebbleOptions`, `StoreSpec`, `StoreSpecRoundTrip` | Parser and printer of the `--store` flag |
| `SbomRelease`, `Sbom`, `SbomRerun`, `SbomSettles`, `SbomForecast`, `SbomTheorem`, `SbomRun` | The SPDX half of the SBOM augmentation |
| `CycloneDx`, `CycloneDeps`, `CycloneParts`, `CycloneSettles`, `CycloneFiles`, `CycloneRefs`, `CycloneTheorem`, `CycloneRun` | Its CycloneDX half |
| `GoComments`, `GoReading`, `GoProjection` | The Go comment stripper behind the provenance check, what a source text says, and when the comments-only projection keeps it |
| `Codecs` | The undoing of a byte-wise UTF-8 encoding and the COPY text escaper |
| `RaftScan`, `RecoveryDiff` | The raft-state scan of a store and the status report of a quorum recovery |
| `Common`, `Text`, `Sorting`, `Dictionary` | Options, ASCII text, splitting and joining, a stable sort, counting, and dictionaries of positions |

The main results are statements over every run: after any kill, any number of disturbed cleanups
and one undisturbed cleanup nothing the run made is left in the remote account
(`TunnelRecovery.AllocateThenRecover`, `TunnelDiscovery.AllocateThenRecoverByPrefix`); the merge is a sorted exact interleaving
(`LogMerge.Merge`, `FileStream.MergeFiles`); every schedule of the writer conserves the text
(`LogWriter.OutputCorrect`); on one file system a file is published completely or not at all
(`Blobs.BlobStore.PutStream`);
no node is marked decommissioned before it is quiet and drained (`Decommission.Decommission`); an
accepted store specification survives printing and parsing exactly under a stated condition
(`StoreSpecRoundTrip.RoundTrip`); augmenting an SBOM twice is augmenting it once under an exact
condition on the document, in both formats (`SbomTheorem.SecondRunExact`,
`CycloneTheorem.SecondRunExact`); the comments-only projection keeps what a source text says under an
exact condition (`GoProjection.ProjectionExact`).

Calls to the network, the file system, SQL and subprocesses are nondeterministic steps with a stated
effect. Random name suffixes, clocks, digests, number formats, percent-encoding and the Pebble
OPTIONS parser are parameters. Goroutines are actions of a transition system.

Where a promise does not hold for the code, the code is modelled as it is, and the exact condition
is proved:

- A file stream that is peeked, closed and reopened repeats an entry from before the epoch and loses
  a blank first entry (`FileStream.ReopenRepeats`, `FileStream.ReopenExact`).
- A cleanup that knows a tunnel by its generated name alone also removes an older tunnel of that name
  (`TunnelModel.OldTunnelLost`, `TunnelModel.NameReused`).
- The pebble tokeniser never ends on an opening bracket behind the last closing one, and on
  whitespace outside brackets that starts with a rune of several bytes (`PebbleOptions.HangsOn`).
- `StoreSpec.String` is documented as fully parsable, but it does not print RocksDB options, a zero
  ballast, a negative bandwidth or a newline between brackets (`StoreSpecRoundTrip.RoundTrip`).
- A second SPDX run is not always the identity: a source file whose inventory path is not its own
  source path is added again, an upper-case hash or a component named like the application stops it,
  and of two files at one runtime path it links the other one (`SbomTheorem.SecondRunExact`, with
  `SbomTheorem.LostPath`, `SbomTheorem.UpperCaseHash`, `SbomTheorem.RivalComponent` and
  `SbomTheorem.RuntimeFileChanges`).
- A second CycloneDX run exits when the first one hands out a reference that is in use or hands one
  out twice, and on the same hashes and components (`CycloneTheorem.SecondRunExact`,
  `CycloneRefs.FreshExact`, `CycloneTheorem.TakenReference`).
- The raft scan takes a first index of 0 for "no entry yet" (`RaftScan.IndexZeroHidesGap`,
  `RaftScan.GapSeenExact`).
- `streamContent` drops an error that comes together with data unless the reader repeats it
  (`Blobs.TransientErrorDropped`, `Blobs.FirstErrorReturned`).
- Files that differ by more than comments can pass as "comments only": the projection drops blank
  lines inside literals, turns carriage returns inside them into newlines, and joins characters of
  code that only a comment separates (`GoProjection.ProjectionExact`, with
  `GoProjection.LiteralsConfused`, `GoProjection.CommentGlues` and `GoProjection.ReturnGlued`).
- A published file can be incomplete when the temporary file and the destination are on different
  file systems (`Blobs.MoveExact`).
- The replica tally is a 64-bit sum (`Decommission.QuietCanOverflow`, `Decommission.QuietIsEmpty`).
- A recovery plan that only renews leaseholders is not awaited
  (`RecoveryDiff.LeaseholderPlanNotAwaited`, `RecoveryDiff.AppliedUnlessWaiting`).

`dafny verify dfyconfig.toml` checks the whole project.

## Model

| member | source | states |
|---|---|---|
| `TunnelModel.ContentInjective` | scripts/cloudflare_ephemeral_tunnels.py:97-111 | Two tunnel ids never share a CNAME target, so a DNS record identifies its tunnel. |
| `TunnelModel.EffectRetry` | scripts/cloudflare_ephemeral_tunnels.py:209-218 | A failed attempt followed by another attempt has an effect that a single attempt could have had, so retrying adds no new outcomes. |
| `TunnelModel.ShrinksTransitive` | scripts/cloudflare_ephemeral_tunnels.py:221-256 | Removals driven by one list compose: over any sequence of partly failing cleanups the remaining resources only shrink, and only resources the list names go. |
| `TunnelModel.ShrinksKeepsTracked` | scripts/cloudflare_ephemeral_tunnels.py:221-256 | A removal driven by anybody's list keeps every remaining new resource named. |
| `TunnelModel.TrackedCleanIsGone` | scripts/cloudflare_ephemeral_tunnels.py:221-256 | If a list names every new resource and nothing it names is left, no new tunnel and no new record is left. |
| `TunnelModel.ShrinkSparesForeign` | scripts/cloudflare_ephemeral_tunnels.py:221-256 | A cleanup removes no record and no tunnel that existed before the ids in its list were issued, except tunnels that carry one of the list's names. |
| `TunnelModel.OldTunnelLost` | scripts/cloudflare_ephemeral_tunnels.py:221-256 | A cleanup that leaves nothing of its list loses a tunnel that was there before if and only if an entry without an id carries its name. |
| `TunnelModel.NameReused` | scripts/cloudflare_ephemeral_tunnels.py:221-256 | An account with one older tunnel and a list that plans its name without an id: every cleanup that leaves nothing of the list removes that tunnel. |
| `TunnelProtocol.ViewTracks` | scripts/cloudflare_ephemeral_tunnels.py:259-298 | Every list that lags behind the run in the ways the order of its steps allows names, by id, by name or by hostname and id, everything the run has made. |
| `TunnelProtocol.LeftoversTracked` | scripts/cloudflare_ephemeral_tunnels.py:221-310 | Whatever cleanups have removed so far, the last persisted state still names every leftover. |
| `TunnelProtocol.ViewSparesOthers` | scripts/cloudflare_ephemeral_tunnels.py:221-256 | A cleanup from any persisted state leaves every record that was there before untouched, and every tunnel that carries none of the run's names. |
| `TunnelProtocol.TunnelOrigin` | scripts/cloudflare_ephemeral_tunnels.py:85-95 | Every tunnel in the account is an old one or carries the name and id of a node of the run. |
| `TunnelProtocol.RecordOrigin` | scripts/cloudflare_ephemeral_tunnels.py:97-111 | Every record in the account is an old one or was made for one node of the run and points at that node's tunnel. |
| `TunnelWorld.World.RetryCall` | scripts/cloudflare_ephemeral_tunnels.py:209-218 | Up to `retries` attempts with ambiguous outcomes amount to one call: it may have taken effect although it reports an error, and without faults it succeeds unless the service refuses. |
| `TunnelWorld.World.CleanupAllocations` | scripts/cloudflare_ephemeral_tunnels.py:221-256 | Only what the list names is removed; no failure and no crash means nothing the list names is left; without faults there is no failure. |
| `TunnelWorld.World.CleanRecords` | scripts/cloudflare_ephemeral_tunnels.py:221-256 | The DNS half for one allocation removes only records it names, touches no tunnel, and reports no failure only when none of them is left. |
| `TunnelWorld.World.CleanTunnels` | scripts/cloudflare_ephemeral_tunnels.py:221-256 | The tunnel half removes only tunnels it names, none of them while it has connections, touches no record, and reports no failure only when none of them is left. |
| `TunnelWorld.World.PersistState` | scripts/cloudflare_ephemeral_tunnels.py:194-206 | The state file is the new content, or on an error the old or the new one, never anything else. |
| `TunnelWorld.World.CreateTunnel` | scripts/cloudflare_ephemeral_tunnels.py:85-95 | A create that reports an error leaves open whether the tunnel exists; a reported id is the id of the tunnel made. |
| `TunnelWorld.World.CreateDns` | scripts/cloudflare_ephemeral_tunnels.py:97-111 | The same for a DNS record, which points at the given tunnel. |
| `TunnelWorld.World.AllocateOne` | scripts/cloudflare_ephemeral_tunnels.py:259-298 | At every crash point inside one turn of the loop the persisted state is a view of what has been made; a finished turn leaves a complete entry on disk. |
| `TunnelWorld.World.AllocateAll` | scripts/cloudflare_ephemeral_tunnels.py:259-298 | The same over the whole loop, for every count. |
| `TunnelWorld.World.Abandon` | scripts/cloudflare_ephemeral_tunnels.py:299-310 | The exception handler drops the token files, drops the state file only when its cleanup left no failure, and whatever it leaves stays recoverable. |
| `TunnelWorld.World.Allocate` | scripts/cloudflare_ephemeral_tunnels.py:259-310 | Every outcome, a kill included, leaves an account in which everything new is named by the state on disk; nothing that was there before is changed except tunnels with a name of this run; bad input is rejected without a call. |
| `TunnelRecovery.ViewLoads` | scripts/cloudflare_ephemeral_tunnels.py:313-380 | Every state file an allocation can leave behind passes load_state, and for a release run also under its run prefix. |
| `TunnelRecovery.CleanupCommand` | scripts/cloudflare_ephemeral_tunnels.py:464-478 | The state file goes only when no resource it names is left; a rejected state changes nothing; without faults every accepted state is cleaned. |
| `TunnelRecovery.AllocateThenRecover` | scripts/cloudflare_ephemeral_tunnels.py:194-310 | Any allocate, killed or not, any number of disturbed cleanups, one undisturbed cleanup, on any account: the records are what they were, the tunnels are what they were except that an older tunnel with a generated name may be gone, and no state file remains. |
| `TunnelNames.PositiveIntegerRoundTrip` | scripts/cloudflare_cleanup_recovery.py:27-31 | A positive number printed and read back is the same number. |
| `TunnelNames.RunPrefixInjective` | scripts/cloudflare_cleanup_recovery.py:115 | Every (run, attempt) gives a valid run prefix and different pairs give different prefixes. |
| `TunnelNames.RunNamespacesDisjoint` | scripts/cloudflare_ephemeral_tunnels.py:383-449 | A name that starts with one run prefix and a dash does not start with another one: the namespaces of distinct runs or attempts are disjoint. |
| `TunnelNames.NodeNameMatches` | scripts/cloudflare_ephemeral_tunnels.py:383-449 | The names that allocate makes match the discovery pattern and give back their node index. |
| `TunnelNames.NodeNamesDiffer` | scripts/cloudflare_ephemeral_tunnels.py:259-298 | Names of different nodes under one prefix differ. |
| `TunnelDiscovery.DiscoverIn` | scripts/cloudflare_ephemeral_tunnels.py:383-449 | Discovery succeeds if and only if every tunnel and record in the namespace is a well-formed node, one of each a node, and the record points at the node's tunnel; it then lists exactly these, with sound rows. |
| `TunnelDiscovery.Discover` | scripts/cloudflare_ephemeral_tunnels.py:383-449 | The same against the live account: success implies consistent leftovers, without faults consistent leftovers imply success, and an empty result means the namespace of the run is empty. |
| `TunnelDiscovery.CleanupRunPrefix` | scripts/cloudflare_ephemeral_tunnels.py:452-461 | Removes only inside the namespace of the run, reports success only when the namespace is empty, and succeeds without faults on consistent leftovers. |
| `TunnelDiscovery.RunCleanupCommand` | scripts/cloudflare_ephemeral_tunnels.py:464-478 | With an expected run prefix the ids in the saved state never drive a deletion: only the namespace of the run shrinks, and the state file goes only when it is empty. |
| `TunnelDiscovery.RunsIsolated` | scripts/cloudflare_ephemeral_tunnels.py:452-461 | A cleanup by prefix leaves every tunnel and record of any other run or attempt as it was. |
| `TunnelDiscovery.LeftoversFit` | scripts/cloudflare_ephemeral_tunnels.py:383-449 | In every state one release run and any partial cleanups can reach, discovery succeeds. |
| `TunnelDiscovery.MadeInNamespace` | scripts/cloudflare_ephemeral_tunnels.py:452-461 | When the namespace of a release run is empty, nothing the run made is left. |
| `TunnelDiscovery.AllocateThenRecoverByPrefix` | scripts/cloudflare_ephemeral_tunnels.py:383-461 | A release run, killed or not, any number of disturbed cleanups by prefix, one undisturbed one, without the saved state: the account is back to what it was. |
| `LogMerge.RootLeast` | engine/pkg/cli/debug_merge_logs.go:250-270 | The root of the heap is a least stream in the order of Less, exhausted streams first. |
| `LogMerge.MergedStream.constructor` | engine/pkg/cli/debug_merge_logs.go:208-248 | After heap.Init the streams are in heap order and each is held once. |
| `LogMerge.MergedStream.SiftDown` | engine/pkg/cli/debug_merge_logs.go:246-270 | Sinking one displaced element restores the heap order and keeps the elements. |
| `LogMerge.MergedStream.Requeue` | engine/pkg/cli/debug_merge_logs.go:279-294 | Popping and pushing the root, whose key has changed in place, restores the heap order with the same streams. |
| `LogMerge.MergedStream.Pop` | engine/pkg/cli/debug_merge_logs.go:279-294 | Pop hands out the root's next entry, restores the heap invariant although the root's key changed, drops a stream at EOF and keeps a failed one at the root. |
| `LogMerge.MergedStream.Drain` | engine/pkg/cli/debug_merge_logs.go:272-294 | Draining emits lines in time order, each source's entries once and in their own order, up to the end or the first fault. |
| `LogMerge.Merge` | engine/pkg/cli/debug_merge_logs.go:208-294 | An error is reported if and only if a source ends in a fault. Without one the output is sorted by time and an exact interleaving; with a source that fails at once nothing is merged; otherwise the lines stop behind the failing stream's last entry. |
| `FileStream.EmittedIsWindow` | engine/pkg/cli/debug_merge_logs.go:522-557 | Stopping at the first time past `to` gives the same entries as filtering the running-maximum times by the window. |
| `FileStream.Seek` | engine/pkg/cli/debug_merge_logs.go:573-619 | The binary search ends at an entry boundary at or after `from`; if every entry behind the first one at or after `from` is at or after it too, that first entry is where it ends, however the times run on either side. |
| `FileStream.SeekIsScan` | engine/pkg/cli/debug_merge_logs.go:573-619 | On such a file the boundary the binary search finds is the one a linear scan finds. |
| `FileStream.SeekKeeps` | engine/pkg/cli/debug_merge_logs.go:573-619 | Skipping to that boundary emits the same entries as reading from the start. |
| `FileStream.FileLogStream.ReadNext` | engine/pkg/cli/debug_merge_logs.go:522-557 | One turn of peek's loop changes nothing about what the stream will still yield and makes progress. |
| `FileStream.FileLogStream.Peek` | engine/pkg/cli/debug_merge_logs.go:522-557 | Peek reports the next entry to be yielded, or the end, and does not consume it. |
| `FileStream.FileLogStream.Pop` | engine/pkg/cli/debug_merge_logs.go:560-566 | Pop hands out the next entry and leaves the rest. |
| `FileStream.NewFileLogStream` | engine/pkg/cli/debug_merge_logs.go:474-492 | A file with nothing to offer gives no stream; otherwise the stream that was peeked and closed yields what the reopened file yields, and that is the window if and only if the reopening is harmless. |
| `FileStream.ReopenExact` | engine/pkg/cli/debug_merge_logs.go:474-520 | Peek, close and reopen neither lose nor repeat an entry if and only if no running maximum lies in the window, or the first entry behind the seek is kept unchanged, or two blank entries cancel. |
| `FileStream.ReopenRepeats` | engine/pkg/cli/debug_merge_logs.go:474-520 | Inputs on which it fails: an entry from before the epoch comes out twice, a blank first entry is lost. |
| `FileStream.FileStreamExact` | engine/pkg/cli/debug_merge_logs.go:474-566 | On every file the seek suits, clocks that run backwards included, the stream yields the entries with running-maximum times restricted to [from, to] if and only if the reopening is harmless, which it always is for a lower bound past the epoch. |
| `FileStream.ClockHeldBack` | engine/pkg/cli/debug_merge_logs.go:522-557 | A file whose clock runs backwards: the entry comes out at the time of the one before it, although the file is not sorted. |
| `FileStream.MergeFiles` | engine/pkg/cli/debug_merge_logs.go:175-248 | Merging any files through the actual streams gives one sequence in time order, in which every file the seek suits appears with exactly its window if and only if its reopening is harmless, or an initial piece of it after a cancellation. |
| `FileStream.BufferedLogStream.Produce` | engine/pkg/cli/debug_merge_logs.go:411-431 | However far the goroutine runs ahead, channel, hand and wrapped stream together hold what is still to come, in order; with a cancelled context an initial piece of it. |
| `FileStream.BufferedLogStream.Peek` | engine/pkg/cli/debug_merge_logs.go:433-445 | The buffered stream offers what the wrapped stream would have offered, and after a cancellation possibly nothing. |
| `FileStream.BufferedLogStream.Pop` | engine/pkg/cli/debug_merge_logs.go:447-451 | Pop hands out that entry and leaves the rest; it reports the end only at the end or after a cancellation. |
| `FileStream.Exhaust` | engine/pkg/cli/debug_merge_logs.go:411-451 | Draining a buffered stream gives what the wrapped stream would have given, whatever the goroutine does meanwhile. |
| `FileStream.FileSource` | engine/pkg/cli/debug_merge_logs.go:175-248 | One file, opened, peeked, closed, buffered and drained, gives a sorted sequence, exactly its window if and only if its reopening is harmless. |
| `LogWriter.HeldUntouched` | engine/pkg/cli/debug_merge_logs.go:73-163 | No action of any goroutine resets or appends to the buffer the writer holds. |
| `LogWriter.EverySchedule` | engine/pkg/cli/debug_merge_logs.go:42-164 | The invariant holds after every schedule of read, bufferWrites and write, errors and cancellation included. |
| `LogWriter.BuffersBounded` | engine/pkg/cli/debug_merge_logs.go:73-163 | For entries of the run that render to at most a given length, the pending text never exceeds the limit by more than one of them. |
| `LogWriter.OutputCorrect` | engine/pkg/cli/debug_merge_logs.go:73-163 | The output is always an initial piece of the rendered, filtered entries in order, and all of them when the goroutines return without an error. |
| `LogWriter.SchedulesEnd` | engine/pkg/cli/debug_merge_logs.go:73-163 | Every schedule is finite: each action lowers a measure fixed by the entries. |
| `LogWriter.NeverStuck` | engine/pkg/cli/debug_merge_logs.go:73-163 | Until all three goroutines have returned one of them can act, so they never wait for each other in a circle. |
| `LogWriter.CanFinish` | engine/pkg/cli/debug_merge_logs.go:73-163 | From every state reached without an error a schedule leads to a normal end, where the output is everything rendered. |
| `GoComments.WithoutGoComments` | scripts/verify-provenance.py:106-161 | The one-pass loop computes the recursive meaning of stripping, failing exactly on an unterminated literal or block comment. |
| `GoComments.StripIdempotent` | scripts/verify-provenance.py:106-161 | Stripping the result again changes nothing. |
| `GoComments.SlashKeepsNeighbour` | scripts/verify-provenance.py:106-161 | A slash that is written in code is followed in the output by the character that follows it in the input, so no new comment start arises. |
| `GoComments.StripSubsequence` | scripts/verify-provenance.py:106-161 | The output is the input with characters left out. |
| `GoComments.StripKeepsBreaks` | scripts/verify-provenance.py:106-161 | Every newline and carriage return survives, in order. |
| `GoComments.StripAppend` | scripts/verify-provenance.py:106-161 | Stripping a text piece by piece at token boundaries is stripping the whole. |
| `GoComments.LineCommentGoes` | scripts/verify-provenance.py:106-161 | A line comment behind code disappears up to its line break, which is a newline or a carriage return. |
| `GoComments.BlockCommentGoes` | scripts/verify-provenance.py:106-161 | A block comment leaves only its line breaks. |
| `GoComments.RawStringKept` | scripts/verify-provenance.py:106-161 | A raw string literal is copied unchanged, comment markers included. |
| `GoComments.LiteralKept` | scripts/verify-provenance.py:106-161 | String and rune literals are copied unchanged, with comment markers and escaped quotes inside, and stripping goes on behind them. |
| `GoComments.CommentLineInvisible` | scripts/verify-provenance.py:164-167 | Adding a comment on a line of its own does not change the projection. |
| `GoComments.RawStringBlankLineHidden` | scripts/verify-provenance.py:164-167 | Dropping a blank line inside a raw string is not noticed, whatever stands around it. |
| `GoProjection.ProjectionExact` | scripts/verify-provenance.py:164-167 | For every text: the projection, read as a source text, says what the text says (characters, literals whole, and what separates two characters) if and only if no line that starts inside a literal is blank, no line end inside a literal has a carriage return, and no two characters of code have only comments without a line end between them. |
| `GoReading.StripExact` | scripts/verify-provenance.py:106-161 | Stripping keeps what a text says if and only if no comment is all that separates two characters of code. |
| `GoProjection.SameProjection` | scripts/verify-provenance.py:488-496 | Two texts that meet the condition and have the same projection say the same. |
| `GoProjection.CommentGlues` | scripts/verify-provenance.py:164-167 | Taking out a comment without a line end is never noticed, and it changes what the text says if and only if code stands directly on both sides of it. |
| `GoProjection.WordsGlued` | scripts/verify-provenance.py:164-167 | Two words with only a comment between them project like the word they make together, and do not say the same. |
| `GoProjection.ReturnGlued` | scripts/verify-provenance.py:164-167 | The keyword return and a call, with only a comment between them, project like the call of another function. |
| `GoProjection.LiteralsConfused` | scripts/verify-provenance.py:164-167 | A line of a raw string that ends in a carriage return, in a newline or in two: three texts that say different things and project alike. |
| `GoReading.StrippedPositions` | scripts/verify-provenance.py:106-161 | The positions used for that follow the lexer: at the end of every stripped text they are back in code. |
| `Blobs.StreamWriter.Write` | engine/pkg/blobs/client.go:83-97 | The chunks sent are nonempty, within chunkSize, and their concatenation grows by exactly the reported prefix of the argument. |
| `Blobs.StreamContent` | engine/pkg/blobs/stream.go:131-147 | streamContent sends the reader's data chunk by chunk up to the first answer or send that stops it, every chunk nonempty and within chunkSize, and returns exactly what stopped it. |
| `Blobs.FirstErrorReturned` | engine/pkg/blobs/stream.go:131-147 | For readers that give errors alone or repeat them the reader's first error is what streamContent returns; for every reader, if and only if it does not come with data ahead of another end. |
| `Blobs.Download` | engine/pkg/blobs/service.go:55-62 | GetStream from the file to the client's reader: what is delivered is an initial piece of the file, and end of file is reported only with the whole file delivered, unless a Send reported io.EOF. |
| `Blobs.TransientErrorDropped` | engine/pkg/blobs/stream.go:131-147 | After any answers without an error, an error that comes with data and is followed by end of file makes streamContent report success. |
| `Blobs.BlobStreamReader.Read` | engine/pkg/blobs/stream.go:72-118 | For every buffer size the bytes delivered and the bytes remaining are the bytes that remained before; EOF comes only after the last byte. |
| `Blobs.Transfer` | engine/pkg/blobs/stream.go:72-118 | Any writes on one side and any reads on the other: what is delivered is an initial piece of what was written, and all of it at EOF. |
| `Blobs.BlobStore.PutStream` | engine/pkg/blobs/service.go:65-92 | Over every interleaving of chunks, errors, cancellation and stops of the process: success means the complete content, no other file is touched, and on one file system the destination is as before or holds the complete content, as before whenever the request fails or is cancelled; across file systems it may hold an initial piece. |
| `Blobs.BlobStore.CopyAll` | engine/pkg/blobs/local_storage.go:78-131 | However the copy ends, the temporary file has grown by an initial piece of what was to come, by all of it when the copy succeeds, and every other file is untouched. |
| `Blobs.BlobStore.CopyFile` | engine/pkg/util/fileutil/copy.go:36-54 | A copy leaves the files as they were or the destination with an initial piece of the source, all of it when it succeeds. |
| `Blobs.BlobStore.Move` | engine/pkg/util/fileutil/move.go:24-35 | A move that succeeds puts the complete file in place and removes the old one; a failed rename changes nothing, and a failed copy may leave a piece. |
| `Blobs.MoveExact` | engine/pkg/util/fileutil/move.go:20-35 | However a move is left, the destination is as before or complete if and only if the rename stays on one file system or the copy has no state in between. |
| `Decommission.Tally` | engine/pkg/cli/node.go:539-650 | The loop over the statuses computes the 64-bit total and whether any target is active. |
| `Decommission.QuietIsEmpty` | engine/pkg/cli/node.go:539-650 | With nonnegative counts a quiet answer means that no target has a replica if and only if a target is active, the true total is 0 or it is no multiple of 2^64; no replicas always make a quiet answer. |
| `Decommission.QuietCanOverflow` | engine/pkg/cli/node.go:539-650 | Three counts whose total is 2^64 pass as quiet although replicas remain. |
| `Decommission.Finish` | engine/pkg/cli/node.go:539-650 | Targets are drained in order without the local node, stopping at the first failure; the mark follows only after all of them. |
| `Decommission.Round` | engine/pkg/cli/node.go:539-650 | One request asks for a replica report exactly when sixteen answers in a row repeated the one before. |
| `Decommission.Drive` | engine/pkg/cli/node.go:539-650 | Over the whole retry loop the trace is proper, reports are justified and resets are bounded. |
| `Decommission.Begin` | engine/pkg/cli/node.go:504-537 | A dry run or a failed pre-check issues nothing that changes the cluster. |
| `Decommission.Decommission` | engine/pkg/cli/node.go:462-650 | Over every run: DECOMMISSIONED is requested only right behind a quiet answer and after every non-local target was drained without error; a dry run or failed pre-check changes nothing; with nonnegative counts the backoff resets at most the first count plus one times. |
| `Codecs.DecodeRuneExact` | engine/pkg/cli/decode.go:191-206 | A rune up to U+00FF is decoded exactly where its UTF-8 encoding stands (section 3 of RFC 3629). |
| `Codecs.ConvertFromUTF8` | engine/pkg/cli/decode.go:191-206 | The loop computes the decoding, failing at the first rune that is no byte. |
| `Codecs.DecodedInvertsEncode` | engine/pkg/cli/decode.go:191-206 | Every byte string is recovered from its encoding. |
| `Codecs.EncodeInvertsDecoded` | engine/pkg/cli/decode.go:191-206 | Whenever decoding succeeds, encoding the result gives back the input. |
| `Codecs.DecodedIffEncoded` | engine/pkg/cli/decode.go:191-206 | Decoding succeeds exactly on encodings of byte strings. |
| `Codecs.AppendEscapedText` | engine/pkg/cli/nodelocal.go:79-115 | Both paths append the byte-by-byte escape of the text. |
| `Codecs.EscapeAppend` | engine/pkg/cli/nodelocal.go:79-115 | Escaping distributes over concatenation. |
| `Codecs.EscapedHasNoSeparator` | engine/pkg/cli/nodelocal.go:79-115 | No raw tab, newline or carriage return appears in escaped text. |
| `Codecs.UnescapeInvertsEscape` | engine/pkg/cli/nodelocal.go:79-115 | Unescaping gives the text back, so escaping is injective. |
| `Codecs.Upload` | engine/pkg/cli/nodelocal.go:134-145 | However the reader cuts the file, what is sent unescapes to the bytes read. |
| `RaftScan.UpdateStep` | engine/pkg/cli/debug_check_store.go:241-288 | Whatever keys of other ranges stand in between, the record of a range depends on its own keys alone. |
| `RaftScan.GapStep` | engine/pkg/cli/debug_check_store.go:273-285 | A gap is noticed exactly when an entry does not follow the last one seen. |
| `RaftScan.Gather` | engine/pkg/cli/debug_check_store.go:241-288 | After the scan every mentioned range has the record of its own keys and the gaps are exactly the non-contiguous logs. |
| `RaftScan.CheckStoreRaftState` | engine/pkg/cli/debug_check_store.go:209-317 | A problem is reported exactly when it is there, range by range. |
| `RaftScan.SilentIffHealthy` | engine/pkg/cli/debug_check_store.go:209-317 | With indices at least 1 the scan is silent exactly when every log is contiguous, first <= applied <= committed <= last, and truncated is 0 or first - 1 in 64-bit arithmetic. |
| `RaftScan.IndexZeroHidesGap` | engine/pkg/cli/debug_check_store.go:273-285 | For every n > 1 a log with entries 0 and n has a gap that is not reported. |
| `RaftScan.GapSeenExact` | engine/pkg/cli/debug_check_store.go:273-285 | For every log the scan sees a gap exactly when there is one, if and only if the log does not start with index 0, go on with another index than 1 and have no gap behind its zeros. |
| `RecoveryDiff.DiffWithPlan` | engine/pkg/cli/debug_recover_loss_of_quorum.go:1039-1112 | With distinct node ids every planned node gets exactly one line, read off its status or saying it is missing, every other node only a line about an unexpected plan, the counters count the lines, and the report goes by ascending node id with the missing nodes last. |
| `RecoveryDiff.DiffWithoutPlan` | engine/pkg/cli/debug_recover_loss_of_quorum.go:1113-1137 | Without a plan every node's staged, failed or applied plan is listed by ascending node id and nothing counts as pending or failed. |
| `RecoveryDiff.DiffPlanWithNodeStatus` | engine/pkg/cli/debug_recover_loss_of_quorum.go:1039-1137 | The two branches together, with what each of them states about every node's lines. |
| `RecoveryDiff.CountsDecide` | engine/pkg/cli/debug_recover_loss_of_quorum.go:1039-1137 | Pending and errors are both 0 exactly when every planned node is present with this plan applied and no error and no unplanned node has a staged plan. |
| `RecoveryDiff.ErrorsDecide` | engine/pkg/cli/debug_recover_loss_of_quorum.go:1039-1137 | Errors are 0 exactly when every planned node has the plan applied without an error or still staged, and no unplanned node has a staged plan. |
| `RecoveryDiff.PendingDecides` | engine/pkg/cli/debug_recover_loss_of_quorum.go:1039-1137 | Pending is positive exactly when a planned node has the plan staged and not applied. |
| `RecoveryDiff.Verify` | engine/pkg/cli/debug_recover_loss_of_quorum.go:1023-1036 | With updates in the plan: complete exactly when applied everywhere, decommissioned and healthy; not finished exactly when a node waits or is not decommissioned. Without updates: exactly when it answers without an error. |
| `RecoveryDiff.AppliedUnlessWaiting` | engine/pkg/cli/debug_recover_loss_of_quorum.go:1023-1036 | A plan without updates for which the command reports nothing wrong is applied everywhere if and only if no planned node still waits. |
| `RecoveryDiff.LeaseholderPlanNotAwaited` | engine/pkg/cli/debug_recover_loss_of_quorum.go:1023-1036 | For every leaseholder-only plan for one node that is staged there and not applied, the command answers that nothing is wrong. |
| `PebbleOptions.Step` | engine/pkg/base/store_spec.go:468-487 | The loop body preserves the meaning of the text and makes no progress exactly when the rest starts with a bracket that is never closed, or when the first bracket or whitespace in it is whitespace of several bytes. |
| `PebbleOptions.Normalise` | engine/pkg/base/store_spec.go:466-487 | The tokeniser turns whitespace outside brackets into single newlines and runs for ever exactly when an opening bracket stands behind the last closing one, or whitespace outside brackets starts with a rune of several bytes. |
| `PebbleOptions.HangsOn` | engine/pkg/base/store_spec.go:468-487 | The same characterisation from any lexical state, for all texts over all runes. |
| `PebbleOptions.WideSpaceHangs` | engine/pkg/base/store_spec.go:468-487 | One such rune between two words makes the loop hang; behind an ASCII space it is harmless. |
| `PebbleOptions.PrintedAgain` | engine/pkg/base/store_spec.go:311-316 | Printing a normalised text and normalising it again gives it back if and only if no newline stands between brackets. |
| `StoreSpec.NewStoreProvisionedRateSpec` | engine/pkg/base/store_spec.go:185-242 | The loop computes the meaning of the rate field, rejecting duplicates, unknown sub-fields, a missing disk name and a zero bandwidth. |
| `StoreSpec.ParseAttrs` | engine/pkg/base/store_spec.go:439-451 | Duplicates are rejected, and the order in which the map is walked does not show in the result. |
| `StoreSpec.ParsePebble` | engine/pkg/base/store_spec.go:460-495 | Parsing the pebble field never ends exactly when a bracket is left open or whitespace outside brackets starts with a rune of several bytes. |
| `StoreSpec.NewStoreSpec` | engine/pkg/base/store_spec.go:375-522 | The one-pass loop with its used set computes the fold over the comma-separated fields, with the checks behind it. |
| `StoreSpec.String` | engine/pkg/base/store_spec.go:278-332 | The buffer with its last comma cut off is the comma-join of the printed fields. |
| `StoreSpecRoundTrip.AcceptedIsFit` | engine/pkg/base/store_spec.go:375-522 | Whatever text was accepted, the specification is complete, sizes are in range, attributes are sorted and distinct, and no field holds a separator of the format. |
| `StoreSpecRoundTrip.SizeReads` | engine/pkg/base/store_spec.go:82-130 | A size in range that prints exactly prints as one field that reads back as the size. |
| `StoreSpecRoundTrip.RateReads` | engine/pkg/base/store_spec.go:185-242 | A printed rate reads back, with a negative bandwidth dropped. |
| `StoreSpecRoundTrip.AttrsRead` | engine/pkg/base/store_spec.go:439-451 | Printed attributes read back as the same list. |
| `StoreSpecRoundTrip.ReadsBack` | engine/pkg/base/store_spec.go:278-522 | Parsing what String prints gives the specification without the parts String does not print, or is rejected when a rejoined stanza is no valid Pebble. |
| `StoreSpecRoundTrip.RoundTrip` | engine/pkg/base/store_spec.go:278-522 | For every accepted text with exactly printable sizes, parsing String's output gives the same specification if and only if there are no RocksDB options, the ballast is absent or nonzero, the bandwidth is nonnegative and no newline stands between pebble brackets. |
| `StoreSpecRoundTrip.RocksdbLost` | engine/pkg/base/store_spec.go:278-332 | For every path and options the RocksDB options are accepted and do not come back. |
| `StoreSpecRoundTrip.ParsePrintParse` | engine/pkg/base/store_spec.go:278-522 | The round trip on the two methods as they run. |
| `StoreSpecRoundTrip.BarePath` | engine/pkg/base/store_spec.go:375-400 | A text without commas and equal signs is the path of an on-disk store. |
| `StoreSpecRoundTrip.NoFieldTwice` | engine/pkg/base/store_spec.go:394-399 | In an accepted text no field name occurs twice, whatever its case. |
| `StoreSpecRoundTrip.FractionIsPercentage` | engine/pkg/base/store_spec.go:82-130 | A decimal fraction and the same number of percent give the same size or the same rejection. |
| `SbomRerun.AddRelOnce` | scripts/augment-sbom.py:154-161 | Adding an edge appends it only if it is not there and changes how often no other edge occurs. |
| `SbomRerun.AddRelsOnce` | scripts/augment-sbom.py:154-161 | Adding edges never makes an edge appear more often than before, or than once. |
| `SbomRerun.SupplyTail` | scripts/augment-sbom.py:233-318 | What the two package loops append are exactly the templates of the needs that had no package and that no earlier need brought. |
| `SbomRerun.SettledStays` | scripts/augment-sbom.py:170-408 | A document in which every record of the release is settled and every list is in order is a fixed point of the run. |
| `SbomSettles.IdentifyIdentifies` | scripts/augment-sbom.py:182-231 | After the first step exactly one package is the application, it carries the release's fields and no other package passes for it. |
| `SbomSettles.SupplySettles` | scripts/augment-sbom.py:233-318 | Adding Debian sources and native components that do not pass for the application disturbs neither it nor the Debian binaries, and meets every need once. |
| `SbomSettles.FilledDone` | scripts/augment-sbom.py:332-361 | A filled file entry is complete, and it passes the checks of a second run exactly when the inventory writes its hash in lower case. |
| `SbomSettles.SourceDone` | scripts/augment-sbom.py:320-377 | After the inventory loop every record has exactly one file with its hash and license, contained in the application, and its license text is defined once. |
| `SbomSettles.SettledOrdered` | scripts/augment-sbom.py:402-408 | The final sorts keep a document settled and put its lists in order. |
| `SbomForecast.FilesForecast` | scripts/augment-sbom.py:320-377 | The inventory loop appends exactly the files of the records without one, keeps every other name and id in place, and draws exactly the edges to the files of the records, all read off the files before the loop. |
| `SbomForecast.PackagesForecast` | scripts/augment-sbom.py:164-318 | The package loops draw no edge to a file, and whether the document counts as a source document afterwards is known before them. |
| `SbomForecast.RuntimeComesTrue` | scripts/augment-sbom.py:379-388 | Whether a second run would find the runtime edges drawn is decided by the files, the edges and the inventory before the first run. |
| `SbomTheorem.NoDuplicateEdge` | scripts/augment-sbom.py:154-161 | Over a whole run no edge is lost and none is introduced twice. |
| `SbomTheorem.EveryDependency` | scripts/augment-sbom.py:390-400 | Exactly one package is the application, the document describes it, and every other package with a purl is a direct dependency of it. |
| `SbomTheorem.EveryComponent` | scripts/augment-sbom.py:286-318 | Every native component is in the result once, with an edge from the application. |
| `SbomTheorem.EverySource` | scripts/augment-sbom.py:233-284 | Every Debian runtime package is marked as generated from its source package, which is there once. |
| `SbomTheorem.EveryRecord` | scripts/augment-sbom.py:320-377 | After a run on a source document every record of the inventory has its file, found or new, with exactly the hash, license and comment of the inventory, contained in the application; if every record can be looked up again, it is the only file at its path. |
| `SbomTheorem.NothingLost` | scripts/augment-sbom.py:170-408 | All lists end in order; every package but the application, and every file the inventory does not speak of, is kept as it was. |
| `SbomTheorem.EmptyDocument` | scripts/augment-sbom.py:170-408 | An empty document is augmented and stable under a release without further records. |
| `SbomTheorem.SecondRunChangesNothing` | scripts/augment-sbom.py:170-408 | The simple case, also read off before the first run: no component and no Debian source is named like the application, no runtime path has two files, and in a source document the inventory can be looked up again. |
| `SbomTheorem.SecondRunExact` | scripts/augment-sbom.py:170-408 | For every document that can be augmented: a second run changes nothing, list order included, if and only if the document is stable, which is read off before the first run: no package to be added passes for the application, of the files at a runtime path the last by name is the last in the list or is or becomes part of the application otherwise, and in a source document every inventory hash is in lower case and every path without a file is its own source path. |
| `SbomTheorem.RuntimeFileChanges` | scripts/augment-sbom.py:379-388 | A document with two files at one runtime path: the second run adds an edge. |
| `SbomTheorem.RivalComponent` | scripts/augment-sbom.py:188-201 | A component that passes for the application, on an empty document: the first run succeeds and the second exits. |
| `SbomTheorem.UpperCaseHash` | scripts/augment-sbom.py:332-341 | An upper-case hash in the inventory, on an empty source document: the first run succeeds and the second exits. |
| `SbomTheorem.LostPath` | scripts/augment-sbom.py:142-147 | An inventory path that is not its own source path, on an empty source document: the second run adds its file again. |
| `SbomRun.SpdxDocument.AddSpdxRelationship` | scripts/augment-sbom.py:154-161 | After the call the edge is there, appended only if it was not. |
| `SbomRun.SpdxDocument.EnsureFiles` | scripts/augment-sbom.py:320-377 | The inventory loop, editing the lists in place and looking files and license texts up in its dictionaries, computes the specified files, edges and license texts or exits. |
| `SbomRun.SpdxDocument.AugmentSpdx` | scripts/augment-sbom.py:170-408 | The run in place, with its dictionaries by purl, path, license id and Debian source, computes the specified document or exits exactly when the specification says so. |
| `SbomRun.SpdxDocument.AugmentTwice` | scripts/augment-sbom.py:170-408 | Running the script twice gives what running it once gives, exactly on stable documents. |
| `SbomRun.IndexPurls` | scripts/augment-sbom.py:182-186 | by_purl holds, for every key, the places of the packages that carry it, as often as they carry it. |
| `SbomRun.FindBinaries` | scripts/augment-sbom.py:233-246 | binary_packages is complete exactly when no binary occurs twice, and then holds the one place of every binary that occurs. |
| `SbomRun.SpdxDocument.EnsurePackage` | scripts/augment-sbom.py:286-317 | Looking by_purl up and appending on a miss finds or adds what the specification says and keeps the dictionary right. |
| `SbomRun.SpdxDocument.EnsureSources` | scripts/augment-sbom.py:233-284 | The loop over the Debian mappings, which looks a source up only the first time it meets it, supplies what looking every one up would. |
| `CycloneDeps.FinishGrows` | scripts/augment-sbom.py:664-667 | The final form of the dependencies loses no entry and no edge, sorts the lists and leaves no duplicate. |
| `CycloneParts.AddPropertyDone` | scripts/augment-sbom.py:411-418 | After add_cdx_property the name occurs once with the value, the properties are sorted and those of other names are as before. |
| `CycloneParts.FilledStays` | scripts/augment-sbom.py:616-646 | A component that was filled from a record stays as it is, and it passes the checks of a second run exactly when the inventory writes its hash in lower case. |
| `CycloneSettles.SupplyMeets` | scripts/augment-sbom.py:510-593 | After the Debian and native loops every need has its one component, the edge from the application, and the mark and edge of its binary. |
| `CycloneSettles.SupplyTail` | scripts/augment-sbom.py:510-593 | What these loops append are templates of needs that had no component. |
| `CycloneFiles.FilesDone` | scripts/augment-sbom.py:595-649 | After the inventory loop every record has exactly one component, with its hash, license and properties, and the edge from the application. |
| `CycloneRefs.SupplyRefs` | scripts/augment-sbom.py:510-593 | The package loops keep every reference in its place and append the references of exactly the templates that had no component. |
| `CycloneRefs.FilesRefs` | scripts/augment-sbom.py:595-649 | The inventory loop keeps every reference in its place and appends those of exactly the records without a component. |
| `CycloneRefs.RefsIssued` | scripts/augment-sbom.py:453-649 | The references after a run are those of the document and the ones handed out, as read off the document before the run. |
| `CycloneRefs.FreshExact` | scripts/augment-sbom.py:455-458 | After the final sort the references are distinct, so that the next run is not refused for them, if and only if none is handed out twice or while it is in use. |
| `CycloneTheorem.EveryDependency` | scripts/augment-sbom.py:651-662 | After every run the application is there once, the document depends on it, and every other component with a purl and every runtime file is in its dependsOn. |
| `CycloneTheorem.EveryRecord` | scripts/augment-sbom.py:510-649 | After every run every Debian source, native component and, in a source document, every record of the inventory is there once with its edges. |
| `CycloneTheorem.NothingLost` | scripts/augment-sbom.py:453-667 | Every component but the application keeps its identity, no dependency entry and no edge is lost, and all lists end sorted and without duplicates. |
| `CycloneTheorem.SecondRunExact` | scripts/augment-sbom.py:453-667 | For every document that can be augmented a second run changes nothing if the document is stable, which is read off before the first run: no reference to be handed out is in use or handed out twice, no component to be added passes for the application and, in a source document, every inventory hash is in lower case; on every other document it exits. |
| `CycloneTheorem.TakenReference` | scripts/augment-sbom.py:455-458 | A component that already carries the reference of a new source file: the first run succeeds and the second exits. |
| `CycloneRun.CdxDocument.SetDefault` | scripts/augment-sbom.py:463-466 | dependencies_by_ref gets an entry exactly when the reference has none, and keeps the place of every entry. |
| `CycloneRun.IndexPaths` | scripts/augment-sbom.py:597-609 | by_path holds, for every inventory path, the places of the components that stand for it. |
| `CycloneRun.CdxDocument.EnsureSources` | scripts/augment-sbom.py:510-562 | The loop over the Debian mappings, with its cache of sources, supplies what looking every one up would. |
| `CycloneRun.CdxDocument.AugmentCyclonedx` | scripts/augment-sbom.py:453-667 | The run in place, with its dictionaries by reference, purl, path and Debian source, computes the specified document or exits exactly when the specification says so. |
| `CycloneRun.CdxDocument.AugmentTwice` | scripts/augment-sbom.py:453-667 | Running the script twice gives what running it once gives exactly on stable documents, and exits on all others. |

## Left out

- SbomRun.SpdxDocument.AugmentSpdx: records without an SPDXID and license information that is no list are not modelled.
- CycloneRun.CdxDocument.AugmentCyclonedx: an absent list of hashes, licenses or properties is an empty one, and a missing dependsOn that the script indexes counts as an exit.
- license text extraction and hashing in the SBOM script: what source_license reads for a record is part of the record.
- HTTP requests, pagination and JSON of the Cloudflare client, environment variables and argument parsing: a call is one step with a stated effect.
- fsync, permissions and directory handling of the state file: persist_state is an atomic replacement that may raise before or after it takes effect.
- TunnelRecovery.AllocateThenRecover: whether an older tunnel with a generated name is lost depends on where the run was killed, so the contract only says which tunnels may be.
- resolve_cleanup_run: only the numerals and the prefix it builds are modelled, not the GitHub documents it checks.
- FileStream.FileStreamExact: for a lower bound that falls between entries running backwards, or at or before the epoch with entries before it, which entries survive the seek is not stated; the merge of such files is still sorted.
- log decoding, redaction, file name patterns and colours of merge-logs: an entry is a time and a text, and rendering with its filters is a function.
- LogWriter: the error values of the goroutines are one flag, and a write either succeeds or writes a prefix.
- GoProjection.ProjectionExact: lines end where the stripper and splitlines end them; that Go itself ends a line, and with it a line comment, only at a newline and drops carriage returns from raw strings is not part of what a text says here.
- Blobs: gRPC flow control and metadata; a stream is a sequence of chunks that ends in EOF or an error.
- path containment in the local storage.
- Decommission.Decommission: polling, printing and sleeping are left out; the retry loop stops after a number of turns that is a parameter.
- PebbleOptions.Normalise: texts are sequences of runes, so invalid UTF-8 is not modelled.
- StoreSpec.NewStoreSpec: error messages are not modelled, and field names are lower-cased as ASCII.
- percentages are real numbers, so rounding in ParseFloat and Ftoa is not modelled.
- RecoveryDiff.DiffWithPlan: with repeated node ids only the counters are stated, because the sort leaves open which status of a node comes first.
- RaftScan: decoding of keys and values; a key is already classified.
- cobra commands, flags, prompts, tables, certificates, demo and HAProxy templates.
