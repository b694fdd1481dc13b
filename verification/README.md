# dbn-pipe in Dafny

dbn-pipe streams Databento market data: bytes come off a socket, are decrypted or decompressed,
authenticated, parsed into DBN records and handed to a sink, under backpressure and with callbacks
that may call back in. This project models that data path and five smaller pieces beside it, and
proves what they are for.

| file | models |
|---|---|
| Bytes, Decimal | bytes, options, decimal text |
| Segments, ChainSpec, BufferChain | segments with use counts, the recycling pool, `BufferChain` as a flat byte string; the classes compute the functions |
| SharedSegments | any number of chains and record references over one memory, over every run |
| DbnFormat, DbnParser | DBN on flat bytes, and `DbnParserComponent` over real chains |
| Tracking, ParserSession | allocator, chain and parser against the accounts of SharedSegments, over whole streams |
| LiveStream | the binary half of `CramAuth` with the parser and sink behind it, re-entrant |
| Backpressure, Components | `PipelineComponent` in a pipeline of any length, re-entrant |
| Handshake | the text half of `CramAuth`, up to the switch to binary |
| LiveSession | both halves: from the server's first byte to the sink |
| Zstd | `ZstdDecompressor` around an arbitrary streaming decoder |
| TradingDate, InstrumentMap | civil dates, and the interval search over them |
| PgCopy | the binary COPY encoder, a decoder for it, and the flush loop |
| RangeText | `StoreProgress`'s range text and `ParseRanges` |
| Symbology | `SymbologyBuilder` against the meaning of the document |
| BatchWriter | the queue between producers and one writer coroutine |

How it is built. Where the program changes objects step by step there is a class with the same
fields; its methods are proved equal to functions on values, or to keep an invariant, and the
theorems are about those. Foreign code that may call back in follows an arbitrary finite script, so
a proof for every script is a proof for every re-entrant behaviour. What the program cannot see is a
parameter:
the record converters (a function of version and record bytes), SHA-256, the zstd decoder (any
function of its call history that stays within its buffers and gets on), what storage answers.

What the proofs turned up:

- A bad header costs the batch under construction, so a malformed stream delivers less the larger
  its chunks are (`DbnFormat.BatchLost`; `MalformedDelivery` says exactly how much). The check
  against the maximum record size can never fire: the length byte counts 4-byte units.
- A hold on upstream is never given back when the last hold on a stage is released after a close,
  or when ProcessPending ends with the stage suspended again; these are the only two causes
  (`Backpressure.NoLeakExactly`), and real runs reach both (`Components.OverSuspended`,
  `HeldByClosed`).
- Resume after DoClose with an OnDone still deferred calls through the reset downstream pointer
  (`LiveStream.Stream.Resume` has the condition, `DeferredDoneOutlivesClose` a run). Before DoClose
  the deferred OnDone can be answered with completion behind a Close, made before Resume or inside
  it; EmitDone, CompleteDeferred and Resume say exactly when, only a Resume leads to it, and
  `CompletionFollowsClose`, `CompletionFollowsCloseUpstream` and `CompletionFollowsCloseBySink` are
  runs for the three moments of the Close.
- `CramAuth::OnTextData` goes on with later lines of a chunk after a handler has failed;
  `Handshake.TwoChunks` says for which bytes that shows. The branches for leftover line-buffer bytes
  and for an invalid greeting are dead. A Subscribe after the session has started is silently dropped.
- After a failed Resume with an OnDone deferred, `ZstdDecompressor` may show leftover output once
  more behind the error; `Zstd.ZstdDecompressor.Resume` says exactly when, and
  `Zstd.OutputBehindError` reaches it. Its branch in OnDone that drains pending input is dead.
- `WouldOverflow` wraps once a chain is past its limit; the live chains never are.
- A text of 2^31 bytes or more, or 2^15 columns, makes a COPY unreadable (`PgCopy.CopyRoundTrip`).
- An empty interval, which Insert allows, can hide a longer one from Resolve
  (`InstrumentMap.ResolveExactly`): surely when it lies strictly inside, and depending on the sort
  when the starts are equal (`RightInEveryOrder`, `RightInSomeOrder`).
- A JSON object among an interval's members ends the interval early (`Symbology.NestedObject`).
- With a low-water mark of 0 the batch writer never resumes upstream (`BatchWriter.IdleIsResumed`).
  An upstream that counts holds keeps one for each batch accepted above the high mark while already
  suspended, whatever the marks (`HoldsExactly`, `CountingUpstreamSticks`).
- The documentation of `drain` promises that all batches are written. That is so if and only if no
  stop and no timeout found work waiting and no write failed (`BatchWriter.WrittenExactly`,
  `DrainWritesEverything`); a failed write's batches are gone (`DrainLosesFailedWrite`), a timeout
  leaves what was waiting neither written nor discarded (`TimeoutLeavesPending`).

## Model

| member | source | states |
|---|---|---|
| `ChainSpec.ConsumeView` | lib/stream/buffer_chain.hpp:118-141 | Consuming n bytes, or all there are, leaves a well-formed chain whose view is the old view without its first n bytes, whatever the segment boundaries and use counts. |
| `ChainSpec.ConsumeHeap` | lib/stream/buffer_chain.hpp:118-141 | Consuming and recycling changes no byte of any segment; only use counts and the pool move. |
| `ChainSpec.LocateCorrect` | lib/stream/buffer_chain.hpp:172-197 | The segment walk finds a segment exactly when the position lies inside the data, and the bytes before that segment plus the offset in it are the position. |
| `ChainSpec.ContiguousIff` | lib/stream/buffer_chain.hpp:149-168 | For a non-empty range IsContiguous is true exactly when one segment covers all of it; for an empty one exactly when the chain is not empty and the offset is at most its length. |
| `ChainSpec.PointerSeesSlice` | lib/stream/buffer_chain.hpp:172-183 | When IsContiguous holds, the bytes at DataAt's pointer are that slice of the view. |
| `ChainSpec.AppendSegmentView` | lib/stream/buffer_chain.hpp:81-88 | Appending an owned segment appends its bytes to the view; an empty segment is dropped without trace. |
| `ChainSpec.AppendBytesView` | lib/stream/segment_allocator.hpp:116-124 | AppendBytes, in 64 KiB pieces, appends exactly the bytes, to the chain's view and to its cached total. |
| `ChainSpec.CompactView` | lib/stream/buffer_chain.hpp:279-299 | Compact leaves the view as it was and the offset at zero, shared first segment or not. |
| `ChainSpec.CompactFrame` | lib/stream/buffer_chain.hpp:279-299 | Compact changes no byte of a segment anybody else holds. |
| `ChainSpec.CompactLeavesOther` | lib/stream/buffer_chain.hpp:279-299 | Compacting one chain leaves a chain with disjoint segments well formed and with the same view. |
| `ChainSpec.SpliceView` | lib/stream/buffer_chain.hpp:94-114 | Splice concatenates the views and empties the source, also when the source was partly consumed. |
| `ChainSpec.WouldOverflowMeaning` | lib/stream/buffer_chain.hpp:265-267 | The unsigned subtraction in WouldOverflow means `total + bytes > limit` while the total is within the limit; past it the difference wraps and the answer is wrong for small additions. |
| `BufferChains.BufferChain.Append` | lib/stream/buffer_chain.hpp:81-88 | Appends the segment's bytes to the contents; the chain stays well formed. |
| `BufferChains.BufferChain.Consume` | lib/stream/buffer_chain.hpp:118-141 | The loop over segments computes the specified drop, in the shared memory too. |
| `BufferChains.BufferChain.IsContiguous` | lib/stream/buffer_chain.hpp:149-168 | The walk answers ContiguousIff's question for this chain. |
| `BufferChains.BufferChain.DataAt` | lib/stream/buffer_chain.hpp:172-183 | The pointer it returns is where the flat bytes at that offset lie. |
| `BufferChains.BufferChain.GetSegmentAt` | lib/stream/buffer_chain.hpp:186-197 | The keepalive taken is the segment that holds the byte at that offset, with its use count raised. |
| `BufferChains.BufferChain.CopyTo` | lib/stream/buffer_chain.hpp:201-227 | The bytes copied, across any number of segments, are the slice of the contents. |
| `BufferChains.BufferChain.Compact` | lib/stream/buffer_chain.hpp:279-299 | Contents unchanged, offset zero; copies when the first segment is shared, moves in place when not. |
| `BufferChains.BufferChain.Splice` | lib/stream/buffer_chain.hpp:94-114 | Contents become the concatenation, the other chain is empty. |
| `BufferChains.BufferChain.CompactAndSplice` | lib/stream/buffer_chain.hpp:271-274 | The same when this chain was partly consumed. |
| `BufferChains.BufferChain.Clear` | lib/stream/buffer_chain.hpp:246-255 | Empties the chain, returning segments to the pool when the chain recycles. |
| `BufferChains.BufferChain.AppendBytes` | lib/stream/segment_allocator.hpp:116-124 | The loop over fresh segments appends exactly the bytes. |
| `BufferChains.SegmentAllocator.Allocate` | lib/stream/segment_allocator.hpp:38-46 | Reuses the last pooled segment, emptied, or makes a new one. |
| `BufferChains.SegmentAllocator.Release` | lib/stream/segment_allocator.hpp:50-54 | Pools a segment only when the caller is its last holder and the pool has room. |
| `ChainSpec.ReleasedComesBack` | lib/stream/segment_allocator.hpp:38-54 | A segment given back by its only holder is the next one handed out, emptied, while the pool has room; a shared one or one too many loses a holder. |
| `ChainSpec.AllocateGrows` | lib/stream/segment_allocator.hpp:38-46 | Memory grows only when the pool is empty. |
| `ChainSpec.ClearRecycles` | lib/stream/buffer_chain.hpp:246-255 | What Clear lets go of goes to the pool exactly in order, when the chain recycles, nobody else holds it and there is room; without recycling nothing does. |
| `ChainSpec.ConsumeRecycles` | lib/stream/buffer_chain.hpp:118-141 | So does what Consume uses up. |
| `ChainSpec.CompactGrows` | lib/stream/buffer_chain.hpp:279-299 | Compact takes a new segment exactly for a first one that is partly consumed and shared. |
| `ChainSpec.AppendBytesSegments` | lib/stream/segment_allocator.hpp:116-124 | AppendBytes takes as few segments as the bytes need. |
| `SharedSegments.StepKeeps` | lib/stream/segment_allocator.hpp:38-61 | Each of allocate, write, append, release, consume, clear, compact, splice, take and drop a reference keeps: every use count is exactly the number of holders, at most one of them an owner. |
| `SharedSegments.ZeroCopyStable` | lib/stream/buffer_chain.hpp:118-141 | Over every run of these operations on any number of chains, a record reference that is still live shows the bytes it showed before. |
| `SharedSegments.TakeRefSees` | src/dbn_parser_component.hpp:240-292 | The zero-copy reference taken for a contiguous record sees exactly those bytes of the stream. |
| `SharedSegments.PooledHasNoOtherHolder` | lib/stream/segment_allocator.hpp:50-54 | After every run no chain, local variable or live reference names a pooled segment. |
| `DbnFormat.ParseSplit` | src/dbn_parser_component.hpp:170-309 | Reading a + b is reading a and then what a left followed by b. |
| `DbnFormat.ParseBad` | src/dbn_parser_component.hpp:213-225 | A bad header stays bad whatever follows and hides everything after it. |
| `DbnFormat.ParseIdle` | src/dbn_parser_component.hpp:185-230 | Reading again what a call left over finds nothing. |
| `DbnFormat.StreamIsItsRecords` | src/dbn_parser_component.hpp:182-309 | A version-3 stream is its metadata, the delivered records and the unread tail: no byte lost, added or moved. |
| `DbnFormat.RecordsConverted` | src/dbn_parser_component.hpp:249-299 | A record of a version older than 3 whose type needs it becomes what the converter makes of it, every other record stays the same bytes, and no boundary moves. |
| `DbnFormat.ParseConverted` | src/dbn_parser_component.hpp:170-309 | The same of a reading from any state, with the version in force after the gate. |
| `DbnFormat.MetadataSkipped` | src/dbn_parser_component.hpp:374-400 | A stream that starts with DBN, a version and a little-endian number within 256 MiB has that many bytes of metadata, skipped with the header, and that version. |
| `DbnFormat.MetadataAwaited` | src/dbn_parser_component.hpp:363-394 | Any shorter prefix of it waits. |
| `DbnFormat.MetadataRefused` | src/dbn_parser_component.hpp:382-387 | A number above the limit is refused at once. |
| `DbnFormat.NoMetadata` | src/dbn_parser_component.hpp:374-379 | A stream that starts otherwise has no metadata and is of version 3. |
| `DbnFormat.RecordRead` | src/dbn_parser_component.hpp:186-302 | Bytes whose first is a quarter of their number, at least 16 of them, are one record: read, converted and taken off, whatever follows. |
| `DbnFormat.RecordAwaited` | src/dbn_parser_component.hpp:227-230 | Part of a record waits. |
| `DbnFormat.RecordRefused` | src/dbn_parser_component.hpp:213-217 | A record shorter than its header is refused. |
| `DbnFormat.VersionRefused` | src/dbn_parser_component.hpp:251-256 | A whole record of a version above 3 is refused. |
| `DbnFormat.StreamRoundTrip` | src/dbn_parser_component.hpp:170-400 | Any metadata, any list of records and part of one more: exactly those records are delivered, each converted as its version calls for, and the part is left. |
| `DbnFormat.FeedAllIsParse` | src/dbn_parser_component.hpp:170-309 | For every way of cutting the stream, state and tail are those of the reference parse; the records too if it is well formed, a prefix of them if not. |
| `DbnFormat.SegmentationIndependent` | src/dbn_parser_component.hpp:170-309 | Two ways of cutting the same well-formed bytes deliver the same records and leave the same tail. |
| `DbnFormat.MalformedDelivery` | src/dbn_parser_component.hpp:213-225 | A malformed stream delivers exactly the records completed before the chunk in which the bad header showed. |
| `DbnFormat.BatchLost` | src/dbn_parser_component.hpp:213-225 | A good record and a bad header: delivered when they arrive apart, lost when they arrive together. |
| `DbnParser.Parser.OnData` | src/dbn_parser_component.hpp:170-309 | Over a chain of any segments, aligned or not, the call delivers, leaves and remembers exactly what the flat-byte reading says, shows each record of an older version converted, and changes no byte of memory; with the use counts exact before (the ghost world), they are after, every live reference still shows its bytes, and the references taken are exactly those of the delivered batch: a lost batch gives all of its back. |
| `DbnParser.Parser.SkipMetadataIfNeeded` | src/dbn_parser_component.hpp:358-402 | Decides on the first bytes as MetadataSkipped, MetadataAwaited, MetadataRefused and NoMetadata say: skip, wait, refuse, or take raw records. |
| `DbnParser.Parser.TakeRecord` | src/dbn_parser_component.hpp:232-302 | All four routes (contiguous or not, aligned or not, converted or not) add the same record, converted if its version is older than 3 and its type needs it, and consume it; the world gains exactly the record's reference. |
| `DbnParser.Parser.DropBatch` | src/dbn_parser_component.hpp:178-230 | A batch that is not delivered drops every reference it took and no other. |
| `DbnParser.RefsDrop` | src/dbn_parser_component.hpp:285-299 | Dropping one record's reference leaves every other record's alive. |
| `ParserSession.ReadStream` | src/dbn_parser_component.hpp:170-309 | From an empty pool, for every run of segment lists appended to the parser's chain, or queued in a second one that is later compacted and spliced behind it, with an OnData after each, mixed with other allocations, writes, recycling and dropped records: state and chain contents are those of the reference parse of all bytes that got there, every record still held shows, in the final memory, the reference record of its number, none is missing if the stream is well formed, and no held record's segment is in the pool. |
| `ParserSession.Session.Splice` | src/cram_auth.hpp:268-277 | CompactAndSplice moves the second chain's bytes behind the parser's, with records held all the while. |
| `Tracking.Spliced` | src/cram_auth.hpp:268-277 | Compacting the parser's chain and splicing the other behind it keeps use counts exact and every live reference showing its bytes. |
| `ParserSession.ShownBatch` | src/dbn_parser_component.hpp:285-309 | A delivered batch joins the records: the earlier ones still show what they did, the new ones show what was parsed. |
| `ParserSession.ShownDropped` | src/dbn_parser_component.hpp:268-299 | Letting go of one record leaves what the others show. |
| `ParserSession.ShowsParse` | src/dbn_parser_component.hpp:170-309 | What the chunks' records show is the reference reading of their concatenation, as far as it is delivered. |
| `ParserSession.Session.Parse` | src/dbn_parser_component.hpp:170-309 | One OnData on the session: one more chunk for the reference, everything delivered earlier still shown. |
| `ParserSession.Session.Run` | src/dbn_parser_component.hpp:170-309 | Every run keeps: the parser's state, chain and records are those of the chunks received, in exactly accounted memory. |
| `DbnParser.Parser.OnComplete` | src/dbn_parser_component.hpp:322-328 | Forwards completion unless an error came first; it can forward it twice. |
| `DbnParser.Parser.OnCompleteChain` | src/dbn_parser_component.hpp:331-345 | At the end of a stream leftover bytes are an error, and the only one. |
| `DbnParser.Parser.OnError` | src/dbn_parser_component.hpp:312-319 | The first error only is forwarded. |
| `LiveStream.FeedKeeps` | src/cram_auth.hpp:279-283 | Handing the streaming chain to the parser keeps: records so far, then the reference reading of streaming and pending bytes, is the reference reading of everything received. |
| `LiveStream.QueueKeeps` | src/cram_auth.hpp:365-371 | Bytes that arrive while suspended join the pending chain in order, within 16 MiB. |
| `LiveStream.SpliceKeeps` | src/cram_auth.hpp:268-276 | Moving the pending chain behind the streaming chain keeps the order of all bytes. |
| `LiveStream.NothingWithheld` | src/cram_auth.hpp:224-234 | While nobody suspends the stream, received = parsed + streaming chain, within 16 MiB, and every record the reference can read has been delivered. |
| `LiveStream.EndOfStream` | src/cram_auth.hpp:662-683 | After OnDone with every hold released, the sink has seen exactly one terminal signal; without overflow or upstream error it is completion exactly when the reference reads every byte without error. |
| `LiveStream.CompletedDelivers` | src/cram_auth.hpp:662-683 | When completion has been signalled, the sink has got every record the reference reads. |
| `LiveStream.Stream.OnData` | src/cram_auth.hpp:353-371 | Suspended, the chunk waits behind what waited; otherwise everything waiting and the chunk go to the parser, exactly so as long as it all fits in 16 MiB. Overflow needs more than that, also under callbacks that take and release holds. A closed component takes nothing; the stream invariant holds under any re-entrant callbacks, and without a Resume among them no completion is signalled behind a close. |
| `LiveStream.Stream.ProcessPending` | src/cram_auth.hpp:224-227 | Drains the pending chain unless the sink suspends again; keeps the stream invariant. |
| `LiveStream.Stream.FlushAndComplete` | src/cram_auth.hpp:229-234 | Afterwards the end of the stream has been signalled or is deferred again, never forgotten. Under any callbacks it signals completion behind a close only if everything waiting could be read to its end, and not at all from an open component with nothing pending; without callbacks exactly when it was closed and everything could be read. |
| `LiveStream.Stream.CompleteDeferred` | lib/stream/component.hpp:303-308 | The end of Resume: under any callbacks, a completion behind a close needs a component closed by then, an OnDone deferred, no hold and everything readable; without callbacks these suffice. |
| `LiveStream.Stream.Resume` | lib/stream/component.hpp:290-310 | Releases one hold and keeps the stream invariant under re-entry, from upstream too. A call goes through the reset downstream pointer exactly when the last hold is released after DoClose with an OnDone still deferred and nothing signalled. Completion follows a close made before the call exactly when (necessary under any callbacks, sufficient without) the last hold is released with an OnDone deferred and everything waiting readable to its end; and a close made inside the call, at the first turn of the sink or of upstream, exactly then too. |
| `LiveStream.Stream.OnDone` | src/cram_auth.hpp:662-683 | Deferred while suspended; otherwise the stream ends, under any callbacks, and never with a completion behind a close. |
| `LiveStream.Stream.FlushPendingData` | lib/stream/component.hpp:248-261 | Completion is held back exactly for a new suspension or for leftover bytes, which are an error. |
| `LiveStream.Stream.EmitError` | lib/stream/component.hpp:212-217 | The error reaches the sink, which may react, if nothing terminal has before, and never a second signal. |
| `LiveStream.Stream.Run` | src/cram_auth.hpp:353-371 | Every run, with every re-entrant behaviour of foreign code on both sides, keeps the stream invariant. |
| `LiveStream.DeferredDoneOutlivesClose` | lib/stream/component.hpp:304-309 | A run in which Resume calls through the downstream pointer DoClose has reset. |
| `LiveStream.CompletionFollowsClose` | lib/stream/component.hpp:303-309 | A run in which completion is signalled on a component closed before Resume. |
| `LiveStream.CompletionFollowsCloseUpstream` | lib/stream/component.hpp:297-308 | A run in which upstream closes the stream inside Resume and completion follows. |
| `LiveStream.CompletionFollowsCloseBySink` | lib/stream/component.hpp:296-308 | A run in which the sink closes the stream when Resume hands it a record that had waited, and completion follows. |
| `Backpressure.SuspendedUpToHead` | lib/stream/component.hpp:279-310 | If any stage is suspended, every stage up to the head is, through all nesting of Suspend and Resume. |
| `Backpressure.OneHoldExactly` | lib/stream/component.hpp:290-310 | Between events a stage has exactly one hold on its upstream while suspended and none otherwise, if and only if no last hold on it was ever released after a close and none of its ProcessPending calls ended with it suspended. |
| `Backpressure.NoLeakExactly` | lib/stream/component.hpp:290-310 | At any moment, inside calls too, no hold has leaked if and only if neither of the two has happened. |
| `Backpressure.LateReleaseLeaks` | lib/stream/component.hpp:290-302 | Resume of the last hold on a closed stage leaks its hold on upstream and changes no other stage. |
| `Backpressure.ResuspensionLeaks` | lib/stream/component.hpp:290-301 | Resume whose ProcessPending suspends the stage again leaks one hold and takes a second. |
| `Backpressure.LeakSuspendsUpstream` | lib/stream/component.hpp:295-301 | Such a leaked hold is never given back: the upstream stage stays suspended for good. |
| `Backpressure.AllReleased` | lib/stream/component.hpp:279-310 | Without a leak, releasing every outside hold resumes the whole pipeline. |
| `Components.OverSuspended` | lib/stream/component.hpp:290-301 | A real run: ProcessPending re-suspends, that hold is released, nobody holds anything and the head is suspended. |
| `Components.HeldByClosed` | lib/stream/component.hpp:290-302 | Another: a stage is suspended, closed and released, and the head stays suspended. |
| `Backpressure.ResumeUndoesSuspend` | lib/stream/component.hpp:279-310 | When no foreign code reacts, Resume restores every stage up to the head to what it was before Suspend, up to the history of releases. |
| `Backpressure.SuspendKeeps` | lib/stream/component.hpp:279-285 | Taking a hold keeps: holds on upstream = Resume frames in flight + 1 if suspended + leaks, on every stage. |
| `Backpressure.GiveBackKeeps` | lib/stream/component.hpp:295-301 | Resuming upstream keeps the same equation. |
| `Backpressure.ClosesOnce` | lib/stream/component.hpp:148-194 | DoClose starts at most once and only after a request, every request has scheduled it once no guard is left, it never starts under a guard, and without a reset at most one terminal signal is emitted. |
| `Components.Component.Suspend` | lib/stream/component.hpp:279-285 | Passes the first hold on towards the head, exactly as the pipeline function says. |
| `Components.Component.Resume` | lib/stream/component.hpp:290-310 | Keeps the hold equation under any re-entry; when ProcessPending does nothing or suspends a stage again, its effect on the whole pipeline is exactly the specified one. |
| `Components.Component.EndGuard` | lib/stream/component.hpp:153-159 | The last guard carries out a pending close, with what that leads to; DoClose has never started while a guard was alive. |
| `Components.Component.RequestClose` | lib/stream/component.hpp:184-194 | Closes once. With a guard alive it waits for the last one; otherwise it is queued and nothing runs if there is a defer callback, and DoClose runs, with whatever it leads to, if there is none. |
| `Components.Component.ScheduleClose` | lib/stream/component.hpp:346-364 | Without a defer callback DoClose starts now, with one it is queued and does not; never twice. |
| `Components.Component.Emit` | lib/stream/component.hpp:212-225 | One-shot, under a guard even after a close, for any reaction downstream. |
| `Components.Component.OnData` | lib/stream/component.hpp:174-177 | A closed component does nothing; otherwise the work runs under a guard, and what it does to the pipeline is done. |
| `Components.Pipeline.Run` | lib/stream/component.hpp:279-364 | Every run of a pipeline of any length keeps all of this. |
| `Handshake.CheckResponse` | src/cram_auth.hpp:509-572 | The loop over bars accepts exactly when the line does not start with err= and its last success field, if any, is 1. |
| `Handshake.AcceptsExactly` | src/cram_auth.hpp:509-572 | In plain terms: a line is accepted exactly when it does not start with err= and either no text between its bars starts with success= or the last one that does is success=1. |
| `Handshake.RefusedLines` | src/cram_auth.hpp:485-572 | A line without cram= where a challenge is due, and a refused reply, fail with their own error and write nothing. |
| `Handshake.EndsInError` | src/cram_auth.hpp:657-673 | At any point of any run: the end of the connection before the switch, and an upstream error, are reported unless an error was, and one error is all there is. |
| `Handshake.ScanFields` | src/cram_auth.hpp:528-560 | What the loop remembers is the last field with the key, wherever it stands. |
| `Handshake.CramAuth.ProcessLineBuffer` | src/cram_auth.hpp:397-449 | Handles the one complete line and empties the buffer; the branch for leftover bytes is dead. |
| `Handshake.CramAuth.OnTextData` | src/cram_auth.hpp:374-394 | The byte loop with its limit, line ends and switch to binary is the specified reading of the chunk. |
| `Handshake.CramAuth.OnData` | src/cram_auth.hpp:353-362 | A closed component takes nothing; text and binary go to their halves. |
| `Handshake.CramAuth.ProcessLine` | src/cram_auth.hpp:452-574 | Each state does with a line what the protocol says; any greeting is accepted. |
| `Handshake.CramAuth.Subscribe` | src/cram_auth.hpp:577-590 | Replaces the queued request and sends it at once in Ready. |
| `Handshake.CramAuth.SendPendingSubscription` | src/cram_auth.hpp:593-623 | Numbers and sends the queued request once, then the start line if it was asked for. |
| `Handshake.CramAuth.StartStreaming` | src/cram_auth.hpp:626-634 | Remembers the wish and starts at once when a subscription is out. |
| `Handshake.CramAuth.SendLine` | src/cram_auth.hpp:637-654 | A line longer than a segment is refused with an error and a close. |
| `Handshake.CramAuth.OnDone` | src/cram_auth.hpp:662-673 | Before the switch the end of the connection is an error. |
| `Handshake.ApplyKeeps` | src/cram_auth.hpp:452-634 | Every call keeps the transcript invariant; the state only advances, and after the switch nothing more is written. |
| `Handshake.TranscriptComplete` | src/cram_auth.hpp:593-654 | Over every interleaving the lines written are one auth line, subscriptions numbered from 1 (modulo 2^32), then at most one start_session, exactly when every one of these lines fits a segment; streaming implies a subscription. |
| `Handshake.ReadyHasSent` | src/cram_auth.hpp:577-634 | In Ready nothing asked for is unsent, and once streaming nothing further is ever written: a later Subscribe is dropped. |
| `Handshake.TextSplit` | src/cram_auth.hpp:374-394 | Reading on from where a first part stopped is reading both parts together, always. |
| `Handshake.TwoChunks` | src/cram_auth.hpp:353-394 | Two chunks leave the same state as one exactly when the first leaves the component open, or no complete line of the second, up to a full buffer, acts: a challenge while one is awaited, an acceptance while authenticating; or, once binary, there is no second. |
| `Handshake.AfterFailure` | src/cram_auth.hpp:374-394 | After a failure the rest of the chunk changes nothing exactly when none of its complete lines acts. |
| `Handshake.SegmentationIndependent` | src/cram_auth.hpp:353-394 | Lines written and binary bytes depend only on the concatenated input, as long as nothing fails. |
| `Handshake.FailedLineDoesNotStop` | src/cram_auth.hpp:374-394 | A challenge behind a failed line is answered in the same chunk and not in the next. |
| `Handshake.TextLine` | src/cram_auth.hpp:397-449 | A line that fits the 8 KiB buffer has the effect of that line and leaves the buffer empty. |
| `Handshake.Dialogue` | src/cram_auth.hpp:353-634 | A client that subscribed and started beforehand: however the server's three good lines and the data behind them are cut, it authenticates, subscribes as number 1, starts, and passes on every byte after the third line. |
| `Handshake.AuthRead` | src/cram_auth.hpp:97-138 | A server that reads the auth line key by key finds the digest of challenge, bar and API key, with the last five characters of a key that has them, the dataset and the fixed fields. |
| `Handshake.RequestBack` | src/cram_auth.hpp:593-623 | A server that reads the subscription line key by key gets every field of the request back, and its number. |
| `Handshake.DialogueInText` | src/cram_auth.hpp:353-654 | With texts for lines, ended by LF or CR LF and cut anywhere: whatever was subscribed and set before the greeting, the client writes the answer to this challenge for the last dataset, the last subscription as number 1, and start_session, and passes on what follows. |
| `Handshake.SubscribeInReady` | src/cram_auth.hpp:577-623 | In Ready a subscription goes out at once with the next number, and the start behind it if asked for. |
| `LiveSession.PiecesAreBinary` | src/cram_auth.hpp:353-371 | The pieces handed over chunk by chunk are the bytes handed over, in order. |
| `LiveSession.SessionReads` | src/cram_auth.hpp:353-449 | However a good dialogue with the stream behind it is cut, the parser fed piece by piece ends as if it had read everything after the third line at once. |
| `LiveSession.WholeSession` | src/cram_auth.hpp:353-683 | For every cut of the server's bytes, with holds taken and released between chunks and in callbacks in any nesting: nothing overflows unless more than 16 MiB follow the third line; once every hold is released and nothing has overflowed, the sink has heard exactly one terminal signal after OnDone, completion if and only if those bytes read to their end, and then it has exactly their records. |
| `Zstd.ZstdDecompressor.DecompressOnce` | lib/stream/zstd_decompressor.hpp:220-254 | What one decoder call takes in is fed, what it gives out is shown downstream; each error has its cause. |
| `Zstd.ZstdDecompressor.DecompressChain` | lib/stream/zstd_decompressor.hpp:209-258 | Feeds the chain in order until it is empty or downstream suspends; what is not fed is returned. |
| `Zstd.ZstdDecompressor.CopyToPendingInput` | lib/stream/zstd_decompressor.hpp:99-117 | Moves the rest of a partly consumed chain behind the pending input without losing a byte, or reports overflow exactly when it does not fit. |
| `Zstd.ZstdDecompressor.OnData` | lib/stream/zstd_decompressor.hpp:176-200 | Every byte of the chunk is fed once, in order, or pending; nothing is pending unless downstream suspended. |
| `Zstd.ZstdDecompressor.Resume` | lib/stream/component.hpp:290-310 | The last release shows the left-over output again, reads the pending input on and answers a deferred OnDone. Output is shown once more behind an error exactly when the last hold is released with an OnDone deferred on a component that has failed, before or in this call, at the end of a frame with output left over. |
| `Zstd.OutputBehindError` | lib/stream/component.hpp:290-310 | A run in which that happens. |
| `Zstd.ZstdDecompressor.AnswerDone` | lib/stream/zstd_decompressor.hpp:67-87 | Taking up the deferred OnDone shows left-over output behind an error exactly then. |
| `Zstd.ZstdDecompressor.OnDone` | lib/stream/zstd_decompressor.hpp:266-295 | Answered at once with exactly one signal, or deferred while suspended; the branch that drains pending input first is dead. |
| `Zstd.ZstdDecompressor.FlushAndComplete` | lib/stream/zstd_decompressor.hpp:67-87 | Completion needs a finished frame, all input fed and all output taken. |
| `Zstd.ZstdDecompressor.Run` | lib/stream/zstd_decompressor.hpp:167-295 | Every schedule, with the deferred DoClose at any moment after a close, keeps this, with everything upstream sends before its OnDone received while nothing has been signalled; after OnDone without holds there has been exactly one signal. |
| `Zstd.ZstdDecompressor.DoClose` | lib/stream/zstd_decompressor.hpp:167-173 | Clears both chains and lets downstream go; everything above still holds, and no later call goes through the reset pointer. |
| `Zstd.Decompresses` | lib/stream/zstd_decompressor.hpp:176-295 | For a decoder of a format: what downstream has seen is a prefix of the meaning of the bytes fed, and on completion downstream has taken the meaning of everything received. |
| `TradingDate.Epoch` | src/trading_date.hpp:122-136 | Day 0 is 1970-01-01. |
| `TradingDate.Successor` | src/trading_date.hpp:124-136 | Every day's date is valid, and the next day's is its Gregorian successor, before 1970 too. |
| `TradingDate.Increasing` | src/trading_date.hpp:124-136 | Later days have later dates. |
| `TradingDate.Bijection` | src/trading_date.hpp:124-136 | Days and valid dates correspond one to one; the day-number function is the inverse. |
| `TradingDate.StoredExactly` | src/trading_date.hpp:118-141 | The stored date is the civil date exactly on the days -12687794 to 11248737, whose years fit 16 bits. |
| `TradingDate.OperatorsCompareDays` | src/trading_date.hpp:92-116 | On valid dates the six comparison operators are those of the day numbers. |
| `PgCopy.SwapStoresBigEndian` | src/pg/byte_buffer.cpp:8-30 | On a little-endian machine the memory image of the byte-swapped number is its big-endian form. |
| `PgCopy.ByteBuffer.PutInt32` | src/pg/byte_buffer.cpp:16-22 | Appends the number modulo 2^32, most significant byte first. |
| `PgCopy.EncodeField` | src/pg/pg_types.hpp:13-95 | Each column type appends a length word and its payload. |
| `PgCopy.EncodeRow` | src/pg/mapper.hpp:23-29 | The loop over columns appends the count and every field in order. |
| `PgCopy.WriteCopyHeader` | src/pg/mapper.hpp:31-45 | Signature, no flags, no extension. |
| `PgCopy.TimestampMeaning` | src/pg/pg_types.hpp:49-58 | The stored time is the time given, cut towards 1970 to a whole microsecond and counted from 2000-01-01, and always fits. |
| `PgCopy.EpochIsYear2000` | src/pg/pg_types.hpp:53-54 | The offset is the first moment of the civil date 2000-01-01. |
| `PgCopy.PayloadBack` | src/pg/pg_types.hpp:13-95 | Every payload decodes, by its column type, to the value's meaning. |
| `PgCopy.FieldBack` | src/pg/pg_types.hpp:69-75 | A field is read back exactly when it is not a text of 2^31 bytes or more. |
| `PgCopy.CopyRoundTrip` | src/pg/mapper.hpp:23-50 | Header, rows and trailer decode to what the rows mean, for a decoder written from the COPY documentation, exactly when every row has fewer than 2^15 columns and texts below 2^31 bytes. |
| `PgCopy.WriteBatch` | example/dbwriter/include/dbwriter/batch_writer.hpp:239-266 | However the rows are cut at the 1 MiB threshold, the chunks sent concatenate to the encoded rows; only the last may be below the threshold and none is empty. |
| `RangeText.PrintRanges` | src/duckdb_storage.hpp:145-157 | The loop prints the bracketed, comma-separated list. |
| `RangeText.ParseRanges` | src/duckdb_storage.hpp:345-373 | Terminates on every string with the specified reading. |
| `RangeText.StoullPrint` | src/duckdb_storage.hpp:358-359 | stoull reads back printed 64-bit numbers. |
| `RangeText.StoullMeaning` | src/duckdb_storage.hpp:358-359 | Behind spaces and a sign stoull reads the digits up to the first other character, negated modulo 2^64 behind a minus, and throws when they exceed 64 bits. |
| `RangeText.StoullThrows` | src/duckdb_storage.hpp:358-359 | It throws when no digit follows. |
| `RangeText.RoundTrip` | src/duckdb_storage.hpp:145-373 | Every list of 64-bit ranges is read back from its text. |
| `RangeText.CutOff` | src/duckdb_storage.hpp:345-373 | A text cut off inside its next range keeps the ranges before it. |
| `RangeText.BadNumber` | src/duckdb_storage.hpp:345-373 | A range whose numbers do not parse costs the whole list. |
| `InstrumentMap.UpperBound` | src/instrument_map.hpp:115-121 | The bisection finds the first interval that starts after the date. |
| `InstrumentMap.InstrumentMap.Insert` | src/instrument_map.hpp:85-99 | The instrument's list is sorted and has exactly what was inserted for it; other instruments keep theirs. |
| `InstrumentMap.InstrumentMap.Resolve` | src/instrument_map.hpp:105-133 | For inserts that are non-empty and pairwise disjoint, a symbol is returned exactly when it is that of an inserted interval with the date in it; storage is asked only about unknown instruments. |
| `InstrumentMap.ConsecutiveAgrees` | src/instrument_map.hpp:105-133 | The last interval that has started is the only one that can have the date. |
| `InstrumentMap.ResolveExactly` | src/instrument_map.hpp:85-133 | For a sorted list without overlaps the search is right about every date exactly when no empty interval sits behind one it falls into. |
| `InstrumentMap.RightInEveryOrder` | src/instrument_map.hpp:85-133 | For pairwise disjoint inserts, however the sort orders equal starts: every resulting list is right about every date if and only if no inserted interval has the start of an empty one in it. |
| `InstrumentMap.RightInSomeOrder` | src/instrument_map.hpp:85-133 | Some resulting list is right about every date if and only if no empty interval lies strictly inside another. |
| `Symbology.SymbologyBuilder.Run` | src/api/symbology_client.hpp:89-213 | The callbacks drive the machine through a whole document as specified. |
| `Symbology.SymbologyBuilder.OnEndObject` | src/api/symbology_client.hpp:158-178 | Saves an interval only if complete, and leaves the right level. |
| `Symbology.FieldsMeanInterval` | src/api/symbology_client.hpp:98-134 | Members in any order, with extras and repetitions: the last usable value of each of d0, d1 and s counts. |
| `Symbology.BuildsTheDocument` | src/api/symbology_client.hpp:89-222 | For every document the machine ends at the root, and the response has exactly the complete intervals the document has for each symbol, in order, and its two lists. |
| `Symbology.RoundTrip` | src/api/symbology_client.hpp:89-222 | Every response is rebuilt from its JSON, its symbols written as strings or as the numbers they denote, without incomplete intervals and without symbols left with none. |
| `Symbology.NumberText` | src/api/symbology_client.hpp:123-137 | A numeric symbol becomes the number's usual decimal text. |
| `Symbology.UselessField` | src/api/symbology_client.hpp:98-137 | A member under another key, a date that is no string and a symbol that is neither string nor integer change nothing, wherever they stand. |
| `Symbology.NestedObject` | src/api/symbology_client.hpp:139-178 | An object among an interval's members ends the interval at its own end: what was read up to there is saved if complete, what follows is ignored; harmless exactly when both readings keep the same. |
| `Symbology.NestedArray` | src/api/symbology_client.hpp:180-213 | An array of scalars counts as repeated members with its key; under any key but the three it is harmless. |
| `Symbology.NestedAtRoot` | src/api/symbology_client.hpp:139-213 | Any nesting at the root stays there exactly when no object opens under the key result and no array under partial or not_found, and then changes nothing but the current key. |
| `Symbology.NestedObjectLosesInterval` | src/api/symbology_client.hpp:158-172 | An object ahead of an interval's three fields loses the interval. |
| `BatchWriter.Queue.Enqueue` | example/dbwriter/include/dbwriter/batch_writer.hpp:96-108 | Accepts unless stopping or draining, suspends upstream above the high mark, and makes sure a writer exists. |
| `BatchWriter.Queue.RequestStop` | example/dbwriter/include/dbwriter/batch_writer.hpp:113-121 | Discards what is pending and resumes upstream. |
| `BatchWriter.StopDiscards` | example/dbwriter/include/dbwriter/batch_writer.hpp:113-121 | Over every run a stop discards exactly what waits, and nothing waits or is accepted afterwards. |
| `BatchWriter.Queue.NextRound` | example/dbwriter/include/dbwriter/batch_writer.hpp:198-205 | Takes everything that waits into one write, or ends. |
| `BatchWriter.Queue.EndWrite` | example/dbwriter/include/dbwriter/batch_writer.hpp:207-217 | The write is over, recorded as written or as failed; upstream is resumed below the low mark and the loop goes on. |
| `BatchWriter.NothingLost` | example/dbwriter/include/dbwriter/batch_writer.hpp:96-217 | After every run each accepted batch is, in order, in a finished write, being written, discarded by a stop or pending; pending work has a writer unless stopped. |
| `BatchWriter.WrittenExactly` | example/dbwriter/include/dbwriter/batch_writer.hpp:96-217 | Once the writer is idle the batches written are all those accepted, in order, if and only if no step of the run was a stop that found work waiting, a drain timeout that found work waiting, or a failed write. |
| `BatchWriter.DrainWritesEverything` | example/dbwriter/include/dbwriter/batch_writer.hpp:146-174 | Two turns of the writer end any drain, and then everything accepted is written if and only if the run was clean in that sense. |
| `BatchWriter.DrainLosesFailedWrite` | example/dbwriter/include/dbwriter/batch_writer.hpp:207-213 | A drain without stop or timeout that loses a batch: its write fails. |
| `BatchWriter.TimeoutLeavesPending` | example/dbwriter/include/dbwriter/batch_writer.hpp:164-171 | A drain that times out leaves exactly what was waiting, neither written nor discarded, whatever follows but a stop. |
| `BatchWriter.DrainLeavesBatch` | example/dbwriter/include/dbwriter/batch_writer.hpp:164-171 | A run in which that is a batch. |
| `BatchWriter.ApplyKeeps` | example/dbwriter/include/dbwriter/batch_writer.hpp:295-308 | Each step keeps: the flag says what upstream was told last, and Resume only undoes a Suspend. |
| `BatchWriter.IdleIsResumed` | example/dbwriter/include/dbwriter/batch_writer.hpp:295-308 | No run leaves upstream suspended with an idle writer, exactly when the low-water mark is positive. |
| `BatchWriter.FlagExactly` | example/dbwriter/include/dbwriter/batch_writer.hpp:295-308 | After every run, step by step: a batch that leaves more than the high mark waiting suspends upstream, the end of a write resumes it exactly when fewer than the low mark wait, a stop and a drain always do, nothing else does. |
| `BatchWriter.CallsExactly` | example/dbwriter/include/dbwriter/batch_writer.hpp:295-308 | Upstream is called exactly then: a Suspend for each such batch, a Resume when the flag falls. |
| `BatchWriter.HoldsExactly` | example/dbwriter/include/dbwriter/batch_writer.hpp:295-308 | After every run an upstream that counts is held once for every Suspend directly behind a Suspend, plus once while the flag is up; those are exactly the batches accepted while the flag was already up and more than the high mark waited. |
| `BatchWriter.IdleHoldsNothing` | example/dbwriter/include/dbwriter/batch_writer.hpp:295-308 | No run leaves a counting upstream held with an idle writer, exactly when there is no upstream. |
| `BatchWriter.CountingUpstreamSticks` | example/dbwriter/include/dbwriter/batch_writer.hpp:295-308 | For every pair of marks, a run that ends idle, not suspended if the low mark is positive, and holds a counting upstream. |
| `BufferChains.BufferChain.ContiguousSize` | lib/stream/buffer_chain.hpp:240-243 | The bytes reachable from the front without crossing a segment; none when empty. |
| `BufferChains.BufferChain.Size` | lib/stream/buffer_chain.hpp:230-230 | The cached total is the length of the contents. |
| `DbnParser.Parser.HeaderSize` | src/dbn_parser_component.hpp:186-211 | Aligned, misaligned or spanning, the header read gives the record's size. |
| `DbnParser.Parser.FindAligned` | src/dbn_parser_component.hpp:236-247 | Says zero-copy is possible exactly for a contiguous, 8-byte aligned record, and then where it lies. |
| `DbnParser.Parser.NeedsConversion` | src/dbn_parser_component.hpp:249-266 | The record type decides, read directly or through the chain. |
| `DbnParser.Parser.MakeRef` | src/dbn_parser_component.hpp:268-299 | Zero-copy exactly for a contiguous, aligned record that needs no conversion; whichever route is taken, the reference shows the converted record or the same bytes, as its version and type call for. |
| `LiveStream.Stream.Fits` | src/cram_auth.hpp:268-277 | Refuses exactly what would pass the limit, and then ends the stream. |
| `LiveStream.Stream.SplicePending` | src/cram_auth.hpp:268-277 | The pending chain goes behind the streaming chain, or the stream ends. |
| `LiveStream.Stream.ForwardBinaryData` | src/cram_auth.hpp:279-283 | Pending bytes first, then the new ones, then the parser, exactly, whenever the three fit in 16 MiB together; keeps the stream invariant. |
| `LiveStream.Stream.EmitDone` | lib/stream/component.hpp:220-225 | Completion is signalled once, and a reset downstream pointer is called exactly when there is one. The mark for a completion behind a close is set exactly when the component is closed, not let go, not finalized and the parser has not failed. |
| `LiveStream.Stream.OnError` | src/cram_auth.hpp:657-659 | The sink hears of it unless something terminal came first, and the component is closed; never a completion behind a close. |
| `LiveStream.Stream.RunDeferred` | src/cram_auth.hpp:345-350 | DoClose drops both chains and the downstream pointer, of a closed component only. |
| `Components.Component.DeferOnDone` | lib/stream/component.hpp:333-335 | An OnDone is marked as deferred; nothing else changes. |
| `Components.Component.CompleteDone` | lib/stream/component.hpp:303-308 | A deferred OnDone is taken up, with what that leads to, unless the component is suspended. |
| `Components.Component.SettleWithUpstream` | lib/stream/component.hpp:297-301 | Upstream is resumed unless the component was suspended again or has none; then the hold is recorded as leaked, exactly. |
| `Components.Component.RunDeferred` | lib/stream/component.hpp:352-360 | The event loop starts a queued DoClose once, with no guard alive, and whatever it leads to; no other call starts one of a component with a defer callback. |
| `Components.Component.ResetFinalized` | lib/stream/component.hpp:204-204 | Allows one more terminal signal. |
| `Handshake.CramAuth.OnError` | src/cram_auth.hpp:657-659 | An upstream error is reported once and closes. |
| `Handshake.TextKeeps` | src/cram_auth.hpp:374-394 | Any chunk keeps the transcript invariant, the buffer limit and the absence of complete lines in the buffer. |
| `Zstd.ZstdDecompressor.ForwardData` | lib/stream/component.hpp:230-234 | Downstream is shown all of the output, takes exactly what it takes and suspends as often as it does; the rest stays; true exactly when suspended. |
| `Zstd.ZstdDecompressor.Queue` | lib/stream/zstd_decompressor.hpp:180-190 | New input joins waiting input, or overflow is reported exactly when it does not fit. |
| `Zstd.ZstdDecompressor.Read` | lib/stream/zstd_decompressor.hpp:191-199 | New input is read at once and the rest is kept. |
| `Zstd.ZstdDecompressor.ProcessPending` | lib/stream/zstd_decompressor.hpp:60-65 | Left-over output is shown again first; then no input waits unless downstream suspends. |
| `Zstd.ZstdDecompressor.FlushOutput` | lib/stream/component.hpp:248-271 | Either the stream ends with one signal or it is deferred again by a suspension. |
| `PgCopy.ByteBuffer.PutInt16` | src/pg/byte_buffer.cpp:8-14 | Appends the number modulo 2^16, most significant byte first. |
| `PgCopy.ByteBuffer.PutInt64` | src/pg/byte_buffer.cpp:24-30 | Appends the number modulo 2^64, most significant byte first. |
| `PgCopy.WriteCopyTrailer` | src/pg/mapper.hpp:47-50 | The count -1, which the decoder takes as the end. |
| `PgCopy.RowsBack` | src/pg/mapper.hpp:23-50 | The tuples before the trailer decode to the rows exactly when every row is storable. |
| `Symbology.SymbologyBuilder.OnKey` | src/api/symbology_client.hpp:89-96 | In the result object a key is also the current symbol. |
| `Symbology.SymbologyBuilder.OnString` | src/api/symbology_client.hpp:98-121 | A string is a field, a list item or nothing, by level and key. |
| `Symbology.SymbologyBuilder.OnStartObject` | src/api/symbology_client.hpp:139-156 | Enters the result object or a fresh interval. |
| `Symbology.SymbologyBuilder.OnStartArray` | src/api/symbology_client.hpp:180-198 | Enters one of the two lists or a symbol's array. |
| `Symbology.SymbologyBuilder.OnEndArray` | src/api/symbology_client.hpp:200-213 | Leaves a list to the root and a symbol's array to the result object. |
| `Symbology.SymbologyBuilder.OnInt` | src/api/symbology_client.hpp:123-128 | An integer is taken for s only. |
| `BatchWriter.Queue.DrainBegin` | example/dbwriter/include/dbwriter/batch_writer.hpp:146-152 | Accepts nothing more and resumes upstream. |
| `BatchWriter.Queue.DrainTimeout` | example/dbwriter/include/dbwriter/batch_writer.hpp:164-171 | Stops the writer after its current batch; what is pending stays. |
| `BatchWriter.Queue.StartWriter` | example/dbwriter/include/dbwriter/batch_writer.hpp:182-203 | The coroutine's first turn. |

## Left out

- Sockets, TLS, DNS, HTTP, JSON tokenizing, libpq, DuckDB's SQL and the coroutine scheduler: foreign code.
- Moving a BufferChain (the defaulted C++ move leaves a stale size behind) and copying a SegmentAllocator: one allocator, chains that stay put.
- The write side of a socket's chains and the write callback re-entering the handshake.
- Converters that read past the end of a short old-version record: a converter is a function of version and record bytes.
- The scratch buffers' memory resource: scratch bytes are values.
- LiveStream keeps its chains as flat bytes; BufferChains, DbnParser and ParserSession justify that. Its holds on upstream and its guard counts are in Components.
- Atomic orderings of the suspend count: suspends and resumes are steps of one thread.
- The text of error messages, the greeting's contents and the session id.
- ParserSession: two chains share the memory with hands and records there, and the size limit of a splice is LiveStream's; any number of chains is in SharedSegments.
- LiveSession: closes from outside, upstream errors and the event loop's DoClose during a session are in LiveStream.
- Handshake: its write callback and error signals do not call back in; closing from outside during the handshake is in Components only.
- Zstd: Resume from inside a downstream OnData (it would feed the pending input twice), a close from outside, OnError from upstream, and the calls on upstream, with what upstream does inside them.
- PgCopy: the NULL encoding, which no column type uses, and doubles beyond their bits.
- InstrumentMap: conversion of message timestamps to dates by time zone, and that DuckDB's lookup takes the end date as inclusive.
- Symbology: extra members nested more than one level inside an interval, and arrays or objects directly among a symbol's intervals.
- BatchWriter: an upstream or error handler that calls back in, SQL staging and deduplication, the statistics.
- TradingDate: ISO text, time zones, and day numbers so large that the 32-bit shift overflows.
- Retry policy, enum and string tables, SHA-256 itself, URL, Base64 and form encoding: only easy members.
