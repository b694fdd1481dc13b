/** The parser over real memory, for whole streams. Segments are allocated, filled and appended
    to the parser's chain, or to a second chain that is compacted and spliced behind it later;
    between that, others take segments from the pool and give them back, and the sink lets go of
    records whenever it likes. The records still held show, in the final heap,
    the reference reading of everything received. */
module ParserSession {
  import opened Bytes
  import opened Segments
  import opened SharedSegments
  import opened Tracking
  import opened DbnFormat
  import opened DbnParser
  import opened BufferChains
  import Spec = ChainSpec

  datatype Act =
    | Receive(segments: seq<seq<byte>>)      // one segment for each, then OnData
    | Queue(segments: seq<seq<byte>>)        // the same, but to the second chain, and no OnData
    | Join                                   // CompactAndSplice of the second chain, then OnData
    | Acquire                                // somebody else allocates
    | Fill(hand: nat, bytes: seq<byte>)      // and writes
    | Recycle(hand: nat)                     // and gives the segment back
    | Discard(record: nat)                   // the sink lets go of a record

  /** What a segment takes of the bytes written to it. */
  function Fits(bytes: seq<byte>): seq<byte> { bytes[..Min(|bytes|, SEGMENT_SIZE)] }

  function Arrived(segments: seq<seq<byte>>): seq<byte> {
    if segments == [] then [] else Arrived(segments[..|segments| - 1]) + Fits(segments[|segments| - 1])
  }

  /** What waits in the second chain after one more act, and what it lets OnData find. */
  function NextQueued(queued: seq<byte>, act: Act): seq<byte> {
    match act
    case Queue(segments) => queued + Arrived(segments)
    case Join => []
    case _ => queued
  }

  function NextChunks(queued: seq<byte>, act: Act): seq<seq<byte>> {
    match act
    case Receive(segments) => [Arrived(segments)]
    case Join => [queued]
    case _ => []
  }

  /** What waits in the second chain after the run. */
  function QueuedBy(acts: seq<Act>): seq<byte> {
    if acts == [] then [] else NextQueued(QueuedBy(acts[..|acts| - 1]), acts[|acts| - 1])
  }

  /** The new bytes each OnData of the run finds. */
  function ChunksOf(acts: seq<Act>): seq<seq<byte>> {
    if acts == [] then []
    else ChunksOf(acts[..|acts| - 1]) + NextChunks(QueuedBy(acts[..|acts| - 1]), acts[|acts| - 1])
  }

  /** Every record delivered so far. */
  function AllRecords(batches: seq<seq<RecordRef>>): seq<RecordRef> {
    if batches == [] then [] else AllRecords(batches[..|batches| - 1]) + batches[|batches| - 1]
  }

  /** Every record the sink still holds shows its expected bytes; the world's live references
      are exactly those of the records still held. */
  ghost predicate Shown(w: World, records: seq<RecordRef>, dropped: set<nat>, expected: seq<seq<byte>>) {
    var n := |RefsOf(records, dropped)|;
    && |records| == |expected| && (forall i :: i in dropped ==> i < |records|)
    && n <= |w.refs| && w.refs[..n] == RefsOf(records, dropped) && AllDead(w.refs[n..])
    && forall i :: 0 <= i < |records| && i !in dropped ==> RefBytes(w.mem.heap, records[i]) == expected[i]
  }

  /** No reference was taken since the last record: the next batch's come right behind. */
  ghost predicate Tight(w: World, records: seq<RecordRef>, dropped: set<nat>) {
    w.refs == RefsOf(records, dropped)
  }

  lemma {:induction false} RecordStable(w: World, w': World, records: seq<RecordRef>, dropped: set<nat>, i: nat)
    requires Stable(w, w') && i < |records| && i !in dropped
    requires var n := |RefsOf(records, dropped)|;
             n <= |w'.refs| && w'.refs[..n] == RefsOf(records, dropped) && n <= |w.refs|
    ensures RefBytes(w'.mem.heap, records[i]) == RefBytes(w.mem.heap, records[i])
  {
    if records[i].ZeroCopy? {
      RefAt(records, i, dropped);
      var k := KeyOf(records, i);
      assert w'.refs[k] == w'.refs[..|RefsOf(records, dropped)|][k];
      assert w'.refs[k] == RefsOf(records, dropped)[k];
      assert w.refs[k] == w'.refs[k] && Deref(w', k) == Deref(w, k);
    }
  }

  /** Whatever the rest of the world does, the records stay. */
  lemma {:induction false} ShownKept(w: World, w': World, records: seq<RecordRef>, dropped: set<nat>,
                                     expected: seq<seq<byte>>)
    requires Shown(w, records, dropped, expected) && Stable(w, w') && w'.refs == w.refs
    ensures Shown(w', records, dropped, expected)
    ensures Tight(w, records, dropped) ==> Tight(w', records, dropped)
  {
    forall i | 0 <= i < |records| && i !in dropped
      ensures RefBytes(w'.mem.heap, records[i]) == RefBytes(w.mem.heap, records[i])
    {
      RecordStable(w, w', records, dropped, i);
    }
  }

  lemma {:induction false} ShownLost(w: World, w': World, records: seq<RecordRef>, dropped: set<nat>,
                                     expected: seq<seq<byte>>)
    requires Shown(w, records, dropped, expected) && Stable(w, w') && GaveBack(w, w')
    ensures Shown(w', records, dropped, expected)
    ensures Tight(w, records, dropped) && w'.refs == w.refs ==> Tight(w', records, dropped)
  {
    var n := |RefsOf(records, dropped)|;
    assert w'.refs[..n] == w'.refs[..|w.refs|][..n];
    forall k | 0 <= k < |w'.refs[n..]| ensures !w'.refs[n..][k].live {
      if n + k < |w.refs| {
        assert w'.refs[n..][k] == w'.refs[..|w.refs|][n + k] == w.refs[n..][k];
      } else {
        assert w'.refs[n..][k] == w'.refs[|w.refs|..][n + k - |w.refs|];
      }
    }
    forall i | 0 <= i < |records| && i !in dropped
      ensures RefBytes(w'.mem.heap, records[i]) == RefBytes(w.mem.heap, records[i])
    {
      RecordStable(w, w', records, dropped, i);
    }
  }

  /** A delivered batch joins the records. */
  lemma {:induction false} ShownBatch(w: World, w': World, records: seq<RecordRef>, dropped: set<nat>,
                                      expected: seq<seq<byte>>, batch: seq<RecordRef>)
    requires Shown(w, records, dropped, expected) && Tight(w, records, dropped) && Stable(w, w')
    requires w'.refs == w.refs + RefsOf(batch, {})
    ensures Shown(w', records + batch, dropped, expected + BatchBytes(w'.mem.heap, batch))
    ensures Tight(w', records + batch, dropped)
  {
    hide RefsOf, RefBytes, Stable;
    RefsAppend(records, batch, dropped);
    var all, shows := records + batch, expected + BatchBytes(w'.mem.heap, batch);
    forall i | 0 <= i < |all| && i !in dropped ensures RefBytes(w'.mem.heap, all[i]) == shows[i] {
      if i < |records| {
        RecordStable(w, w', records, dropped, i);
        assert all[i] == records[i] && shows[i] == expected[i];
      } else {
        assert all[i] == batch[i - |records|] && shows[i] == BatchBytes(w'.mem.heap, batch)[i - |records|];
      }
    }
  }

  /** The sink lets go of one record: the others stay. */
  lemma {:induction false} ShownDropped(w: World, w': World, records: seq<RecordRef>, dropped: set<nat>,
                                        expected: seq<seq<byte>>, i: nat)
    requires Shown(w, records, dropped, expected) && Stable(w, w')
    requires i < |records| && i !in dropped
    requires records[i].ZeroCopy? ==>
               var k := KeyOf(records, i); k < |w.refs| && w'.refs == w.refs[k := w.refs[k].(live := false)]
    requires records[i].Scratch? ==> w'.refs == w.refs
    ensures Shown(w', records, dropped + {i}, expected)
    ensures Tight(w, records, dropped) ==> Tight(w', records, dropped + {i})
  {
    if records[i].ZeroCopy? {
      RefsDrop(records, i, dropped);
      RefAt(records, i, dropped);
    } else {
      RefsScratch(records, i, dropped);
    }
    RefsLength(records, dropped, dropped + {i});
    var n, k := |RefsOf(records, dropped)|, KeyOf(records, i);
    assert w'.refs[n..] == w.refs[n..];
    assert w'.refs[..n] == RefsOf(records, dropped + {i});
    forall j | 0 <= j < |records| && j !in dropped + {i}
      ensures RefBytes(w'.mem.heap, records[j]) == RefBytes(w.mem.heap, records[j])
    {
      RecordStable(w, w', records, dropped + {i}, j);
    }
  }

  /** A record still held has a live reference of its own. */
  lemma {:induction false} HeldIsLive(w: World, records: seq<RecordRef>, dropped: set<nat>, expected: seq<seq<byte>>,
                                      i: nat)
    requires Shown(w, records, dropped, expected) && i < |records| && i !in dropped && records[i].ZeroCopy?
    ensures var k := KeyOf(records, i); k < |w.refs| && [w.refs[k]] == RefOf(records[i], true)
  {
    RefAt(records, i, dropped);
    var k := KeyOf(records, i);
    assert w.refs[k] == w.refs[..|RefsOf(records, dropped)|][k];
  }

  lemma {:induction false} HeldNotPooled(w: World, records: seq<RecordRef>, dropped: set<nat>, expected: seq<seq<byte>>)
    requires Shown(w, records, dropped, expected) && Inv(w)
    ensures forall i :: 0 <= i < |records| && i !in dropped && records[i].ZeroCopy? ==>
              records[i].seg !in w.mem.freeList
  {
    hide Inv;
    forall i | 0 <= i < |records| && i !in dropped && records[i].ZeroCopy?
      ensures records[i].seg !in w.mem.freeList
    {
      HeldIsLive(w, records, dropped, expected, i);
      forall p | 0 <= p < |w.mem.freeList| ensures w.mem.freeList[p] != records[i].seg { PooledAlone(w, p); }
    }
  }

  /** One more chunk for FeedAll. */
  lemma {:induction false} FeedAllNext(conv: Converters, chunks: seq<seq<byte>>, chunk: seq<byte>)
    ensures var f := FeedAll(conv, START, [], chunks); var o := Feed(conv, f.state, f.rest + chunk);
            FeedAll(conv, START, [], chunks + [chunk]) == o.(records := f.records + o.records)
  {
    FeedAllPrefix(conv, START, [], chunks, [chunk]);
    var f := FeedAll(conv, START, [], chunks);
    var o := Feed(conv, f.state, f.rest + chunk);
    assert [chunk][1..] == [];
    assert FeedAll(conv, o.state, o.rest, []) == Outcome([], o.rest, o.state);
    assert o.records + [] == o.records;
  }

  /** What one OnData does to the batches and the references. */
  ghost predicate Batched(w: World, w': World, batches: seq<seq<RecordRef>>, batches': seq<seq<RecordRef>>,
                          o: Outcome) {
    var n := |batches|;
    if o.records == [] then batches' == batches && GaveBack(w, w') && (o.state.failed || w'.refs == w.refs)
    else |batches'| == n + 1 && batches'[..n] == batches
         && BatchBytes(w'.mem.heap, batches'[n]) == o.records && Took(w, w', batches'[n])
  }

  lemma {:induction false} Handed(w: World, w': World, batches: seq<seq<RecordRef>>, batches': seq<seq<RecordRef>>,
                                  o: Outcome)
    requires Batched(w, w', batches, batches', o)
    ensures w'.hands == w.hands && OthersSame(w, w')
  {
  }

  lemma {:induction false} ShownFeed(conv: Converters, chunks: seq<seq<byte>>, chunk: seq<byte>, w: World, w': World,
                                     batches: seq<seq<RecordRef>>, batches': seq<seq<RecordRef>>, dropped: set<nat>)
    requires var f := FeedAll(conv, START, [], chunks);
             && Shown(w, AllRecords(batches), dropped, f.records)
             && (f.state.failed || Tight(w, AllRecords(batches), dropped))
             && Batched(w, w', batches, batches', Feed(conv, f.state, f.rest + chunk))
    ensures var f := FeedAll(conv, START, [], chunks); var f' := FeedAll(conv, START, [], chunks + [chunk]);
            var o := Feed(conv, f.state, f.rest + chunk);
            && f'.state == o.state && f'.rest == o.rest
            && Shown(w', AllRecords(batches'), dropped, f'.records)
            && (f'.state.failed || Tight(w', AllRecords(batches'), dropped))
  {
    hide Shown, Tight, Inv, Stable;
    var f := FeedAll(conv, START, [], chunks);
    var o := Feed(conv, f.state, f.rest + chunk);
    FeedAllNext(conv, chunks, chunk);
    if o.records == [] {
      assert f.records + o.records == f.records;
      ShownLost(w, w', AllRecords(batches), dropped, f.records);
    } else {
      ShownBatch(w, w', AllRecords(batches), dropped, f.records, batches'[|batches|]);
      assert batches'[..|batches'| - 1] == batches;
    }
  }

  /** An empty pool and two empty chains. */
  ghost function Beginning(recycles: bool, queueRecycles: bool): (w: World)
    ensures Tracks(w, Memory([], [], 32), Chain([], 0, 0, recycles)) && w.refs == [] && w.hands == []
    ensures |w.chains| == 2 && w.chains[1] == Chain([], 0, 0, queueRecycles) && ChainOk(w.mem, w.chains[1])
  {
    var w0 := World(Memory([], [], 32), [], [], []);
    StartsValid(32);
    NewChainStep(w0, recycles);
    var w1 := DoNewChain(w0, recycles);
    NewChainStep(w1, queueRecycles);
    DoNewChain(w1, queueRecycles)
  }

  /** The second chain is where and what it was. */
  lemma {:induction false} QueueSame(w: World, w': World, m': Memory, c': Chain)
    requires OthersSame(w, w') && |w.chains| == 2 && Tracks(w', m', c')
    ensures |w'.chains| == 2 && w'.chains[1] == w.chains[1] && w'.mem == m'
    ensures ChainOk(m', w.chains[1]) && View(m'.heap, w.chains[1]) == View(w.mem.heap, w.chains[1])
  {
  }

  lemma {:induction false} ShownNone(conv: Converters, w: World)
    requires w.refs == []
    ensures Shown(w, AllRecords([]), {}, []) && Tight(w, AllRecords([]), {})
    ensures FeedAll(conv, START, [], []) == Outcome([], [], START)
  {
  }

  class Session {
    const alloc: SegmentAllocator
    const chain: BufferChain
    const queue: BufferChain
    const parser: Parser
    var hands: seq<SegId>
    var dropped: set<nat>
    ghost var world: World
    ghost var chunks: seq<seq<byte>>
    ghost var waiting: seq<byte>
    ghost var queued: seq<byte>

    /** What the parser has done with the chunks it was given. */
    ghost function Fed(): Outcome
      reads this, parser
    {
      FeedAll(parser.conv, START, [], chunks)
    }

    ghost function Records(): seq<RecordRef>
      reads this, parser
    {
      AllRecords(parser.batches)
    }

    /** Memory, with the accounts kept beside it. */
    ghost predicate Accounts()
      reads this, alloc, chain, queue
    {
      && chain.alloc == alloc && chain.Valid() && Tracks(world, alloc.Mem(), chain.Val()) && world.hands == hands
      && queue.alloc == alloc && queue != chain && queue.Valid() && queue.Contents() == queued
      && |world.chains| == 2 && world.chains[1] == queue.Val()
    }

    ghost predicate Valid()
      reads this, alloc, chain, queue, parser
    {
      && Accounts() && parser.Valid()
      && parser.State() == Fed().state && chain.Contents() == Fed().rest + waiting
      && Shown(world, Records(), dropped, Fed().records)
      && (parser.finalized || Tight(world, Records(), dropped))
    }

    constructor (alloc: SegmentAllocator, chain: BufferChain, queue: BufferChain, parser: Parser)
      ensures this.alloc == alloc && this.chain == chain && this.queue == queue && this.parser == parser
      ensures hands == [] && dropped == {} && chunks == [] && waiting == [] && queued == []
      ensures world == Beginning(chain.recycles, queue.recycles)
    {
      this.alloc, this.chain, this.queue, this.parser := alloc, chain, queue, parser;
      hands, dropped := [], {};
      chunks, waiting, queued := [], [], [];
      world := Beginning(chain.recycles, queue.recycles);
    }

    /** A session around a new parser and two empty chains over an empty pool is valid. */
    lemma {:induction false} Opens()
      requires alloc.Mem() == Memory([], [], 32) && chain.Val() == Chain([], 0, 0, chain.recycles)
      requires queue.Val() == Chain([], 0, 0, queue.recycles) && queue != chain
      requires chain.alloc == alloc && queue.alloc == alloc && parser.State() == START && parser.batches == []
      requires hands == [] && dropped == {} && chunks == [] && waiting == [] && queued == []
      requires world == Beginning(chain.recycles, queue.recycles)
      ensures Valid()
    {
      ShownNone(parser.conv, world);
      TracksOk(world, alloc.Mem(), chain.Val());
      assert chain.Contents() == [] && queue.Contents() == [];
      hide Tracks, Shown, Tight, FeedAll, View, AllRecords, ChainOk, Inv, RefsOf;
    }

    /** Somebody takes a segment from the allocator. */
    method Acquire()
      requires Valid()
      modifies this`hands, this`world, alloc
      ensures Valid() && |hands| == |old(hands)| + 1 && hands[..|old(hands)|] == old(hands)
      ensures hands[|old(hands)|] < |alloc.heap| && alloc.heap[hands[|old(hands)|]].size == 0
    {
      hide Tracks, Inv, Stable, Shown, Tight, View;
      ghost var w := world;
      TracksOk(w, alloc.Mem(), chain.Val());
      world := Allocated(w, alloc.Mem(), chain.Val());
      var id := alloc.Allocate();
      hands := hands + [id];
      QueueSame(w, world, alloc.Mem(), chain.Val());
      TracksOk(world, alloc.Mem(), chain.Val());
      ShownKept(w, world, Records(), dropped, Fed().records);
    }

    /** And writes to it, as much as fits. */
    method Fill(h: nat, bytes: seq<byte>)
      requires Valid() && h < |hands|
      modifies this`world, alloc
      ensures Valid() && |alloc.heap| == |old(alloc.heap)|
      ensures hands[h] < |old(alloc.heap)| && old(alloc.heap)[hands[h]].Ok()
      ensures alloc.heap == old(alloc.heap)[hands[h] := old(alloc.heap)[hands[h]].Append(bytes)]
    {
      hide Tracks, Inv, Stable, Shown, Tight, View;
      ghost var w := world;
      TracksOk(w, alloc.Mem(), chain.Val());
      world := Filled(w, alloc.Mem(), chain.Val(), h, bytes);
      alloc.Write(hands[h], bytes);
      QueueSame(w, world, alloc.Mem(), chain.Val());
      TracksOk(world, alloc.Mem(), chain.Val());
      ShownKept(w, world, Records(), dropped, Fed().records);
    }

    /** Gives it back to the allocator. */
    method Recycle(h: nat)
      requires Valid() && h < |hands|
      modifies this`hands, this`world, alloc
      ensures Valid() && hands == RemoveAt(old(hands), h)
    {
      hide Tracks, Inv, Stable, Shown, Tight, View;
      ghost var w, heap := world, alloc.heap;
      TracksOk(w, alloc.Mem(), chain.Val());
      world := Recycled(w, alloc.Mem(), chain.Val(), h);
      alloc.Release(hands[h]);
      hands := RemoveAt(hands, h);
      ViewFrame(heap, alloc.heap, chain.Val());
      QueueSame(w, world, alloc.Mem(), chain.Val());
      TracksOk(world, alloc.Mem(), chain.Val());
      ShownKept(w, world, Records(), dropped, Fed().records);
    }

    /** Appends it to the parser's chain. */
    method Append(h: nat)
      requires Valid() && h < |hands|
      modifies this`hands, this`world, this`waiting, alloc, chain
      ensures Valid() && hands == RemoveAt(old(hands), h)
      ensures waiting == old(waiting) + SegBytes(old(alloc.heap), old(hands)[h])
    {
      hide Tracks, Inv, Stable, Shown, Tight, View;
      ghost var w, bytes := world, SegBytes(alloc.heap, hands[h]);
      TracksOk(w, alloc.Mem(), chain.Val());
      world := Appended(w, alloc.Mem(), chain.Val(), h);
      chain.Append(hands[h]);
      hands := RemoveAt(hands, h);
      waiting := waiting + bytes;
      Assoc(Fed().rest, old(waiting), bytes);
      QueueSame(w, world, alloc.Mem(), chain.Val());
      ShownKept(w, world, Records(), dropped, Fed().records);
    }

    /** Appends it to the second chain. */
    method AppendToQueue(h: nat)
      requires Valid() && h < |hands|
      modifies this`hands, this`world, this`queued, alloc, queue
      ensures Valid() && hands == RemoveAt(old(hands), h)
      ensures queued == old(queued) + SegBytes(old(alloc.heap), old(hands)[h])
    {
      hide Tracks, Inv, Stable, Shown, Tight, View;
      ghost var w, bytes, heap := world, SegBytes(alloc.heap, hands[h]), alloc.heap;
      world := Queued(w, alloc.Mem(), chain.Val(), h);
      queue.Append(hands[h]);
      hands := RemoveAt(hands, h);
      queued := queued + bytes;
      ViewFrame(heap, alloc.heap, chain.Val());
      TracksOk(world, alloc.Mem(), chain.Val());
      ShownKept(w, world, Records(), dropped, Fed().records);
    }

    /** SpliceChecked within the limit: the second chain goes behind the parser's, which is
        compacted first. */
    method Splice()
      requires Valid()
      modifies this`world, this`waiting, this`queued, alloc, chain, queue
      ensures Valid() && waiting == old(waiting) + old(queued) && queued == []
    {
      hide Tracks, Inv, Stable, Shown, Tight, View, FeedAll, ChainOk, Spec.CompactAndSplice, Spec.Disjoint;
      ghost var w := world;
      world := Spliced(w, alloc.Mem(), chain.Val());
      chain.CompactAndSplice(queue);
      Assoc(Fed().rest, waiting, queued);
      waiting, queued := waiting + queued, [];
      ShownKept(w, world, Records(), dropped, Fed().records);
    }

    /** The sink lets go of a record it still holds. */
    method Discard(i: nat)
      requires Valid() && i < |Records()| && i !in dropped
      modifies this`dropped, this`world, alloc
      ensures Valid() && dropped == old(dropped) + {i}
    {
      hide Tracks, Inv, Stable, Shown, Tight, View, FeedAll, ChainOk, RefsOf;
      ghost var w, heap := world, alloc.heap;
      TracksOk(w, alloc.Mem(), chain.Val());
      var r := AllRecords(parser.batches)[i];
      if r.ZeroCopy? {
        ghost var k := KeyOf(Records(), i);
        HeldIsLive(w, Records(), dropped, Fed().records, i);
        world := Dropped(w, alloc.Mem(), chain.Val(), k);
        alloc.Drop(r.seg);
        ViewFrame(heap, alloc.heap, chain.Val());
        TracksOk(world, alloc.Mem(), chain.Val());
      } else {
        Same(w, alloc.Mem(), chain.Val());
      }
      QueueSame(w, world, alloc.Mem(), chain.Val());
      ShownDropped(w, world, Records(), dropped, Fed().records, i);
      dropped := dropped + {i};
    }

    /** OnData. */
    method Parse()
      requires Valid()
      modifies this`world, this`chunks, this`waiting, alloc, chain, parser
      ensures Valid() && chunks == old(chunks) + [old(waiting)] && waiting == []
      ensures hands == old(hands)
    {
      hide Tracks, Inv, Stable, Shown, Tight, View, Feed, FeedAll, BatchBytes, Took, GaveBack, AllRecords;
      ghost var w, before := world, parser.batches;
      TracksOk(w, alloc.Mem(), chain.Val());
      ghost var o := Feed(parser.conv, Fed().state, Fed().rest + waiting);
      world := parser.OnData(chain, w);
      TracksOk(world, alloc.Mem(), chain.Val());
      Handed(w, world, before, parser.batches, o);
      QueueSame(w, world, alloc.Mem(), chain.Val());
      ShownFeed(parser.conv, chunks, waiting, w, world, before, parser.batches, dropped);
      chunks := chunks + [waiting];
      waiting := [];
      assert o.rest + [] == o.rest;
    }

    /** A segment with these bytes, as much as fits, goes to the end of the chain. */
    method AppendNew(bytes: seq<byte>)
      requires Valid()
      modifies this`hands, this`world, this`waiting, alloc, chain
      ensures Valid() && waiting == old(waiting) + Fits(bytes) && hands == old(hands)
    {
      hide FeedAll, Shown, Tight, View, Tracks, AllRecords;
      var h := |hands|;
      Acquire();
      Fill(h, bytes);
      assert SegBytes(alloc.heap, hands[h]) == Fits(bytes);
      Append(h);
      assert hands == old(hands);
    }

    /** Upstream's buffers arrive and OnData is called. */
    method Receive(segments: seq<seq<byte>>)
      requires Valid() && waiting == []
      modifies this`hands, this`world, this`waiting, this`chunks, alloc, chain, parser
      ensures Valid() && waiting == [] && hands == old(hands) && chunks == old(chunks) + [Arrived(segments)]
    {
      hide FeedAll, Shown, Tight, View, Tracks, Fits;
      var k := 0;
      while k < |segments|
        invariant k <= |segments| && Valid() && hands == old(hands) && chunks == old(chunks)
        invariant waiting == Arrived(segments[..k])
      {
        AppendNew(segments[k]);
        assert segments[..k + 1][..k] == segments[..k];
        k := k + 1;
      }
      assert segments[..k] == segments;
      Parse();
    }

    /** Data arrives for the second chain. */
    method QueueUp(segments: seq<seq<byte>>)
      requires Valid()
      modifies this`hands, this`world, this`queued, alloc, queue
      ensures Valid() && hands == old(hands) && queued == old(queued) + Arrived(segments)
    {
      hide FeedAll, Shown, Tight, View, Tracks, Fits;
      var k := 0;
      assert old(queued) + [] == old(queued);
      while k < |segments|
        invariant k <= |segments| && Valid() && hands == old(hands)
        invariant queued == old(queued) + Arrived(segments[..k])
      {
        Assoc(old(queued), Arrived(segments[..k]), Fits(segments[k]));
        QueueNew(segments[k]);
        assert segments[..k + 1][..k] == segments[..k];
        k := k + 1;
      }
      assert segments[..k] == segments;
    }

    method QueueNew(bytes: seq<byte>)
      requires Valid()
      modifies this`hands, this`world, this`queued, alloc, queue
      ensures Valid() && queued == old(queued) + Fits(bytes) && hands == old(hands)
    {
      hide FeedAll, Shown, Tight, View, Tracks, AllRecords;
      var h := |hands|;
      Acquire();
      Fill(h, bytes);
      assert SegBytes(alloc.heap, hands[h]) == Fits(bytes);
      AppendToQueue(h);
      assert hands == old(hands);
    }

    method Do(act: Act)
      requires Valid() && waiting == []
      modifies this, alloc, chain, queue, parser
      ensures Valid() && waiting == []
      ensures chunks == old(chunks) + NextChunks(old(queued), act) && queued == NextQueued(old(queued), act)
      ensures !act.Discard? ==> dropped == old(dropped)
    {
      hide FeedAll, Shown, Tight, View, Tracks, Fits, Arrived, AllRecords;
      match act
      case Receive(segments) => Receive(segments);
      case Queue(segments) => QueueUp(segments);
      case Join =>
        Splice();
        assert waiting == old(queued);
        Parse();
      case Acquire => Acquire();
      case Fill(h, bytes) => if h < |hands| { Fill(h, bytes); }
      case Recycle(h) => if h < |hands| { Recycle(h); }
      case Discard(i) =>
        if i < |AllRecords(parser.batches)| && i !in dropped { Discard(i); }
    }

    /** A run, from the beginning. */
    method Run(acts: seq<Act>)
      requires Valid() && waiting == [] && queued == []
      modifies this, alloc, chain, queue, parser
      ensures Valid() && waiting == [] && chunks == old(chunks) + ChunksOf(acts) && queued == QueuedBy(acts)
      ensures (forall a :: a in acts ==> !a.Discard?) ==> dropped == old(dropped)
    {
      hide FeedAll, Shown, Tight, View, Tracks, Fits, Arrived, NextChunks, NextQueued;
      var k := 0;
      while k < |acts|
        invariant k <= |acts| && Valid() && waiting == []
        invariant chunks == old(chunks) + ChunksOf(acts[..k]) && queued == QueuedBy(acts[..k])
        invariant (forall a :: a in acts ==> !a.Discard?) ==> dropped == old(dropped)
      {
        ghost var before := ChunksOf(acts[..k]);
        Assoc(old(chunks), before, NextChunks(queued, acts[k]));
        Do(acts[k]);
        assert acts[..k + 1][..k] == acts[..k];
        k := k + 1;
      }
      assert acts[..k] == acts;
    }
  }

  /** In this memory the records not dropped show what is expected, and none of their segments
      is in the pool. Without drops the records are the first of those expected. */
  ghost predicate Shows(m: Memory, records: seq<RecordRef>, dropped: set<nat>, expected: seq<seq<byte>>) {
    && |records| <= |expected|
    && (forall i :: 0 <= i < |records| && i !in dropped ==> RefBytes(m.heap, records[i]) == expected[i])
    && (forall i :: 0 <= i < |records| && i !in dropped && records[i].ZeroCopy? ==> records[i].seg !in m.freeList)
    && (dropped == {} ==> BatchBytes(m.heap, records) <= expected)
  }

  lemma {:induction false} ShownShows(w: World, records: seq<RecordRef>, dropped: set<nat>, got: seq<seq<byte>>,
                                      expected: seq<seq<byte>>)
    requires Shown(w, records, dropped, got) && Inv(w) && got <= expected
    ensures Shows(w.mem, records, dropped, expected) && |records| == |got|
  {
    HeldNotPooled(w, records, dropped, got);
    hide Inv, AllDead, RefsOf;
    if dropped == {} { assert BatchBytes(w.mem.heap, records) == got; }
  }

  lemma {:induction false} FedWhole(conv: Converters, chunks: seq<seq<byte>>)
    ensures var f := FeedAll(conv, START, [], chunks); var p := DbnFormat.Parse(conv, START, Concat(chunks));
            && f.state == p.state && f.rest == p.rest && f.records <= p.records
            && (!p.state.failed ==> |f.records| == |p.records|)
  {
    assert DbnFormat.Parse(conv, START, []) == Outcome([], [], START);
    hide DbnFormat.Parse, FeedAll;
    assert [] + Concat(chunks) == Concat(chunks);
    FeedAllIsParse(conv, START, [], chunks);
  }

  /** What is shown of the chunks is the reference reading of their concatenation. */
  lemma {:induction false} ShowsParse(conv: Converters, chunks: seq<seq<byte>>, w: World, records: seq<RecordRef>,
                                      dropped: set<nat>)
    requires Shown(w, records, dropped, FeedAll(conv, START, [], chunks).records) && Inv(w)
    ensures var f := FeedAll(conv, START, [], chunks); var p := DbnFormat.Parse(conv, START, Concat(chunks));
            && f.state == p.state && f.rest == p.rest
            && Shows(w.mem, records, dropped, p.records)
            && (!p.state.failed ==> |records| == |p.records|)
  {
    hide DbnFormat.Parse, FeedAll, Shown, Shows, Inv;
    FedWhole(conv, chunks);
    ShownShows(w, records, dropped, FeedAll(conv, START, [], chunks).records,
               DbnFormat.Parse(conv, START, Concat(chunks)).records);
  }

  /** From an empty pool, for every run: the records still held show, in the final memory, the
      records of the reference reading of all bytes received, in order; the state and the
      chain's contents are what that reading leaves, and the second chain has what waits in it.
      Records are missing only behind a bad header, and none is missing from a well-formed
      stream. */
  method ReadStream(conv: Converters, recycles: bool, queueRecycles: bool, acts: seq<Act>) returns (s: Session)
    ensures var p := DbnFormat.Parse(conv, START, Concat(ChunksOf(acts)));
            && s.parser.State() == p.state && s.chain.Contents() == p.rest && s.queue.Contents() == QueuedBy(acts)
            && Shows(s.alloc.Mem(), s.Records(), s.dropped, p.records)
            && (!p.state.failed ==> |s.Records()| == |p.records|)
    ensures (forall a :: a in acts ==> !a.Discard?) ==> s.dropped == {}
  {
    hide FeedAll, Shown, Shows, DbnFormat.Parse, ChunksOf, QueuedBy, Tight, View;
    var alloc := new SegmentAllocator();
    var chain := new BufferChain(alloc, recycles);
    var queue := new BufferChain(alloc, queueRecycles);
    var parser := new Parser(conv);
    s := new Session(alloc, chain, queue, parser);
    s.Opens();
    s.Run(acts);
    assert [] + ChunksOf(acts) == ChunksOf(acts);
    ShowsParse(conv, s.chunks, s.world, s.Records(), s.dropped);
    assert s.Fed().rest + [] == s.Fed().rest;
  }
}
