/** DbnParserComponent over a real BufferChain: four ways to get at a header or a record
    (contiguous or spanning segments, aligned or not), proved to mean the same as reading the
    flat bytes. A ghost world follows every reference the parser takes and gives back. */
module DbnParser {
  import opened Bytes
  import opened Segments
  import opened DbnFormat
  import opened BufferChains
  import opened SharedSegments
  import opened Tracking
  import Spec = ChainSpec

  /** A delivered record: a counted pointer into a segment, or a scratch buffer of its own. */
  datatype RecordRef = ZeroCopy(seg: SegId, pos: nat, size: nat) | Scratch(bytes: seq<byte>)

  function RefBytes(h: seq<Segment>, r: RecordRef): seq<byte> {
    match r
    case ZeroCopy(seg, pos, size) => Spec.Peek(h, seg, pos, size)
    case Scratch(bytes) => bytes
  }

  /** The records a batch shows its receiver. */
  function BatchBytes(h: seq<Segment>, batch: seq<RecordRef>): seq<seq<byte>> {
    seq(|batch|, i requires 0 <= i < |batch| => RefBytes(h, batch[i]))
  }

  lemma {:induction false} BatchFrame(h: seq<Segment>, h': seq<Segment>, batch: seq<RecordRef>)
    requires Spec.SameHeapBytes(h, h')
    ensures BatchBytes(h', batch) == BatchBytes(h, batch)
  {
    forall i | 0 <= i < |batch| ensures RefBytes(h', batch[i]) == RefBytes(h, batch[i]) {
      if batch[i].ZeroCopy? && batch[i].seg < |h| {
        assert h'[batch[i].seg].data == h[batch[i].seg].data;
      }
    }
  }

  lemma {:induction false} BatchAdd(h: seq<Segment>, batch: seq<RecordRef>, r: RecordRef)
    ensures BatchBytes(h, batch + [r]) == BatchBytes(h, batch) + [RefBytes(h, r)]
  {
  }

  /** The counted reference a record carries, if any. */
  function RefOf(r: RecordRef, live: bool): seq<Ref> {
    match r
    case ZeroCopy(seg, pos, size) => [Ref(seg, pos, size, live)]
    case Scratch(_) => []
  }

  /** The counted references of the records, in order; those of `dropped` records are dead. */
  function RefsOf(records: seq<RecordRef>, dropped: set<nat>): seq<Ref> {
    if records == [] then []
    else
      var last: nat := |records| - 1;
      RefsOf(records[..last], dropped) + RefOf(records[last], last !in dropped)
  }

  lemma {:induction false} RefsAdd(records: seq<RecordRef>, r: RecordRef, dropped: set<nat>)
    ensures RefsOf(records + [r], dropped) == RefsOf(records, dropped) + RefOf(r, |records| !in dropped)
  {
    assert (records + [r])[..|records|] == records;
  }

  /** Records of a later batch have their references behind those of the earlier ones. */
  lemma {:induction false} RefsAppend(records: seq<RecordRef>, batch: seq<RecordRef>, dropped: set<nat>)
    requires forall i :: i in dropped ==> i < |records|
    ensures RefsOf(records + batch, dropped) == RefsOf(records, dropped) + RefsOf(batch, {})
  {
    if batch == [] {
      assert records + batch == records;
    } else {
      var front, r := batch[..|batch| - 1], batch[|batch| - 1];
      RefsAppend(records, front, dropped);
      assert batch == front + [r];
      RefsJoin(records, front, r, dropped);
    }
  }

  lemma {:induction false} RefsJoin(records: seq<RecordRef>, front: seq<RecordRef>, r: RecordRef, dropped: set<nat>)
    requires forall i :: i in dropped ==> i < |records|
    requires RefsOf(records + front, dropped) == RefsOf(records, dropped) + RefsOf(front, {})
    ensures RefsOf(records + (front + [r]), dropped) == RefsOf(records, dropped) + RefsOf(front + [r], {})
  {
    hide RefsOf;
    assert records + (front + [r]) == (records + front) + [r];
    RefsAdd(records + front, r, dropped);
    RefsAdd(front, r, {});
    Assoc(RefsOf(records, dropped), RefsOf(front, {}), RefOf(r, true));
  }

  /** Where the reference of zero-copy record `i` is. */
  function KeyOf(records: seq<RecordRef>, i: nat): nat
    requires i < |records|
  {
    |RefsOf(records[..i], {})|
  }

  lemma {:induction false} RefsLength(records: seq<RecordRef>, dropped: set<nat>, dropped': set<nat>)
    ensures |RefsOf(records, dropped)| == |RefsOf(records, dropped')|
  {
    if records != [] { RefsLength(records[..|records| - 1], dropped, dropped'); }
  }

  lemma {:induction false} RefAt(records: seq<RecordRef>, i: nat, dropped: set<nat>)
    requires i < |records| && records[i].ZeroCopy?
    ensures var k := KeyOf(records, i);
            k < |RefsOf(records, dropped)| && RefOf(records[i], i !in dropped) == [RefsOf(records, dropped)[k]]
  {
    var last: nat := |records| - 1;
    if i == last {
      RefsLength(records[..last], {}, dropped);
    } else {
      RefAt(records[..last], i, dropped);
      assert records[..last][..i] == records[..i];
    }
  }

  lemma {:induction false} UpdateFront(a: seq<Ref>, b: seq<Ref>, k: nat, r: Ref)
    requires k < |a|
    ensures (a + b)[k := r] == a[k := r] + b
  {
  }

  /** Dropping record `i`'s reference kills that one and no other. */
  lemma {:induction false} RefsDrop(records: seq<RecordRef>, i: nat, dropped: set<nat>)
    requires i < |records| && records[i].ZeroCopy?
    ensures var refs, k := RefsOf(records, dropped), KeyOf(records, i);
            k < |refs| && RefsOf(records, dropped + {i}) == refs[k := refs[k].(live := false)]
  {
    var last: nat := |records| - 1;
    RefAt(records, i, dropped);
    if i == last {
      RefsLength(records[..last], {}, dropped);
      RefsPast(records[..last], i, dropped);
    } else {
      RefsDrop(records[..last], i, dropped);
      assert records[..last][..i] == records[..i];
      var front, k := RefsOf(records[..last], dropped), KeyOf(records, i);
      UpdateFront(front, RefOf(records[last], last !in dropped), k, front[k].(live := false));
    }
  }

  lemma {:induction false} RefsPast(records: seq<RecordRef>, i: nat, dropped: set<nat>)
    requires i >= |records|
    ensures RefsOf(records, dropped + {i}) == RefsOf(records, dropped)
  {
    if records != [] { RefsPast(records[..|records| - 1], i, dropped); }
  }

  lemma {:induction false} RefsScratch(records: seq<RecordRef>, i: nat, dropped: set<nat>)
    requires i < |records| && records[i].Scratch?
    ensures RefsOf(records, dropped + {i}) == RefsOf(records, dropped)
  {
    var last: nat := |records| - 1;
    if i == last {
      RefsPast(records[..last], i, dropped);
    } else {
      RefsScratch(records[..last], i, dropped);
    }
  }

  ghost predicate AllDead(refs: seq<Ref>) { forall k :: 0 <= k < |refs| ==> !refs[k].live }

  lemma {:induction false} RefsDead(records: seq<RecordRef>, dropped: set<nat>)
    requires forall i: nat :: i < |records| ==> i in dropped
    ensures AllDead(RefsOf(records, dropped))
  {
    if records != [] {
      var last: nat := |records| - 1;
      RefsDead(records[..last], dropped);
    }
  }

  /** Between `w0` and `w` exactly the references of the batch were taken. */
  ghost predicate Took(w0: World, w: World, batch: seq<RecordRef>) {
    Follows(w0, w) && w.refs == w0.refs + RefsOf(batch, {})
  }

  lemma {:induction false} TookOne(w0: World, w: World, w': World, batch: seq<RecordRef>, r: RecordRef)
    requires Took(w0, w, batch) && Follows(w, w') && w'.refs == w.refs + RefOf(r, true)
    ensures Took(w0, w', batch + [r])
  {
    hide Follows;
    FollowsTrans(w0, w, w');
    RefsAdd(batch, r, {});
    assert (w0.refs + RefsOf(batch, {})) + RefOf(r, true) == w0.refs + RefsOf(batch + [r], {});
  }

  /** The references of a whole batch were taken and given back again. */
  ghost predicate GaveBack(w0: World, w: World) {
    Follows(w0, w) && |w0.refs| <= |w.refs| && w.refs[..|w0.refs|] == w0.refs && AllDead(w.refs[|w0.refs|..])
  }

  lemma {:induction false} TookNone(w0: World, w: World)
    requires Follows(w0, w) && w.refs == w0.refs
    ensures Took(w0, w, []) && GaveBack(w0, w)
  {
  }

  lemma {:induction false} TookNothing(w0: World, w: World)
    requires Took(w0, w, [])
    ensures GaveBack(w0, w) && w.refs == w0.refs
  {
  }

  lemma {:induction false} SameBytesTrans(h0: seq<Segment>, h1: seq<Segment>, h2: seq<Segment>)
    requires Spec.SameHeapBytes(h0, h1) && Spec.SameHeapBytes(h1, h2)
    ensures Spec.SameHeapBytes(h0, h2)
  {
    forall id | 0 <= id < |h0| ensures h2[id].data == h0[id].data && h2[id].size == h0[id].size {
      assert h1[id].data == h0[id].data;
    }
  }

  class Parser {
    const conv: Converters
    var metadataParsed: bool
    var version: byte
    var finalized: bool
    // What the sink has received.
    var batches: seq<seq<RecordRef>>
    var errors: nat
    var completions: nat

    ghost function State(): PState reads this { PState(metadataParsed, version, finalized) }

    constructor (conv: Converters)
      ensures this.conv == conv && State() == START && batches == [] && errors == 0 && completions == 0
    {
      this.conv := conv;
      metadataParsed, version, finalized := false, 3, false;
      batches, errors, completions := [], 0, 0;
    }

    /** One-shot: only the first terminal error reaches the sink. */
    method ReportTerminalError()
      modifies this`finalized, this`errors
      ensures finalized && errors == old(errors) + (if old(finalized) then 0 else 1)
    {
      if finalized { return; }
      finalized := true;
      errors := errors + 1;
    }

    /** Before any metadata the version is the default, 3. */
    ghost predicate Valid() reads this { metadataParsed || version == 3 }

    /** How many bytes the gate in front of the records takes off. */
    static ghost function Skipped(s: PState, b: seq<byte>): nat {
      if !s.metadataParsed && Metadata(b).Ready? then Metadata(b).skip else 0
    }

    method SkipMetadataIfNeeded(chain: BufferChain) returns (ready: bool)
      requires chain.Valid() && Valid() && !finalized
      modifies this`metadataParsed, this`version, this`finalized, this`errors, chain, chain.alloc
      ensures chain.Valid() && Valid() && Spec.SameHeapBytes(old(chain.alloc.heap), chain.alloc.heap)
      ensures old(metadataParsed) ==> ready && State() == old(State()) && chain.Contents() == old(chain.Contents())
      ensures !old(metadataParsed) ==>
                match Metadata(old(chain.Contents()))
                case Wait => !ready && State() == old(State()) && chain.Contents() == old(chain.Contents())
                case Bad => !ready && State() == old(State()).(failed := true)
                    && chain.Contents() == old(chain.Contents())
                case Ready(skip, v) =>
                  ready && State() == PState(true, v, false) && chain.Contents() == old(chain.Contents())[skip..]
      ensures (chain.alloc.Mem(), chain.Val()) ==
              Spec.Consume(old(chain.alloc.Mem()), old(chain.Val()), Skipped(old(State()), old(chain.Contents())))
      ensures errors == old(errors) + (if finalized then 1 else 0)
    {
      hide Spec.Consume, View, ChainOk, MemOk, Flat, Spec.IsContiguous, HasMagic, LittleEndian32;
      Spec.ConsumeNone(chain.alloc.Mem(), chain.Val());
      if metadataParsed { return true; }
      var size := chain.Size();
      if size < DBN_HEADER_SIZE { return false; }
      var header := chain.CopyTo(0, DBN_HEADER_SIZE);
      ghost var b := chain.Contents();
      assert header == b[..DBN_HEADER_SIZE];
      HeaderDecides(b);
      if !HasMagic(header) {
        metadataParsed := true;
        assert b[0..] == b;
        return true;
      }
      var frame := LittleEndian32(header[4..]);
      if frame > MAX_METADATA_SIZE {
        ReportTerminalError();
        return false;
      }
      if size < DBN_HEADER_SIZE + frame { return false; }
      version := header[3];
      chain.Consume(DBN_HEADER_SIZE + frame);
      metadataParsed := true;
      return true;
    }

    /** The size from the header: read in place when the header is contiguous and 8-byte
        aligned, from a copy otherwise. */
    method HeaderSize(chain: BufferChain) returns (n: nat)
      requires chain.Valid() && |chain.Contents()| >= HEADER_SIZE
      ensures n == RecordSize(chain.Contents())
    {
      var contiguous := chain.IsContiguous(0, HEADER_SIZE);
      if contiguous {
        Spec.PointerSeesSlice(chain.alloc.Mem(), chain.Val(), 0, HEADER_SIZE);
        var seg, pos := chain.DataAt(0);
        if pos % 8 == 0 {
          var header := chain.alloc.heap[seg].data[pos..pos + HEADER_SIZE];
          assert header == chain.Contents()[0..HEADER_SIZE];
          n := RecordSize(header);
        } else {
          var copy := chain.CopyTo(0, HEADER_SIZE);
          n := RecordSize(copy);
        }
      } else {
        var copy := chain.CopyTo(0, HEADER_SIZE);
        n := RecordSize(copy);
      }
    }

    /** Is the record in one piece and 8-byte aligned, and where. */
    method FindAligned(chain: BufferChain, n: nat) returns (aligned: bool, seg: SegId, pos: nat)
      requires chain.Valid() && 0 < n <= |chain.Contents()|
      ensures aligned <==> Spec.IsContiguous(chain.alloc.Mem(), chain.Val(), 0, n)
                           && Spec.PointerAt(chain.alloc.Mem(), chain.Val(), 0).1 % 8 == 0
      ensures aligned ==> pos % 8 == 0 && (seg, pos) == Spec.PointerAt(chain.alloc.Mem(), chain.Val(), 0)
                          && Spec.IsContiguous(chain.alloc.Mem(), chain.Val(), 0, n)
                          && seg < |chain.alloc.heap| && pos + n <= |chain.alloc.heap[seg].data|
                          && chain.alloc.heap[seg].data[pos..pos + n] == chain.Contents()[..n]
    {
      aligned, seg, pos := false, 0, 0;
      var contiguous := chain.IsContiguous(0, n);
      if contiguous {
        Spec.PointerSeesSlice(chain.alloc.Mem(), chain.Val(), 0, n);
        seg, pos := chain.DataAt(0);
        aligned := pos % 8 == 0;
        assert chain.Contents()[0..n] == chain.Contents()[..n];
      }
    }

    method NeedsConversion(chain: BufferChain, n: nat, aligned: bool, seg: SegId, pos: nat) returns (needed: bool)
      requires chain.Valid() && HEADER_SIZE <= n <= |chain.Contents()|
      requires aligned ==> seg < |chain.alloc.heap| && pos + n <= |chain.alloc.heap[seg].data|
                           && chain.alloc.heap[seg].data[pos..pos + n] == chain.Contents()[..n]
      ensures needed <==> version != 3 && conv.needed(chain.Contents()[1])
    {
      if version == 3 { return false; }
      if aligned {
        var record := chain.alloc.heap[seg].data[pos..pos + n];
        needed := conv.needed(record[1]);
      } else {
        var rtype := chain.CopyTo(1, 1);
        needed := conv.needed(rtype[0]);
      }
    }

    /** The reference for the record of `n` bytes at the front of the chain. */
    method MakeRef(chain: BufferChain, n: nat) returns (ref: RecordRef)
      requires chain.Valid() && HEADER_SIZE <= n <= |chain.Contents()|
      modifies chain.alloc`heap
      ensures chain.Valid() && chain.Contents() == old(chain.Contents()) && chain.Val() == old(chain.Val())
      ensures Spec.SameHeapBytes(old(chain.alloc.heap), chain.alloc.heap)
      ensures ref.ZeroCopy? ==>
                && Spec.IsContiguous(old(chain.alloc.Mem()), chain.Val(), 0, n)
                && (ref.seg, ref.pos) == Spec.PointerAt(old(chain.alloc.Mem()), chain.Val(), 0) && ref.size == n
                && ref.seg < |old(chain.alloc.heap)|
                && chain.alloc.Mem() == Segments.Share(old(chain.alloc.Mem()), ref.seg)
      ensures ref.Scratch? ==> chain.alloc.Mem() == old(chain.alloc.Mem())
      ensures ref.ZeroCopy? <==> Spec.IsContiguous(old(chain.alloc.Mem()), chain.Val(), 0, n)
                                 && Spec.PointerAt(old(chain.alloc.Mem()), chain.Val(), 0).1 % 8 == 0
                                 && !(version != 3 && conv.needed(chain.Contents()[1]))
      ensures RefBytes(chain.alloc.heap, ref) == Deliver(conv, version, chain.Contents()[..n])
      ensures version <= 3 ==> ConvertedTo(conv, version, chain.Contents()[..n], RefBytes(chain.alloc.heap, ref))
      ensures ref.ZeroCopy? ==> ref.pos % 8 == 0 && ref.seg < |chain.alloc.heap| && chain.alloc.heap[ref.seg].uses > 1
    {
      var aligned, seg, pos := FindAligned(chain, n);
      var needed := NeedsConversion(chain, n, aligned, seg, pos);
      if aligned && !needed {
        ghost var h := chain.alloc.heap;
        var keepalive := chain.GetSegmentAt(0);
        assert chain.alloc.heap[seg].data == h[seg].data;
        ref := ZeroCopy(keepalive, pos, n);
      } else {
        var record: seq<byte>;
        if aligned {
          record := chain.alloc.heap[seg].data[pos..pos + n];
        } else {
          record := chain.CopyTo(0, n);
        }
        ref := Scratch(if needed then conv.convert(version, record) else record);
      }
    }

    /** In the record loop, begun with heap `h0` and world `w0`: `batch` and what is still in the
        chain make up the reading `goal`. */
    ghost predicate Reading(chain: BufferChain, batch: seq<RecordRef>, h0: seq<Segment>, w0: World, w: World,
                            goal: Read)
      reads this, chain, chain.alloc
    {
      && chain.Valid() && Spec.SameHeapBytes(h0, chain.alloc.heap)
      && Reaches(conv, version, chain.Contents(), BatchBytes(chain.alloc.heap, batch), goal)
      && Tracks(w, chain.alloc.Mem(), chain.Val()) && Took(w0, w, batch)
    }

    /** Takes the next record off the chain. */
    method TakeRecord(chain: BufferChain, n: nat, batch: seq<RecordRef>,
                      ghost h0: seq<Segment>, ghost w0: World, ghost w: World, ghost goal: Read)
      returns (batch': seq<RecordRef>, ghost w': World)
      requires Reading(chain, batch, h0, w0, w, goal) && NextRecord(version, chain.Contents()) == Record(n)
      modifies chain, chain.alloc
      ensures Reading(chain, batch', h0, w0, w', goal)
      ensures chain.Contents() == old(chain.Contents())[n..]
      ensures BatchBytes(chain.alloc.heap, batch') ==
              BatchBytes(old(chain.alloc.heap), batch) + [Deliver(conv, version, old(chain.Contents())[..n])]
      ensures |batch'| == |batch| + 1 && version <= 3
              && ConvertedTo(conv, version, old(chain.Contents())[..n], BatchBytes(chain.alloc.heap, batch')[|batch|])
    {
      RecordsStep(conv, version, chain.Contents(), BatchBytes(chain.alloc.heap, batch), goal);
      ghost var h := chain.alloc.heap;
      batch', w' := TakeFront(chain, n, batch, w0, w);
      SameBytesTrans(h0, h, chain.alloc.heap);
    }

    method TakeFront(chain: BufferChain, n: nat, batch: seq<RecordRef>, ghost w0: World, ghost w: World)
      returns (batch': seq<RecordRef>, ghost w': World)
      requires chain.Valid() && NextRecord(version, chain.Contents()) == Record(n)
      requires Tracks(w, chain.alloc.Mem(), chain.Val()) && Took(w0, w, batch)
      modifies chain, chain.alloc
      ensures chain.Valid() && Spec.SameHeapBytes(old(chain.alloc.heap), chain.alloc.heap)
      ensures chain.Contents() == old(chain.Contents())[n..]
      ensures BatchBytes(chain.alloc.heap, batch') ==
              BatchBytes(old(chain.alloc.heap), batch) + [Deliver(conv, version, old(chain.Contents())[..n])]
      ensures Tracks(w', chain.alloc.Mem(), chain.Val()) && Took(w0, w', batch')
    {
      hide Tracks, Follows, Took, BatchBytes, RefBytes, Deliver, View, Spec.SameHeapBytes;
      ghost var h0, m0, c0 := chain.alloc.heap, chain.alloc.Mem(), chain.Val();
      var ref := MakeRef(chain, n);
      ghost var h1, m1 := chain.alloc.heap, chain.alloc.Mem();
      ghost var w1 := RefTaken(w, m0, c0, m1, ref, n);
      chain.Consume(n);
      batch' := batch + [ref];
      w' := Consumed(w1, m1, c0, n);
      TookOne(w0, w, w', batch, ref) by { FollowsTrans(w, w1, w'); }
      BatchFrame(h0, h1, batch);
      BatchAdd(h1, batch, ref);
      BatchFrame(h1, chain.alloc.heap, batch');
      SameBytesTrans(h0, h1, chain.alloc.heap);
    }

    /** MakeRef is a step of the world, or none. */
    static ghost function RefTaken(w: World, m: Memory, c: Chain, m': Memory, ref: RecordRef, n: nat): (w': World)
      requires Tracks(w, m, c) && ChainOk(m, c) && n > 0
      requires ref.ZeroCopy? ==>
                 && Spec.IsContiguous(m, c, 0, n) && (ref.seg, ref.pos) == Spec.PointerAt(m, c, 0) && ref.size == n
                 && ref.seg < |m.heap| && m' == Segments.Share(m, ref.seg)
      requires ref.Scratch? ==> m' == m
      ensures Tracks(w', m', c) && Follows(w, w') && w'.refs == w.refs + RefOf(ref, true)
    {
      if ref.ZeroCopy? then
        Taken(w, m, c, n)
      else
        Same(w, m, c);
        w
    }

    /** A batch that is not delivered is destroyed: each of its references is dropped. */
    method DropBatch(chain: BufferChain, batch: seq<RecordRef>, ghost w0: World, ghost w: World)
      returns (ghost w': World)
      requires chain.Valid() && Tracks(w, chain.alloc.Mem(), chain.Val()) && Took(w0, w, batch)
      modifies chain.alloc`heap
      ensures chain.Valid() && chain.Contents() == old(chain.Contents())
      ensures Spec.SameHeapBytes(old(chain.alloc.heap), chain.alloc.heap)
      ensures Tracks(w', chain.alloc.Mem(), chain.Val()) && GaveBack(w0, w')
    {
      hide Tracks, Follows;
      ghost var h := chain.alloc.heap;
      ghost var dropped: set<nat> := {};
      w' := w;
      var i := 0;
      while i < |batch|
        invariant i <= |batch| && Spec.SameHeapBytes(h, chain.alloc.heap)
        invariant Tracks(w', chain.alloc.Mem(), chain.Val()) && Follows(w0, w')
        invariant forall j: nat :: j in dropped <==> j < i
        invariant w'.refs == w0.refs + RefsOf(batch, dropped)
      {
        if batch[i].ZeroCopy? {
          RefAt(batch, i, dropped);
          RefsDrop(batch, i, dropped);
          ghost var k, w1 := |w0.refs| + KeyOf(batch, i), w';
          w' := Dropped(w1, chain.alloc.Mem(), chain.Val(), k);
          chain.alloc.Drop(batch[i].seg);
          FollowsTrans(w0, w1, w');
        } else {
          RefsScratch(batch, i, dropped);
        }
        dropped := dropped + {i};
        i := i + 1;
      }
      RefsDead(batch, dropped);
      TracksOk(w', chain.alloc.Mem(), chain.Val());
      ViewFrame(h, chain.alloc.heap, chain.Val());
    }

    /** Parses every complete record in the chain; an incomplete one stays for the next call.
        The references taken are exactly those of the batch delivered, and none when there is
        none. */
    method OnData(chain: BufferChain, ghost w: World) returns (ghost w': World)
      requires chain.Valid() && Valid()
      requires Tracks(w, chain.alloc.Mem(), chain.Val())
      modifies this, chain, chain.alloc
      ensures chain.Valid() && Valid()
      ensures Spec.SameHeapBytes(old(chain.alloc.heap), chain.alloc.heap)
      ensures var o := Feed(conv, old(State()), old(chain.Contents()));
              && State() == o.state && chain.Contents() == o.rest
              && (if o.records == [] then
                    batches == old(batches) && GaveBack(w, w') && (o.state.failed || w'.refs == w.refs)
                  else |batches| == |old(batches)| + 1 && batches[..|old(batches)|] == old(batches)
                       && BatchBytes(chain.alloc.heap, batches[|old(batches)|]) == o.records
                       && Took(w, w', batches[|old(batches)|]))
      ensures |batches| > |old(batches)| ==>
                var raw := Parse(RAW, old(State()), old(chain.Contents())).records;
                var shown := BatchBytes(chain.alloc.heap, batches[|old(batches)|]);
                |shown| == |raw| && forall i :: 0 <= i < |raw| ==> ConvertedTo(conv, version, raw[i], shown[i])
      ensures Tracks(w', chain.alloc.Mem(), chain.Val())
      ensures completions == old(completions)
      ensures errors == old(errors) + (if finalized && !old(finalized) then 1 else 0)
    {
      hide Tracks, Follows, Took, GaveBack, View, ChainOk, Records, BatchBytes;
      ParseConverted(conv, State(), chain.Contents());
      Same(w, chain.alloc.Mem(), chain.Val());
      TookNone(w, w);
      if finalized { return w; }
      w' := Consumed(w, chain.alloc.Mem(), chain.Val(), Skipped(State(), chain.Contents()));
      var ready := SkipMetadataIfNeeded(chain);
      TookNone(w, w');
      if !ready { return; }
      ghost var goal := Records(conv, version, chain.Contents());
      assert Parse(conv, old(State()), old(chain.Contents()))
          == Outcome(goal.records, goal.rest, PState(true, version, goal.bad));
      w' := ParseRecords(chain, w, w');
    }

    /** The record loop of OnData and the delivery after it. */
    method ParseRecords(chain: BufferChain, ghost w0: World, ghost w: World) returns (ghost w': World)
      requires chain.Valid() && metadataParsed && !finalized
      requires Tracks(w, chain.alloc.Mem(), chain.Val()) && Follows(w0, w) && w.refs == w0.refs
      modifies this, chain, chain.alloc
      ensures chain.Valid() && metadataParsed && version == old(version)
      ensures Spec.SameHeapBytes(old(chain.alloc.heap), chain.alloc.heap)
      ensures var o := Records(conv, old(version), old(chain.Contents()));
              && finalized == o.bad && chain.Contents() == o.rest
              && (if o.bad || o.records == [] then
                    batches == old(batches) && GaveBack(w0, w') && (o.bad || w'.refs == w0.refs)
                  else |batches| == |old(batches)| + 1 && batches[..|old(batches)|] == old(batches)
                       && BatchBytes(chain.alloc.heap, batches[|old(batches)|]) == o.records
                       && Took(w0, w', batches[|old(batches)|]))
      ensures Tracks(w', chain.alloc.Mem(), chain.Val())
      ensures completions == old(completions) && errors == old(errors) + (if finalized then 1 else 0)
    {
      hide Tracks, Follows, Took, GaveBack, Records, Spec.SameHeapBytes;
      var ok, batch;
      ok, batch, w' := TakeRecords(chain, w0, w);
      if !ok {
        ReportTerminalError();
        ghost var h := chain.alloc.heap;
        w' := DropBatch(chain, batch, w0, w');
        SameBytesTrans(old(chain.alloc.heap), h, chain.alloc.heap);
        return;
      }
      if batch != [] {
        batches := batches + [batch];
      } else {
        TookNothing(w0, w');
      }
    }

    /** The tests at the top of the record loop. */
    method CheckHeader(chain: BufferChain) returns (next: Next)
      requires chain.Valid()
      ensures next == NextRecord(version, chain.Contents())
    {
      var size := chain.Size();
      if size < HEADER_SIZE { return NeedMore; }
      var n := HeaderSize(chain);
      if n < HEADER_SIZE { return Invalid; }
      // The second size check, n > MAX_RECORD_SIZE, cannot fire: RecordSize is at most 1020.
      if size < n { return NeedMore; }
      if version > 3 { return Invalid; }
      return Record(n);
    }

    /** The record loop: `ok` is false once a header is bad. */
    method TakeRecords(chain: BufferChain, ghost w0: World, ghost w: World)
      returns (ok: bool, batch: seq<RecordRef>, ghost w': World)
      requires chain.Valid() && metadataParsed && !finalized
      requires Tracks(w, chain.alloc.Mem(), chain.Val()) && Follows(w0, w) && w.refs == w0.refs
      modifies chain, chain.alloc
      ensures chain.Valid() && Spec.SameHeapBytes(old(chain.alloc.heap), chain.alloc.heap)
      ensures Read(BatchBytes(chain.alloc.heap, batch), chain.Contents(), !ok)
          == Records(conv, version, old(chain.Contents()))
      ensures Tracks(w', chain.alloc.Mem(), chain.Val()) && Took(w0, w', batch)
    {
      ghost var h0, goal := chain.alloc.heap, Records(conv, version, chain.Contents());
      assert BatchBytes(h0, []) == [];
      hide Tracks, Follows, Took, Reaches, Records, NextRecord, Deliver, MemOk, ChainOk, View, BatchBytes;
      batch := [];
      ReachesStart(conv, version, chain.Contents());

      var next := CheckHeader(chain);
      w' := w;
      TookNone(w0, w);
      while next.Record?
        invariant Reading(chain, batch, h0, w0, w', goal)
        invariant next == NextRecord(version, chain.Contents())
        decreases |chain.Contents()|
      {
        batch, w' := TakeRecord(chain, next.size, batch, h0, w0, w', goal);
        next := CheckHeader(chain);
      }
      ReachesEnd(conv, version, chain.Contents(), BatchBytes(chain.alloc.heap, batch), goal);
      ok := next.NeedMore?;
    }

    /** OnError: forwarded once. */
    method OnError()
      modifies this`finalized, this`errors
      ensures finalized && errors == old(errors) + (if old(finalized) then 0 else 1)
    {
      if finalized { return; }
      finalized := true;
      errors := errors + 1;
    }

    /** OnComplete with no chain to check. It does not set the finalized flag. */
    method OnComplete()
      modifies this`completions
      ensures completions == old(completions) + (if finalized then 0 else 1)
    {
      if finalized { return; }
      completions := completions + 1;
    }

    /** OnComplete at the end of a stream: an incomplete record is an error. */
    method OnCompleteChain(chain: BufferChain)
      requires chain.Valid()
      modifies this
      ensures State() == old(State()).(failed := finalized) && batches == old(batches)
      ensures finalized <==> old(finalized) || chain.Contents() != []
      ensures completions == old(completions) + (if finalized then 0 else 1)
      ensures errors == old(errors) + (if finalized && !old(finalized) then 1 else 0)
    {
      if finalized { return; }
      var size := chain.Size();
      if size != 0 {
        ReportTerminalError();
        return;
      }
      completions := completions + 1;
    }
  }
}
