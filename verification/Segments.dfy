/** The shared memory of the streaming core: fixed-size segments held by counted
    references, the allocator's free list, and the abstract value of a chain.

    A segment is named by its position in `heap`; `uses` is the shared_ptr use count, and a
    segment whose count has reached zero is dead and never named again. */
module Segments {
  import opened Bytes

  const SEGMENT_SIZE: nat := 64 * 1024

  type SegId = nat

  datatype Segment = Segment(data: seq<byte>, size: nat, uses: nat) {
    predicate Ok() { |data| == SEGMENT_SIZE && size <= SEGMENT_SIZE }

    function Remaining(): nat requires Ok() { SEGMENT_SIZE - size }

    /** Appends as much of `src` as fits after the bytes already written. */
    function Append(src: seq<byte>): (s: Segment)
      requires Ok()
      ensures s.Ok() && s.uses == uses
      ensures s.data[..s.size] == data[..size] + src[..Min(|src|, Remaining())]
    {
      var n := Min(|src|, Remaining());
      Segment(data[..size] + src[..n] + data[size + n..], size + n, uses)
    }
  }

  datatype Memory = Memory(heap: seq<Segment>, freeList: seq<SegId>, maxPool: nat)

  /** The value of a BufferChain: its segments, the bytes already consumed from the first
      one, the cached size, and whether a recycle callback is set. */
  datatype Chain = Chain(segs: seq<SegId>, offset: nat, total: nat, recycles: bool)

  predicate MemOk(m: Memory) {
    && (forall id {:trigger m.heap[id]} :: 0 <= id < |m.heap| ==> m.heap[id].Ok())
    && (forall i {:trigger m.freeList[i]} :: 0 <= i < |m.freeList| ==>
          m.freeList[i] < |m.heap| && m.heap[m.freeList[i]].uses == 1)
    && (forall i, j :: 0 <= i < j < |m.freeList| ==> m.freeList[i] != m.freeList[j])
  }

  function SegBytes(h: seq<Segment>, id: SegId): seq<byte> {
    if id < |h| && h[id].size <= |h[id].data| then h[id].data[..h[id].size] else []
  }

  /** All valid bytes of the listed segments, in order. */
  function Flat(h: seq<Segment>, segs: seq<SegId>): seq<byte> {
    if segs == [] then [] else SegBytes(h, segs[0]) + Flat(h, segs[1..])
  }

  predicate Held(m: Memory, id: SegId) {
    id < |m.heap| && m.heap[id].size > 0 && m.heap[id].uses > 0 && id !in m.freeList
  }

  predicate ChainOk(m: Memory, c: Chain) {
    && MemOk(m)
    && (forall i :: 0 <= i < |c.segs| ==> Held(m, c.segs[i]))
    && (forall i, j :: 0 <= i < j < |c.segs| ==> c.segs[i] != c.segs[j])
    && (if c.segs == [] then c.offset == 0 else c.offset < m.heap[c.segs[0]].size)
    && c.total == |Flat(m.heap, c.segs)| - c.offset
  }

  /** The flat byte sequence a chain stands for. */
  function View(h: seq<Segment>, c: Chain): seq<byte> {
    var all := Flat(h, c.segs);
    if c.offset <= |all| then all[c.offset..] else []
  }

  // ---- Frame facts -------------------------------------------------------------------

  /** The heap grew, and every segment listed in `segs` still holds the same bytes. */
  ghost predicate SameBytes(h: seq<Segment>, h': seq<Segment>, segs: seq<SegId>) {
    |h| <= |h'| && forall id {:trigger SegBytes(h', id)} :: id in segs ==> SegBytes(h', id) == SegBytes(h, id)
  }

  lemma {:induction false} FlatFrame(h: seq<Segment>, h': seq<Segment>, segs: seq<SegId>)
    requires SameBytes(h, h', segs)
    ensures Flat(h', segs) == Flat(h, segs)
  {
    if segs != [] {
      assert segs[0] in segs;
      assert forall id :: id in segs[1..] ==> id in segs;
      FlatFrame(h, h', segs[1..]);
    }
  }

  lemma {:induction false} FlatAppend(h: seq<Segment>, a: seq<SegId>, b: seq<SegId>)
    ensures Flat(h, a + b) == Flat(h, a) + Flat(h, b)
  {
    if a == [] {
      assert a + b == b;
    } else {
      FlatAppend(h, a[1..], b);
      assert (a + b)[1..] == a[1..] + b;
    }
  }

  lemma {:induction false} FlatSingle(h: seq<Segment>, id: SegId)
    ensures Flat(h, [id]) == SegBytes(h, id)
  {
    assert [id][1..] == [];
    assert Flat(h, [id]) == SegBytes(h, id) + Flat(h, []);
  }

  // ---- SegmentAllocator --------------------------------------------------------------

  /** A new segment: value-initialised, held by whoever made it. */
  function NewSegment(): (s: Segment)
    ensures s.Ok() && s.size == 0 && s.uses == 1
  {
    Segment(seq(SEGMENT_SIZE, i => 0 as byte), 0, 1)
  }

  /** Allocate: reuse the back of the free list, otherwise make a new segment. */
  function Allocate(m: Memory): (r: (Memory, SegId))
    requires MemOk(m)
  {
    if m.freeList != [] then
      var last := |m.freeList| - 1;
      var id := m.freeList[last];
      (m.(freeList := m.freeList[..last], heap := m.heap[id := m.heap[id].(size := 0)]), id)
    else
      (m.(heap := m.heap + [NewSegment()]), |m.heap|)
  }

  /** Release: back to the pool when the caller's reference is the only one and there is
      room, otherwise that reference is dropped. */
  function Release(m: Memory, id: SegId): Memory
    requires id < |m.heap| && m.heap[id].uses > 0
  {
    if m.heap[id].uses == 1 && |m.freeList| < m.maxPool then m.(freeList := m.freeList + [id]) else Drop(m, id)
  }

  /** A holder lets go of its reference. */
  function Drop(m: Memory, id: SegId): Memory
    requires id < |m.heap| && m.heap[id].uses > 0
  {
    m.(heap := m.heap[id := m.heap[id].(uses := m.heap[id].uses - 1)])
  }

  /** A new holder takes a reference. */
  function Share(m: Memory, id: SegId): Memory
    requires id < |m.heap|
  {
    m.(heap := m.heap[id := m.heap[id].(uses := m.heap[id].uses + 1)])
  }

  lemma {:induction false} AllocateOk(m: Memory)
    requires MemOk(m)
    ensures var (m', id) := Allocate(m);
            && MemOk(m') && id < |m'.heap| && id !in m'.freeList
            && m'.heap[id].uses == 1 && m'.heap[id].size == 0
            && |m.heap| <= |m'.heap|
            && (forall k :: 0 <= k < |m.heap| && k != id ==> m'.heap[k] == m.heap[k])
            && (id < |m.heap| ==> id in m.freeList)
            && (forall k :: k in m'.freeList ==> k in m.freeList)
  {
  }
}
