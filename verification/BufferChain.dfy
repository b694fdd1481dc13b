/** SegmentAllocator and BufferChain as the objects they are, each method proved to have
    the effect ChainSpec gives it and, through that, the effect on the flat bytes. */
module BufferChains {
  import opened Bytes
  import opened Segments
  import Spec = ChainSpec

  class SegmentAllocator {
    var heap: seq<Segment>
    var freeList: seq<SegId>
    var maxPoolSize: nat

    ghost function Mem(): Memory reads this { Memory(heap, freeList, maxPoolSize) }

    constructor ()
      ensures MemOk(Mem()) && heap == [] && freeList == [] && maxPoolSize == 32
    {
      heap, freeList, maxPoolSize := [], [], 32;
    }

    /** A segment nobody else holds, empty, taken from the pool first. */
    method Allocate() returns (id: SegId)
      requires MemOk(Mem())
      modifies this
      ensures (Mem(), id) == Segments.Allocate(old(Mem()))
      ensures MemOk(Mem()) && id < |heap| && id !in freeList && heap[id].size == 0 && heap[id].uses == 1
    {
      AllocateOk(Mem());
      if freeList != [] {
        var last := |freeList| - 1;
        id := freeList[last];
        freeList := freeList[..last];
        heap := heap[id := heap[id].(size := 0)];
      } else {
        id := |heap|;
        heap := heap + [NewSegment()];
      }
    }

    /** Takes over the caller's reference. */
    method Release(id: SegId)
      requires id < |heap| && heap[id].uses > 0
      modifies this
      ensures Mem() == Segments.Release(old(Mem()), id)
    {
      if heap[id].uses == 1 && |freeList| < maxPoolSize {
        freeList := freeList + [id];
      } else {
        Drop(id);
      }
    }

    /** Segment::Append on a segment the caller owns. */
    method Write(id: SegId, bytes: seq<byte>)
      requires id < |heap| && heap[id].Ok()
      modifies this`heap
      ensures heap == old(heap)[id := old(heap[id]).Append(bytes)]
    {
      heap := heap[id := heap[id].Append(bytes)];
    }

    /** A shared_ptr to the segment is destroyed. */
    method Drop(id: SegId)
      requires id < |heap| && heap[id].uses > 0
      modifies this`heap
      ensures Mem() == Segments.Drop(old(Mem()), id)
    {
      heap := heap[id := heap[id].(uses := heap[id].uses - 1)];
    }

    /** A shared_ptr to the segment is copied. */
    method Share(id: SegId)
      requires id < |heap|
      modifies this`heap
      ensures Mem() == Segments.Share(old(Mem()), id)
    {
      heap := heap[id := heap[id].(uses := heap[id].uses + 1)];
    }
  }

  class BufferChain {
    var segments: seq<SegId>
    var consumedOffset: nat
    var totalSize: nat
    var recycles: bool
    const alloc: SegmentAllocator

    ghost function Val(): Chain reads this { Chain(segments, consumedOffset, totalSize, recycles) }

    ghost predicate Valid()
      reads this, alloc
    {
      ChainOk(alloc.Mem(), Val())
    }

    /** The bytes not yet consumed. */
    ghost function Contents(): (s: seq<byte>)
      reads this, alloc
    {
      View(alloc.heap, Val())
    }

    constructor (alloc: SegmentAllocator, recycles: bool)
      requires MemOk(alloc.Mem())
      ensures Valid() && this.alloc == alloc && this.recycles == recycles && Contents() == []
      ensures Val() == Chain([], 0, 0, recycles)
    {
      this.alloc := alloc;
      segments, consumedOffset, totalSize, this.recycles := [], 0, 0, recycles;
    }

    method Size() returns (n: nat)
      requires Valid()
      ensures n == totalSize == |Contents()|
    {
      n := totalSize;
      if segments != [] { Spec.FlatFirst(alloc.Mem(), Val()); }
    }

    method ContiguousSize() returns (n: nat)
      requires Valid()
      ensures n <= |Contents()| && (n == 0 <==> Contents() == [])
      ensures segments != [] ==> n == alloc.heap[segments[0]].size - consumedOffset
    {
      Spec.EmptyChain(alloc.Mem(), Val());
      if segments == [] { return 0; }
      Spec.FlatFirst(alloc.Mem(), Val());
      assert Held(alloc.Mem(), segments[0]);
      n := alloc.heap[segments[0]].size - consumedOffset;
    }

    /** Takes over the caller's reference to the segment. */
    method Append(id: SegId)
      requires Valid() && Spec.Owned(alloc.Mem(), Val(), id)
      modifies this, alloc
      ensures (alloc.Mem(), Val()) == Spec.AppendSegment(old(alloc.Mem()), old(Val()), id)
      ensures Valid() && Contents() == old(Contents()) + old(SegBytes(alloc.heap, id))
    {
      Spec.AppendSegmentView(alloc.Mem(), Val(), id);
      if alloc.heap[id].size > 0 {
        totalSize := totalSize + alloc.heap[id].size;
        segments := segments + [id];
      } else {
        alloc.Drop(id);
      }
    }

    /** Use up the whole front segment: recycle or drop it. */
    method ReleaseFront()
      requires Valid() && segments != []
      modifies this, alloc
      ensures (alloc.Mem(), Val()) == Spec.PopFront(old(alloc.Mem()), old(Val()))
      ensures Valid() && |segments| < |old(segments)|
    {
      Spec.PopFrontView(alloc.Mem(), Val());
      Spec.FlatFirst(alloc.Mem(), Val());
      assert Held(alloc.Mem(), segments[0]);
      totalSize := totalSize - (alloc.heap[segments[0]].size - consumedOffset);
      consumedOffset := 0;
      if recycles {
        alloc.Release(segments[0]);
      } else {
        alloc.Drop(segments[0]);
      }
      segments := segments[1..];
    }

    /** One round of Consume's loop: use up the front segment, or move into it. */
    method ConsumeFront(bytes: nat) returns (left: nat)
      requires Valid() && segments != [] && bytes > 0
      modifies this, alloc
      ensures Valid()
      ensures Spec.Consume(alloc.Mem(), Val(), left) == Spec.Consume(old(alloc.Mem()), old(Val()), bytes)
      ensures left == 0 || |segments| < |old(segments)|
    {
      Spec.FlatFirst(alloc.Mem(), Val());
      assert Held(alloc.Mem(), segments[0]);
      var available := alloc.heap[segments[0]].size - consumedOffset;
      if bytes >= available {
        ReleaseFront();
        left := bytes - available;
      } else {
        consumedOffset := consumedOffset + bytes;
        totalSize := totalSize - bytes;
        left := 0;
      }
    }

    method Consume(bytes: nat)
      requires Valid()
      modifies this, alloc
      ensures (alloc.Mem(), Val()) == Spec.Consume(old(alloc.Mem()), old(Val()), bytes)
      ensures Valid() && Contents() == old(Contents())[Min(bytes, |old(Contents())|)..]
      ensures Spec.SameHeapBytes(old(alloc.heap), alloc.heap)
    {
      ghost var m0, c0 := alloc.Mem(), Val();
      var left: nat := bytes;
      while left > 0 && segments != []
        invariant Valid()
        invariant Spec.Consume(alloc.Mem(), Val(), left) == Spec.Consume(m0, c0, bytes)
        decreases left > 0, |segments|
      {
        left := ConsumeFront(left);
      }
      assert (alloc.Mem(), Val()) == Spec.Consume(m0, c0, bytes);
      ConsumeFacts(m0, c0, bytes);
    }

    static lemma {:induction false} ConsumeFacts(m: Memory, c: Chain, n: nat)
      requires ChainOk(m, c)
      ensures var r := Spec.Consume(m, c, n);
              && Spec.Becomes(r.0, r.1, View(m.heap, c)[Min(n, |View(m.heap, c)|)..])
              && Spec.SameHeapBytes(m.heap, r.0.heap)
    {
      Spec.ConsumeView(m, c, n);
      Spec.ConsumeHeap(m, c, n);
    }

    /** The loop with which IsContiguous, DataAt, GetSegmentAt and CopyTo start. */
    method FindSegment(offset: nat) returns (index: nat, pos: nat)
      requires Valid()
      ensures (index, pos) == Spec.Locate(alloc.Mem(), segments, consumedOffset + offset)
      ensures index < |segments| <==> offset < |Contents()|
    {
      ghost var m := alloc.Mem();
      Spec.LocateCorrect(m, segments, consumedOffset + offset);
      if segments != [] { Spec.FlatFirst(m, Val()); }
      index, pos := 0, consumedOffset + offset;
      while index < |segments| && pos >= alloc.heap[segments[index]].size
        invariant index <= |segments|
        invariant Spec.LocateFrom(m, segments, index, pos) == Spec.Locate(m, segments, consumedOffset + offset)
      {
        assert Held(m, segments[index]);
        pos := pos - alloc.heap[segments[index]].size;
        index := index + 1;
      }
    }

    method IsContiguous(offset: nat, len: nat) returns (r: bool)
      requires Valid()
      ensures r == Spec.IsContiguous(alloc.Mem(), Val(), offset, len)
      ensures len > 0 ==> (r <==> exists i: nat :: i < |segments| && Spec.CoveredBy(alloc.heap, Val(), i, offset, len))
      ensures len == 0 ==> (r <==> Contents() != [] && offset <= |Contents()|)
    {
      Spec.ContiguousIff(alloc.Mem(), Val(), offset, len);
      if segments == [] { return false; }
      if len == 0 { return offset <= totalSize; }
      var index, pos := FindSegment(offset);
      if index >= |segments| { return false; }
      assert Held(alloc.Mem(), segments[index]);
      r := pos + len <= alloc.heap[segments[index]].size;
    }

    /** The raw pointer: a segment and a position in it. */
    method DataAt(offset: nat) returns (id: SegId, pos: nat)
      requires Valid() && offset < |Contents()|
      ensures (id, pos) == Spec.PointerAt(alloc.Mem(), Val(), offset)
      ensures id in segments && id < |alloc.heap| && pos < alloc.heap[id].size
    {
      Spec.LocateCorrect(alloc.Mem(), segments, consumedOffset + offset);
      var index, p := FindSegment(offset);
      assert Held(alloc.Mem(), segments[index]);
      id, pos := segments[index], p;
    }

    /** The keepalive for a pointer into the segment at `offset`: one more use of it. */
    method GetSegmentAt(offset: nat) returns (id: SegId)
      requires Valid() && offset < |Contents()|
      modifies alloc`heap
      ensures id == Spec.PointerAt(old(alloc.Mem()), Val(), offset).0
      ensures id < |old(alloc.heap)| && alloc.Mem() == Segments.Share(old(alloc.Mem()), id)
      ensures Valid() && Contents() == old(Contents()) && Spec.SameHeapBytes(old(alloc.heap), alloc.heap)
    {
      ghost var m := alloc.Mem();
      Spec.LocateCorrect(m, segments, consumedOffset + offset);
      var index, p := FindSegment(offset);
      assert Held(m, segments[index]);
      id := segments[index];
      alloc.Share(id);
      forall i | 0 <= i < |segments| ensures segments[i] < |m.heap| && alloc.heap[segments[i]].uses > 0 {
        assert Held(m, segments[i]);
      }
      Spec.CountsOnly(m, alloc.Mem(), Val());
    }

    /** The bytes CopyTo writes to its destination: a slice of the contents, gathered across
        segment boundaries. */
    method CopyTo(offset: nat, len: nat) returns (dest: seq<byte>)
      requires Valid() && offset + len <= |Contents()|
      ensures dest == Contents()[offset..offset + len]
    {
      dest := [];
      if len == 0 { return; }
      ghost var start := consumedOffset + offset;
      Spec.StartCursor(alloc.Mem(), Val(), offset);
      Spec.ViewSlice(alloc.heap, Val(), offset, len);
      var index: nat, pos: nat := FindSegment(offset);
      while |dest| < len && index < |segments|
        invariant index <= |segments| && |dest| <= len
        invariant |dest| < len ==> Spec.Cursor(alloc.Mem(), segments, index, pos, start + |dest|)
        invariant dest == Flat(alloc.heap, segments)[start..start + |dest|]
        decreases |segments| - index
      {
        dest := CopyRun(index, pos, len, dest, start);
        pos := 0;
        index := index + 1;
      }
    }

    /** One round of CopyTo's loop. */
    method CopyRun(index: nat, pos: nat, len: nat, dest: seq<byte>, ghost start: nat) returns (dest': seq<byte>)
      requires Valid() && |dest| < len && start + len <= |Flat(alloc.heap, segments)|
      requires Spec.Cursor(alloc.Mem(), segments, index, pos, start + |dest|)
      requires dest == Flat(alloc.heap, segments)[start..start + |dest|]
      ensures |dest| <= |dest'| <= len && dest' == Flat(alloc.heap, segments)[start..start + |dest'|]
      ensures |dest'| < len ==> Spec.Cursor(alloc.Mem(), segments, index + 1, 0, start + |dest'|)
    {
      var data := alloc.heap[segments[index]].data;
      var available := alloc.heap[segments[index]].size - pos;
      var n := Min(available, len - |dest|);
      assert index + 1 < |segments| ==> Held(alloc.Mem(), segments[index + 1]);
      Spec.CopyRun(alloc.Mem(), segments, index, pos, start + |dest|, n);
      Spec.SliceGrows(Flat(alloc.heap, segments), dest, data[pos..pos + n], start, start + |dest|, start + |dest| + n);
      dest' := dest + data[pos..pos + n];
      assert start + |dest| + n == start + |dest'|;
    }

    method Compact()
      requires Valid()
      modifies this, alloc
      ensures (alloc.Mem(), Val()) == Spec.Compact(old(alloc.Mem()), old(Val()))
      ensures Valid() && Contents() == old(Contents()) && consumedOffset == 0
    {
      Spec.CompactView(alloc.Mem(), Val());
      if consumedOffset == 0 || segments == [] { return; }
      var id := segments[0];
      assert Held(alloc.Mem(), id);
      var first := alloc.heap[id];
      var rest := first.data[consumedOffset..first.size];
      if first.uses > 1 {
        var newId := |alloc.heap|;
        alloc.Drop(id);
        alloc.heap := alloc.heap + [NewSegment().Append(rest)];
        segments := [newId] + segments[1..];
      } else {
        alloc.heap := alloc.heap[id := Segment(rest + first.data[|rest|..], |rest|, first.uses)];
      }
      consumedOffset := 0;
    }

    /** Moves everything in `other` to the end of this chain. */
    method Splice(other: BufferChain)
      requires Valid() && other.Valid() && other != this && other.alloc == alloc
      requires Spec.Disjoint(segments, other.segments)
      modifies this, other, alloc
      ensures (alloc.Mem(), Val(), other.Val()) == Spec.Splice(old(alloc.Mem()), old(Val()), old(other.Val()))
      ensures Valid() && other.Valid()
      ensures Contents() == old(Contents()) + old(other.Contents()) && other.Contents() == []
    {
      Spec.SpliceView(alloc.Mem(), Val(), other.Val());
      if other.totalSize == 0 { return; }
      if other.consumedOffset != 0 {
        other.Compact();
      }
      if !recycles && other.recycles {
        recycles := other.recycles;
      }
      totalSize := totalSize + other.totalSize;
      segments := segments + other.segments;
      other.segments, other.consumedOffset, other.totalSize := [], 0, 0;
    }

    method CompactAndSplice(other: BufferChain)
      requires Valid() && other.Valid() && other != this && other.alloc == alloc
      requires Spec.Disjoint(segments, other.segments)
      modifies this, other, alloc
      ensures (alloc.Mem(), Val(), other.Val()) == Spec.CompactAndSplice(old(alloc.Mem()), old(Val()), old(other.Val()))
      ensures Valid() && other.Valid() && (old(segments) != [] ==> consumedOffset == 0 || old(consumedOffset) == 0)
      ensures Contents() == old(Contents()) + old(other.Contents()) && other.Contents() == []
    {
      if consumedOffset > 0 {
        Spec.CompactLeavesOther(alloc.Mem(), Val(), other.Val());
        Compact();
      }
      Splice(other);
    }

    method AppendBytes(bytes: seq<byte>)
      requires Valid()
      modifies this, alloc
      ensures (alloc.Mem(), Val()) == Spec.AppendBytes(old(alloc.Mem()), old(Val()), bytes)
      ensures Valid() && Contents() == old(Contents()) + bytes
    {
      ghost var m0, c0 := alloc.Mem(), Val();
      assert bytes[0..] == bytes;
      var offset: nat := 0;
      while offset < |bytes|
        invariant offset <= |bytes| && Valid()
        invariant Spec.AppendBytes(alloc.Mem(), Val(), bytes[offset..]) == Spec.AppendBytes(m0, c0, bytes)
      {
        var n := AppendSome(bytes[offset..]);
        Spec.DropDrop(bytes, offset, n);
        offset := offset + n;
      }
      assert bytes[offset..] == [];
      Spec.AppendBytesView(m0, c0, bytes);
    }

    /** One round of AppendBytes' loop: a new segment with as much as it holds. */
    method AppendSome(bytes: seq<byte>) returns (n: nat)
      requires Valid() && bytes != []
      modifies this, alloc
      ensures n == Min(|bytes|, SEGMENT_SIZE) > 0
      ensures Valid() && (alloc.Mem(), Val()) == Spec.FillOne(old(alloc.Mem()), old(Val()), bytes)
    {
      Spec.FillOneView(alloc.Mem(), Val(), bytes);
      var id := alloc.Allocate();
      alloc.Write(id, bytes);
      Append(id);
      n := Min(|bytes|, SEGMENT_SIZE);
    }

    method Clear()
      requires Valid()
      modifies this, alloc
      ensures (alloc.Mem(), Val()) == Spec.Clear(old(alloc.Mem()), old(Val()))
      ensures Valid() && Contents() == []
    {
      ghost var m0, cur := alloc.Mem(), Val();
      var k := 0;
      while k < |segments|
        invariant k <= |segments| && ChainOk(alloc.Mem(), cur)
        invariant cur.segs == segments[k..] && cur.recycles == recycles
        invariant Spec.Clear(alloc.Mem(), cur) == Spec.Clear(m0, old(Val()))
      {
        Spec.PopFrontView(alloc.Mem(), cur);
        assert Held(alloc.Mem(), cur.segs[0]);
        cur := Spec.PopFront(alloc.Mem(), cur).1;
        if recycles {
          alloc.Release(segments[k]);
        } else {
          alloc.Drop(segments[k]);
        }
        k := k + 1;
      }
      segments := [];
      consumedOffset := 0;
      totalSize := 0;
    }
  }
}
