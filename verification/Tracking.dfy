/** A ghost world of holders kept beside a real allocator and a real chain: what the methods
    do to memory are steps of SharedSegments, so its invariant and the stability of live
    references carry over to them. The chain in question is the world's first. */
module Tracking {
  import opened Bytes
  import opened Segments
  import opened SharedSegments
  import Spec = ChainSpec

  ghost predicate Tracks(w: World, m: Memory, c: Chain) {
    Inv(w) && w.mem == m && w.chains != [] && w.chains[0] == c
  }

  /** The chains other than the first are the same and read the same. */
  ghost predicate OthersSame(w: World, w': World) {
    |w'.chains| == |w.chains| && forall i {:trigger w'.chains[i]} :: 0 < i < |w.chains| ==>
      w'.chains[i] == w.chains[i] && View(w'.mem.heap, w.chains[i]) == View(w.mem.heap, w.chains[i])
  }

  /** `w'` came from `w` by steps of the world; nothing was taken from or given to a hand, or done
      to another chain. */
  ghost predicate Follows(w: World, w': World) { Kept(w, w') && w'.hands == w.hands && OthersSame(w, w') }

  lemma {:induction false} ViewFrame(h: seq<Segment>, h': seq<Segment>, c: Chain)
    requires Spec.SameHeapBytes(h, h')
    ensures View(h', c) == View(h, c)
  {
    forall id | id in c.segs ensures SegBytes(h', id) == SegBytes(h, id) {
      if id < |h| { assert h'[id].data == h[id].data; }
    }
    FlatFrame(h, h', c.segs);
  }

  lemma {:induction false} SameBytesOthers(w: World, w': World)
    requires w.chains != [] && |w'.chains| == |w.chains| && w'.chains[1..] == w.chains[1..]
    requires Spec.SameHeapBytes(w.mem.heap, w'.mem.heap)
    ensures OthersSame(w, w')
  {
    forall i | 0 < i < |w.chains|
      ensures w'.chains[i] == w.chains[i] && View(w'.mem.heap, w.chains[i]) == View(w.mem.heap, w.chains[i])
    {
      assert w'.chains[i] == w'.chains[1..][i - 1] && w.chains[i] == w.chains[1..][i - 1];
      ViewFrame(w.mem.heap, w'.mem.heap, w.chains[i]);
    }
  }

  lemma {:induction false} Same(w: World, m: Memory, c: Chain)
    requires Tracks(w, m, c)
    ensures Follows(w, w)
  {
  }

  lemma {:induction false} FollowsTrans(w0: World, w1: World, w2: World)
    requires Follows(w0, w1) && Follows(w1, w2)
    ensures Follows(w0, w2)
  {
    hide Inv;
    StableTrans(w0, w1, w2);
    forall i | 0 < i < |w0.chains|
      ensures w2.chains[i] == w0.chains[i] && View(w2.mem.heap, w0.chains[i]) == View(w0.mem.heap, w0.chains[i])
    {
      assert w1.chains[i] == w0.chains[i];
    }
  }

  lemma {:induction false} TracksOk(w: World, m: Memory, c: Chain)
    requires Tracks(w, m, c)
    ensures ChainOk(m, c) && w.mem == m
  {
  }

  ghost function Consumed(w: World, m: Memory, c: Chain, n: nat): (w': World)
    requires Tracks(w, m, c)
    ensures ChainOk(m, c)
    ensures var r := Spec.Consume(m, c, n); Tracks(w', r.0, r.1) && Follows(w, w') && w'.refs == w.refs
  {
    TracksOk(w, m, c);
    hide Inv, Stable;
    ConsumeStep(w, 0, n);
    Spec.ConsumeHeap(m, c, n);
    SameBytesOthers(w, DoConsume(w, 0, n));
    DoConsume(w, 0, n)
  }

  /** A pointer into the chain's first bytes, kept alive by one more reference. */
  ghost function Taken(w: World, m: Memory, c: Chain, len: nat): (w': World)
    requires Tracks(w, m, c) && ChainOk(m, c) && len > 0 && Spec.IsContiguous(m, c, 0, len)
    ensures var (id, p) := Spec.PointerAt(m, c, 0);
            && id < |m.heap| && Tracks(w', Share(m, id), c) && Follows(w, w')
            && w'.refs == w.refs + [Ref(id, p, len, true)]
  {
    Taking(w, m, c, len);
    var at := Spec.Locate(m, c.segs, c.offset);
    DoTakeRef(w, 0, at.0, at.1, len)
  }

  lemma {:induction false} Taking(w: World, m: Memory, c: Chain, len: nat)
    requires Tracks(w, m, c) && ChainOk(m, c) && len > 0 && Spec.IsContiguous(m, c, 0, len)
    ensures var at := Spec.Locate(m, c.segs, c.offset); var id := Spec.PointerAt(m, c, 0).0;
            var w' := DoTakeRef(w, 0, at.0, at.1, len);
            && id < |m.heap| && Spec.PointerAt(m, c, 0).1 == at.1 && Tracks(w', Share(m, id), c) && Follows(w, w')
            && w'.refs == w.refs + [Ref(id, at.1, len, true)]
  {
    Spec.PointerSeesSlice(m, c, 0, len);
    var at := Spec.Locate(m, c.segs, c.offset);
    Sharing(w, 0, at.0, at.1, len);
    hide Inv, Stable, ChainOk, Spec.IsContiguous, Spec.Peek, Spec.Locate, OthersSame;
    TakeRefStep(w, 0, at.0, at.1, len);
  }

  lemma {:induction false} Sharing(w: World, i: nat, k: nat, p: nat, len: nat)
    requires Inv(w) && w.chains != []
    ensures OthersSame(w, DoTakeRef(w, i, k, p, len))
  {
    hide Inv;
    SameBytesOthers(w, DoTakeRef(w, i, k, p, len));
  }

  /** A live reference is counted, so it can be dropped. */
  ghost function Dropped(w: World, m: Memory, c: Chain, k: nat): (w': World)
    requires Tracks(w, m, c) && k < |w.refs| && w.refs[k].live
    ensures var id := w.refs[k].seg;
            && id < |m.heap| && m.heap[id].uses > 0
            && Tracks(w', Drop(m, id), c) && Follows(w, w')
            && w'.refs == w.refs[k := w.refs[k].(live := false)]
  {
    LiveCounted(w, k);
    hide Inv, Stable;
    DropRefStep(w, k);
    SameBytesOthers(w, DoDropRef(w, k));
    DoDropRef(w, k)
  }

  lemma {:induction false} LiveCounted(w: World, k: nat)
    requires Inv(w) && k < |w.refs| && w.refs[k].live
    ensures w.refs[k].seg < |w.mem.heap| && w.mem.heap[w.refs[k].seg].uses > 0
  {
    LiveHas(w.refs, k);
    var id := w.refs[k].seg;
    assert id < |w.mem.heap|;
    assert w.mem.heap[id].uses == Owners(w)[id] + LiveRefs(w.refs)[id];
  }

  // ---- Other holders of the same memory ----------------------------------------------

  ghost function Allocated(w: World, m: Memory, c: Chain): (w': World)
    requires Tracks(w, m, c)
    ensures MemOk(m)
    ensures var r := Segments.Allocate(m);
            && Tracks(w', r.0, c) && Kept(w, w') && OthersSame(w, w')
            && w'.refs == w.refs && w'.hands == w.hands + [r.1]
            && View(r.0.heap, c) == View(m.heap, c)
  {
    AllocateStep(w);
    AllocateViews(w);
    DoAllocate(w)
  }

  lemma {:induction false} AllocateViews(w: World)
    requires Inv(w)
    ensures var r := Segments.Allocate(w.mem);
            forall i :: 0 <= i < |w.chains| ==> View(r.0.heap, w.chains[i]) == View(w.mem.heap, w.chains[i])
  {
    forall i | 0 <= i < |w.chains|
      ensures View(Segments.Allocate(w.mem).0.heap, w.chains[i]) == View(w.mem.heap, w.chains[i])
    {
      AllocateView(w.mem, w.chains[i]);
    }
  }

  lemma {:induction false} AllocateView(m: Memory, c: Chain)
    requires ChainOk(m, c)
    ensures var r := Segments.Allocate(m); View(r.0.heap, c) == View(m.heap, c)
  {
    AllocateOk(m);
    var r := Segments.Allocate(m);
    forall i | 0 <= i < |c.segs| ensures c.segs[i] != r.1 && c.segs[i] < |m.heap| { assert Held(m, c.segs[i]); }
    FlatFrame(m.heap, r.0.heap, c.segs);
  }

  /** A segment in a hand belongs to nobody else. */
  lemma {:induction false} InHand(w: World, i: nat, h: nat)
    requires Inv(w) && i < |w.chains| && h < |w.hands|
    ensures ChainOk(w.mem, w.chains[i]) && Spec.Owned(w.mem, w.chains[i], w.hands[h]) && w.mem.heap[w.hands[h]].Ok()
  {
    HandPart(w, h);
    InOwners(w.chains, i);
  }

  ghost function Filled(w: World, m: Memory, c: Chain, h: nat, bytes: seq<byte>): (w': World)
    requires Tracks(w, m, c) && h < |w.hands|
    ensures w.hands[h] < |m.heap| && m.heap[w.hands[h]].Ok()
    ensures var id := w.hands[h]; var m' := m.(heap := m.heap[id := m.heap[id].Append(bytes)]);
            && Tracks(w', m', c) && Kept(w, w') && OthersSame(w, w') && w'.refs == w.refs && w'.hands == w.hands
            && View(m'.heap, c) == View(m.heap, c)
  {
    WriteStep(w, h, bytes);
    WriteViews(w, h, bytes);
    DoWrite(w, h, bytes)
  }

  lemma {:induction false} WriteViews(w: World, h: nat, bytes: seq<byte>)
    requires Inv(w) && w.chains != [] && h < |w.hands|
    ensures var id := w.hands[h];
            && id < |w.mem.heap| && w.mem.heap[id].Ok()
            && forall i :: 0 <= i < |w.chains| ==>
                 View(w.mem.heap[id := w.mem.heap[id].Append(bytes)], w.chains[i]) == View(w.mem.heap, w.chains[i])
  {
    var id := w.hands[h];
    InHand(w, 0, h);
    forall i | 0 <= i < |w.chains|
      ensures View(w.mem.heap[id := w.mem.heap[id].Append(bytes)], w.chains[i]) == View(w.mem.heap, w.chains[i])
    {
      InHand(w, i, h);
      FlatFrame(w.mem.heap, w.mem.heap[id := w.mem.heap[id].Append(bytes)], w.chains[i].segs);
    }
  }

  ghost function Appended(w: World, m: Memory, c: Chain, h: nat): (w': World)
    requires Tracks(w, m, c) && h < |w.hands|
    ensures ChainOk(m, c) && Spec.Owned(m, c, w.hands[h])
    ensures var r := Spec.AppendSegment(m, c, w.hands[h]);
            && Tracks(w', r.0, r.1) && Kept(w, w') && OthersSame(w, w')
            && w'.refs == w.refs && w'.hands == RemoveAt(w.hands, h)
  {
    InHand(w, 0, h);
    hide Inv, Stable;
    PushStep(w, h, 0);
    AppendSame(m, c, w.hands[h]);
    SameBytesOthers(w, DoPush(w, h, 0));
    DoPush(w, h, 0)
  }

  /** The segment goes to the second chain instead. */
  ghost function Queued(w: World, m: Memory, c: Chain, h: nat): (w': World)
    requires Tracks(w, m, c) && h < |w.hands| && |w.chains| == 2
    ensures ChainOk(m, w.chains[1]) && Spec.Owned(m, w.chains[1], w.hands[h])
    ensures var r := Spec.AppendSegment(m, w.chains[1], w.hands[h]);
            && Tracks(w', r.0, c) && Kept(w, w') && |w'.chains| == 2 && w'.chains[1] == r.1
            && w'.refs == w.refs && w'.hands == RemoveAt(w.hands, h)
            && Spec.SameHeapBytes(m.heap, r.0.heap)
  {
    InHand(w, 1, h);
    PushStep(w, h, 1);
    AppendSame(m, w.chains[1], w.hands[h]);
    hide Inv, Stable, ChainOk, MemOk, RemoveAt;
    DoPush(w, h, 1)
  }

  lemma {:induction false} AppendSame(m: Memory, c: Chain, id: SegId)
    requires ChainOk(m, c) && Spec.Owned(m, c, id)
    ensures Spec.SameHeapBytes(m.heap, Spec.AppendSegment(m, c, id).0.heap)
  {
  }

  ghost function Recycled(w: World, m: Memory, c: Chain, h: nat): (w': World)
    requires Tracks(w, m, c) && h < |w.hands|
    ensures w.hands[h] < |m.heap| && m.heap[w.hands[h]].uses > 0
    ensures var m' := Segments.Release(m, w.hands[h]);
            && Tracks(w', m', c) && Kept(w, w') && OthersSame(w, w')
            && w'.refs == w.refs && w'.hands == RemoveAt(w.hands, h)
            && Spec.SameHeapBytes(m.heap, m'.heap)
  {
    InHand(w, 0, h);
    hide Inv, Stable;
    ReleaseHandStep(w, h);
    SameBytesOthers(w, DoReleaseHand(w, h));
    DoReleaseHand(w, h)
  }

  /** The second chain is joined to the first, compacted before that. */
  ghost function Spliced(w: World, m: Memory, c: Chain): (w': World)
    requires Tracks(w, m, c) && |w.chains| == 2
    ensures ChainOk(m, c) && ChainOk(m, w.chains[1]) && Spec.Disjoint(c.segs, w.chains[1].segs)
    ensures var r := Spec.CompactAndSplice(m, c, w.chains[1]);
            && Tracks(w', r.0, r.1) && Kept(w, w') && |w'.chains| == 2 && w'.chains[1] == r.2
            && w'.refs == w.refs && w'.hands == w.hands
  {
    Joining(w);
    DoSplice(Compacted(w), 0, 1)
  }

  lemma {:induction false} Joining(w: World)
    requires Inv(w) && |w.chains| == 2
    ensures ChainOk(w.mem, w.chains[0]) && ChainOk(w.mem, w.chains[1])
    ensures Spec.Disjoint(w.chains[0].segs, w.chains[1].segs)
    ensures var w1 := Compacted(w); Inv(w1) && Kept(w, DoSplice(w1, 0, 1))
    ensures var r := Spec.CompactAndSplice(w.mem, w.chains[0], w.chains[1]); var w' := DoSplice(Compacted(w), 0, 1);
            && (w'.mem, w'.chains[0], w'.chains[1]) == r && |w'.chains| == 2
            && w'.refs == w.refs && w'.hands == w.hands
  {
    var w1 := Compacted(w);
    hide Inv, Stable, ChainOk, Spec.Compact, Spec.Disjoint, Spec.Splice;
    SpliceStep(w1, 0, 1);
    StableTrans(w, w1, DoSplice(w1, 0, 1));
  }

  ghost function Compacted(w: World): (w': World)
    requires Inv(w) && |w.chains| == 2
    ensures ChainOk(w.mem, w.chains[0]) && ChainOk(w.mem, w.chains[1])
    ensures Spec.Disjoint(w.chains[0].segs, w.chains[1].segs)
    ensures Kept(w, w') && w'.refs == w.refs && w'.hands == w.hands
    ensures |w'.chains| == 2 && w'.chains[1] == w.chains[1]
    ensures (w'.mem, w'.chains[0]) == Spec.Compact(w.mem, w.chains[0])
    ensures ChainOk(w'.mem, w'.chains[0]) && ChainOk(w'.mem, w'.chains[1])
  {
    ChainsDisjoint(w, 0, 1);
    CompactStep(w, 0);
    DoCompact(w, 0)
  }
}
