/** Zero-copy safety. Everything that can hold a segment - the pool, chains, code between an
    Allocate and an Append, and record references handed to the user - shares one memory.
    Over every run of operations the bytes seen through a live record reference never
    change, use counts are exactly the number of holders, and a pooled segment has no other
    holder. */
module SharedSegments {
  import opened Bytes
  import opened Segments
  import opened ChainSpec

  /** A RecordRef's pointer and keepalive; dropping it makes it dead for good. */
  datatype Ref = Ref(seg: SegId, pos: nat, len: nat, live: bool)

  /** `hands` are segments owned by a local variable: allocated, not yet appended. */
  datatype World = World(mem: Memory, chains: seq<Chain>, hands: seq<SegId>, refs: seq<Ref>)

  datatype Op =
    | Allocate
    | Write(hand: nat, bytes: seq<byte>)
    | Push(hand: nat, chain: nat)
    | ReleaseHand(hand: nat)
    | NewChain(recycles: bool)
    | Consume(chain: nat, n: nat)
    | Clear(chain: nat)
    | Compact(chain: nat)
    | Splice(dst: nat, src: nat)
    | TakeRef(chain: nat, k: nat, pos: nat, len: nat)
    | DropRef(ref: nat)

  function ChainOwners(chains: seq<Chain>): multiset<SegId> {
    if chains == [] then multiset{} else multiset(chains[0].segs) + ChainOwners(chains[1..])
  }

  function LiveRefs(refs: seq<Ref>): multiset<SegId> {
    if refs == [] then multiset{}
    else (if refs[0].live then multiset{refs[0].seg} else multiset{}) + LiveRefs(refs[1..])
  }

  function Owners(w: World): multiset<SegId> {
    multiset(w.mem.freeList) + ChainOwners(w.chains) + multiset(w.hands)
  }

  /** Every use count is the owner, if any, plus the live references; one owner at most. */
  ghost predicate Accounted(m: Memory, owners: multiset<SegId>, live: multiset<SegId>) {
    && (forall id: SegId {:trigger owners[id]} :: owners[id] <= 1 && (id >= |m.heap| ==> owners[id] == 0))
    && (forall id: SegId {:trigger live[id]} :: id >= |m.heap| ==> live[id] == 0)
    && (forall id {:trigger m.heap[id]} :: 0 <= id < |m.heap| ==> m.heap[id].uses == owners[id] + live[id])
  }

  ghost predicate Inv(w: World) {
    && MemOk(w.mem)
    && (forall i :: 0 <= i < |w.chains| ==> ChainOk(w.mem, w.chains[i]))
    && Accounted(w.mem, Owners(w), LiveRefs(w.refs))
    && (forall h :: 0 <= h < |w.hands| ==> LiveRefs(w.refs)[w.hands[h]] == 0)
  }

  // ---- Counting holders --------------------------------------------------------------

  lemma {:induction false} OwnersWithout(chains: seq<Chain>, i: nat)
    requires i < |chains|
    ensures ChainOwners(chains) == multiset(chains[i].segs) + ChainOwners(chains[..i] + chains[i + 1..])
    decreases i
  {
    if i == 0 {
      assert chains[..0] + chains[1..] == chains[1..];
    } else {
      OwnersWithout(chains[1..], i - 1);
      var rest := chains[..i] + chains[i + 1..];
      assert rest[0] == chains[0] && rest[1..] == chains[1..][..i - 1] + chains[1..][i..];
    }
  }

  /** Replacing chain `i` trades its segments for the new chain's. */
  lemma {:induction false} OwnersUpdate(chains: seq<Chain>, i: nat, c: Chain)
    requires i < |chains|
    ensures var rest := ChainOwners(chains[..i] + chains[i + 1..]);
            && ChainOwners(chains) == multiset(chains[i].segs) + rest
            && ChainOwners(chains[i := c]) == multiset(c.segs) + rest
  {
    OwnersWithout(chains, i);
    OwnersWithout(chains[i := c], i);
    assert chains[i := c][..i] + chains[i := c][i + 1..] == chains[..i] + chains[i + 1..];
  }

  lemma {:induction false} OwnersAppend(chains: seq<Chain>, c: Chain)
    ensures ChainOwners(chains + [c]) == ChainOwners(chains) + multiset(c.segs)
  {
    OwnersWithout(chains + [c], |chains|);
    assert (chains + [c])[..|chains|] + (chains + [c])[|chains| + 1..] == chains;
  }

  lemma {:induction false} LiveAppend(refs: seq<Ref>, r: Ref)
    ensures LiveRefs(refs + [r]) == LiveRefs(refs) + (if r.live then multiset{r.seg} else multiset{})
  {
    if refs == [] {
      assert refs + [r] == [r] && [r][1..] == [];
    } else {
      LiveAppend(refs[1..], r);
      assert (refs + [r])[0] == refs[0] && (refs + [r])[1..] == refs[1..] + [r];
    }
  }

  lemma {:induction false} LiveDrop(refs: seq<Ref>, k: nat)
    requires k < |refs| && refs[k].live
    ensures LiveRefs(refs[k := refs[k].(live := false)]) + multiset{refs[k].seg} == LiveRefs(refs)
    decreases k
  {
    var refs' := refs[k := refs[k].(live := false)];
    if k == 0 {
      assert refs'[1..] == refs[1..];
    } else {
      LiveDrop(refs[1..], k - 1);
      assert refs'[0] == refs[0] && refs'[1..] == refs[1..][k - 1 := refs[k].(live := false)];
    }
  }

  lemma {:induction false} LiveHas(refs: seq<Ref>, k: nat)
    requires k < |refs| && refs[k].live
    ensures LiveRefs(refs)[refs[k].seg] > 0
    decreases k
  {
    if k > 0 { LiveHas(refs[1..], k - 1); }
  }

  // ---- What one operation may do to memory -------------------------------------------

  /** The rest of the world, owners `rest` and live references `live`, is not disturbed: its
      owned segments are identical, and the bytes behind live references are unchanged. The
      part that acted now owns `part`. */
  ghost predicate Effect(m: Memory, m': Memory, part: multiset<SegId>, rest: multiset<SegId>, live: multiset<SegId>) {
    && MemOk(m') && |m.heap| <= |m'.heap|
    && Accounted(m', multiset(m'.freeList) + part + rest, live)
    && (forall id {:trigger m'.heap[id]} :: 0 <= id < |m.heap| ==>
          && (rest[id] > 0 ==> m'.heap[id] == m.heap[id])
          && (live[id] > 0 ==> m'.heap[id].data == m.heap[id].data))
  }

  lemma {:induction false} EffectTrans(m0: Memory, m1: Memory, m2: Memory, p1: multiset<SegId>, p2: multiset<SegId>,
                                       rest: multiset<SegId>, live: multiset<SegId>)
    requires Effect(m0, m1, p1, rest, live) && Effect(m1, m2, p2, rest, live)
    ensures Effect(m0, m2, p2, rest, live)
  {
    forall id | 0 <= id < |m0.heap|
      ensures (rest[id] > 0 ==> m2.heap[id] == m0.heap[id]) && (live[id] > 0 ==> m2.heap[id].data == m0.heap[id].data)
    {
      assert m1.heap[id] == m1.heap[id] && m2.heap[id] == m2.heap[id];
    }
  }

  function One(id: SegId): multiset<SegId> { multiset{id} }

  lemma {:induction false} FrontOwned(m: Memory, c: Chain, rest: multiset<SegId>, live: multiset<SegId>)
    requires ChainOk(m, c) && c.segs != []
    requires Accounted(m, multiset(m.freeList) + multiset(c.segs) + rest, live)
    ensures var id := c.segs[0];
            && Held(m, id) && rest[id] == 0 && m.heap[id].uses == 1 + live[id]
            && multiset(c.segs) == One(id) + multiset(c.segs[1..])
  {
    var id := c.segs[0];
    assert Held(m, id);
    assert c.segs == [id] + c.segs[1..];
    assert (multiset(m.freeList) + multiset(c.segs) + rest)[id] == 1;
    assert m.heap[id].uses == m.heap[id].uses;
  }

  /** The owner of `id` drops its reference. */
  lemma {:induction false} DropEffect(m: Memory, id: SegId, part: multiset<SegId>, rest: multiset<SegId>,
                                      live: multiset<SegId>)
    requires MemOk(m) && Accounted(m, multiset(m.freeList) + (One(id) + part) + rest, live)
    requires id < |m.heap| && m.heap[id].uses > 0 && rest[id] == 0 && id !in m.freeList
    ensures Effect(m, Drop(m, id), part, rest, live)
  {
    var o, o' := multiset(m.freeList) + (One(id) + part) + rest, multiset(m.freeList) + part + rest;
    assert o == o' + One(id);
    forall k: SegId ensures o'[k] <= 1 && (k >= |m.heap| ==> o'[k] == 0) { assert o[k] <= 1; }
    forall k | 0 <= k < |m.heap| ensures Drop(m, id).heap[k].uses == o'[k] + live[k] {
      assert m.heap[k].uses == o[k] + live[k];
    }
  }

  /** The owner of `id` hands it to the allocator's Release. */
  lemma {:induction false} ReleaseEffect(m: Memory, id: SegId, part: multiset<SegId>, rest: multiset<SegId>,
                                         live: multiset<SegId>)
    requires MemOk(m) && Accounted(m, multiset(m.freeList) + (One(id) + part) + rest, live)
    requires id < |m.heap| && m.heap[id].uses > 0 && rest[id] == 0 && id !in m.freeList
    ensures Effect(m, Release(m, id), part, rest, live)
  {
    if m.heap[id].uses == 1 && |m.freeList| < m.maxPool {
      assert multiset(m.freeList + [id]) + part + rest == multiset(m.freeList) + (One(id) + part) + rest;
    } else {
      DropEffect(m, id, part, rest, live);
    }
  }

  lemma {:induction false} PopFrontEffect(m: Memory, c: Chain, rest: multiset<SegId>, live: multiset<SegId>)
    requires ChainOk(m, c) && c.segs != []
    requires Accounted(m, multiset(m.freeList) + multiset(c.segs) + rest, live)
    ensures var (m', c') := PopFront(m, c); Effect(m, m', multiset(c'.segs), rest, live)
  {
    FrontOwned(m, c, rest, live);
    if c.recycles {
      ReleaseEffect(m, c.segs[0], multiset(c.segs[1..]), rest, live);
    } else {
      DropEffect(m, c.segs[0], multiset(c.segs[1..]), rest, live);
    }
  }

  lemma {:induction false} SameEffect(m: Memory, c: Chain, rest: multiset<SegId>, live: multiset<SegId>)
    requires ChainOk(m, c) && Accounted(m, multiset(m.freeList) + multiset(c.segs) + rest, live)
    ensures Effect(m, m, multiset(c.segs), rest, live)
  {
  }

  lemma {:induction false} ConsumeEffect(m: Memory, c: Chain, n: nat, rest: multiset<SegId>, live: multiset<SegId>)
    requires ChainOk(m, c)
    requires Accounted(m, multiset(m.freeList) + multiset(c.segs) + rest, live)
    ensures var (m', c') := ChainSpec.Consume(m, c, n); Effect(m, m', multiset(c'.segs), rest, live)
    decreases |c.segs|
  {
    hide ChainOk, MemOk, Accounted, FrontAvailable;
    SameEffect(m, c, rest, live);
    if n != 0 && c.segs != [] && n >= FrontAvailable(m, c) {
      PopFrontEffect(m, c, rest, live);
      var (m', c') := PopFront(m, c);
      ConsumeEffect(m', c', n - FrontAvailable(m, c), rest, live);
      var r := ChainSpec.Consume(m', c', n - FrontAvailable(m, c));
      EffectTrans(m, m', r.0, multiset(c'.segs), multiset(r.1.segs), rest, live);
    }
  }

  lemma {:induction false} ClearEffect(m: Memory, c: Chain, rest: multiset<SegId>, live: multiset<SegId>)
    requires ChainOk(m, c)
    requires Accounted(m, multiset(m.freeList) + multiset(c.segs) + rest, live)
    ensures var (m', c') := ChainSpec.Clear(m, c); Effect(m, m', multiset(c'.segs), rest, live)
    decreases |c.segs|
  {
    hide ChainOk, MemOk, Accounted, FrontAvailable;
    SameEffect(m, c, rest, live);
    if c.segs != [] {
      PopFrontEffect(m, c, rest, live);
      var (m', c') := PopFront(m, c);
      ClearEffect(m', c', rest, live);
      var r := ChainSpec.Clear(m', c');
      EffectTrans(m, m', r.0, multiset(c'.segs), multiset(r.1.segs), rest, live);
    }
  }

  /** Rewriting an owned segment nobody references disturbs nobody. */
  lemma {:induction false} WriteEffect(m: Memory, id: SegId, seg: Segment, part: multiset<SegId>, rest: multiset<SegId>,
                                       live: multiset<SegId>)
    requires MemOk(m) && Accounted(m, multiset(m.freeList) + part + rest, live)
    requires id < |m.heap| && rest[id] == 0 && seg.Ok() && seg.uses == m.heap[id].uses
    requires live[id] > 0 ==> seg.data == m.heap[id].data
    ensures Effect(m, m.(heap := m.heap[id := seg]), part, rest, live)
  {
    var m' := m.(heap := m.heap[id := seg]);
    assert forall k :: 0 <= k < |m.heap| ==> m'.heap[k].uses == m.heap[k].uses;
  }

  lemma {:induction false} GrowAccounted(m: Memory, m': Memory, id: SegId, o: multiset<SegId>, o': multiset<SegId>,
                                         live: multiset<SegId>)
    requires Accounted(m, o, live) && id == |m.heap| && |m'.heap| == id + 1 && m'.heap[..id] == m.heap
        && m'.heap[id].uses == 1
    requires o' == o + One(id)
    ensures Accounted(m', o', live)
  {
    assert o[id] == 0 && live[id] == 0;
    forall k: SegId ensures o'[k] <= 1 && (k >= |m'.heap| ==> o'[k] == 0) {
      assert o[k] <= 1;
    }
    forall k | 0 <= k < |m'.heap| ensures m'.heap[k].uses == o'[k] + live[k] {
      if k < |m.heap| { assert m'.heap[k] == m'.heap[..id][k] == m.heap[k]; assert m.heap[k].uses == o[k] + live[k]; }
    }
  }

  /** A new segment, owned by whoever made it. */
  lemma {:induction false} NewEffect(m: Memory, seg: Segment, part: multiset<SegId>, rest: multiset<SegId>,
                                     live: multiset<SegId>, newId: SegId)
    requires MemOk(m) && Accounted(m, multiset(m.freeList) + part + rest, live)
    requires seg.Ok() && seg.uses == 1 && newId == |m.heap|
    ensures Effect(m, m.(heap := m.heap + [seg]), One(newId) + part, rest, live)
  {
    var m' := m.(heap := m.heap + [seg]);
    assert m'.heap[..newId] == m.heap;
    GrowAccounted(m, m', newId, multiset(m.freeList) + part + rest, multiset(m.freeList) + (One(newId) + part) + rest,
        live);
  }

  /** The owner of `id` lets it go and owns a new segment instead. */
  lemma {:induction false} ReplaceEffect(m: Memory, id: SegId, newId: SegId, seg: Segment, part: multiset<SegId>,
                                         rest: multiset<SegId>, live: multiset<SegId>)
    requires MemOk(m) && Accounted(m, multiset(m.freeList) + (One(id) + part) + rest, live)
    requires newId == |m.heap|
    requires id < |m.heap| && m.heap[id].uses > 0 && rest[id] == 0 && seg.Ok() && seg.uses == 1 && id !in m.freeList
    ensures Effect(m, Drop(m, id).(heap := Drop(m, id).heap + [seg]), One(newId) + part, rest, live)
  {
    var m1 := Drop(m, id);
    DropEffect(m, id, part, rest, live);
    NewEffect(m1, seg, part, rest, live, newId);
    EffectTrans(m, m1, m1.(heap := m1.heap + [seg]), part, One(newId) + part, rest, live);
  }

  lemma {:induction false} CompactEffect(m: Memory, c: Chain, rest: multiset<SegId>, live: multiset<SegId>)
    requires ChainOk(m, c)
    requires Accounted(m, multiset(m.freeList) + multiset(c.segs) + rest, live)
    ensures var (m', c') := ChainSpec.Compact(m, c); Effect(m, m', multiset(c'.segs), rest, live)
  {
    if c.offset != 0 && c.segs != [] {
      var (m', c') := ChainSpec.Compact(m, c);
      var id := c.segs[0];
      FrontOwned(m, c, rest, live);
      if m.heap[id].uses > 1 {
        var newId: SegId := |m.heap|;
        assert multiset(c'.segs) == One(newId) + multiset(c.segs[1..]);
        ReplaceEffect(m, id, newId, m'.heap[|m.heap|], multiset(c.segs[1..]), rest, live);
      } else {
        WriteEffect(m, id, m'.heap[id], multiset(c.segs), rest, live);
      }
    }
  }

  // ---- Steps of the world ------------------------------------------------------------

  function RemoveAt(hands: seq<SegId>, i: nat): seq<SegId>
    requires i < |hands|
  {
    hands[..i] + hands[i + 1..]
  }

  lemma {:induction false} RemoveAtOwners(hands: seq<SegId>, i: nat)
    requires i < |hands|
    ensures multiset(hands) == multiset{hands[i]} + multiset(RemoveAt(hands, i))
  {
    assert hands == hands[..i] + [hands[i]] + hands[i + 1..];
  }

  // Each operation; one whose arguments name nothing changes nothing.

  ghost function DoAllocate(w: World): World requires Inv(w) {
    var (m, id) := Segments.Allocate(w.mem);
    w.(mem := m, hands := w.hands + [id])
  }

  ghost function DoWrite(w: World, h: nat, bytes: seq<byte>): World requires Inv(w) {
    if h < |w.hands| && w.hands[h] < |w.mem.heap| then
      w.(mem := w.mem.(heap := w.mem.heap[w.hands[h] := w.mem.heap[w.hands[h]].Append(bytes)]))
    else w
  }

  ghost function DoPush(w: World, h: nat, i: nat): World requires Inv(w) {
    if h < |w.hands| && w.hands[h] < |w.mem.heap| && w.mem.heap[w.hands[h]].uses > 0 && i < |w.chains| then
      var (m, c) := AppendSegment(w.mem, w.chains[i], w.hands[h]);
      World(m, w.chains[i := c], RemoveAt(w.hands, h), w.refs)
    else w
  }

  ghost function DoReleaseHand(w: World, h: nat): World requires Inv(w) {
    if h < |w.hands| && w.hands[h] < |w.mem.heap| && w.mem.heap[w.hands[h]].uses > 0 then
      w.(mem := Release(w.mem, w.hands[h]), hands := RemoveAt(w.hands, h))
    else w
  }

  ghost function DoNewChain(w: World, recycles: bool): World requires Inv(w) {
    w.(chains := w.chains + [Chain([], 0, 0, recycles)])
  }

  ghost function OnChain(w: World, i: nat, r: (Memory, Chain)): World
    requires i < |w.chains|
  {
    World(r.0, w.chains[i := r.1], w.hands, w.refs)
  }

  ghost function DoConsume(w: World, i: nat, n: nat): World requires Inv(w) {
    if i < |w.chains| then OnChain(w, i, ChainSpec.Consume(w.mem, w.chains[i], n)) else w
  }

  ghost function DoClear(w: World, i: nat): World requires Inv(w) {
    if i < |w.chains| then OnChain(w, i, ChainSpec.Clear(w.mem, w.chains[i])) else w
  }

  ghost function DoCompact(w: World, i: nat): World requires Inv(w) {
    if i < |w.chains| then OnChain(w, i, ChainSpec.Compact(w.mem, w.chains[i])) else w
  }

  ghost function DoSplice(w: World, d: nat, s: nat): World requires Inv(w) {
    if d < |w.chains| && s < |w.chains| && d != s then
      var (m, dst, src) := ChainSpec.Splice(w.mem, w.chains[d], w.chains[s]);
      w.(mem := m, chains := w.chains[d := dst][s := src])
    else w
  }

  /** What DataAt and GetSegmentAt hand out: a pointer into valid bytes of the chain's `k`-th
      segment and a counted reference to that segment. */
  ghost function DoTakeRef(w: World, i: nat, k: nat, p: nat, len: nat): World requires Inv(w) {
    if i < |w.chains| && k < |w.chains[i].segs| && w.chains[i].segs[k] < |w.mem.heap|
       && p + len <= w.mem.heap[w.chains[i].segs[k]].size
    then w.(mem := Share(w.mem, w.chains[i].segs[k]), refs := w.refs + [Ref(w.chains[i].segs[k], p, len, true)])
    else w
  }

  ghost function DoDropRef(w: World, k: nat): World requires Inv(w) {
    if k < |w.refs| && w.refs[k].live && w.refs[k].seg < |w.mem.heap| && w.mem.heap[w.refs[k].seg].uses > 0 then
      w.(mem := Drop(w.mem, w.refs[k].seg), refs := w.refs[k := w.refs[k].(live := false)])
    else w
  }

  ghost function Step(w: World, op: Op): World
    requires Inv(w)
  {
    match op
    case Allocate => DoAllocate(w)
    case Write(h, bytes) => DoWrite(w, h, bytes)
    case Push(h, i) => DoPush(w, h, i)
    case ReleaseHand(h) => DoReleaseHand(w, h)
    case NewChain(recycles) => DoNewChain(w, recycles)
    case Consume(i, n) => DoConsume(w, i, n)
    case Clear(i) => DoClear(w, i)
    case Compact(i) => DoCompact(w, i)
    case Splice(d, s) => DoSplice(w, d, s)
    case TakeRef(i, k, p, len) => DoTakeRef(w, i, k, p, len)
    case DropRef(k) => DoDropRef(w, k)
  }

  /** What the user sees through a record reference. */
  ghost function Deref(w: World, k: nat): seq<byte>
    requires k < |w.refs|
  {
    Peek(w.mem.heap, w.refs[k].seg, w.refs[k].pos, w.refs[k].len)
  }

  /** A reference still live afterwards was live before and shows the same bytes. */
  ghost predicate Stable(w: World, w': World) {
    |w.refs| <= |w'.refs| && forall k {:trigger w'.refs[k]} :: 0 <= k < |w.refs| && w'.refs[k].live ==>
      w'.refs[k] == w.refs[k] && Deref(w', k) == Deref(w, k)
  }

  ghost predicate Kept(w: World, w': World) { Inv(w') && Stable(w, w') }

  // ---- Each step keeps the invariant and every live reference ------------------------

  lemma {:induction false} OtherChains(w: World, m': Memory, part: multiset<SegId>, rest: multiset<SegId>,
                                       live: multiset<SegId>, d: Chain)
    requires ChainOk(w.mem, d) && Effect(w.mem, m', part, rest, live)
    requires forall i :: 0 <= i < |d.segs| ==> rest[d.segs[i]] > 0
    ensures ChainOk(m', d)
  {
    forall i | 0 <= i < |d.segs|
      ensures d.segs[i] < |w.mem.heap| && m'.heap[d.segs[i]] == w.mem.heap[d.segs[i]] && d.segs[i] !in m'.freeList
    {
      assert Held(w.mem, d.segs[i]);
      assert m'.heap[d.segs[i]] == m'.heap[d.segs[i]];
      assert (multiset(m'.freeList) + part + rest)[d.segs[i]] <= 1;
    }
    UndisturbedView(w.mem, m', d);
  }

  lemma {:induction false} InOwners(chains: seq<Chain>, i: nat)
    requires i < |chains|
    ensures forall k :: 0 <= k < |chains[i].segs| ==> ChainOwners(chains)[chains[i].segs[k]] > 0
  {
    OwnersWithout(chains, i);
    forall k | 0 <= k < |chains[i].segs| ensures ChainOwners(chains)[chains[i].segs[k]] > 0 {
      assert chains[i].segs[k] in multiset(chains[i].segs);
    }
  }

  lemma {:induction false} StableByData(w: World, w': World)
    requires Inv(w) && w'.refs == w.refs && |w.mem.heap| <= |w'.mem.heap|
    requires forall id {:trigger w'.mem.heap[id]} :: 0 <= id < |w.mem.heap| ==>
               (LiveRefs(w.refs)[id] > 0 ==> w'.mem.heap[id].data == w.mem.heap[id].data)
    ensures Stable(w, w')
  {
    forall k | 0 <= k < |w.refs| && w'.refs[k].live ensures Deref(w', k) == Deref(w, k) {
      LiveHas(w.refs, k);
      assert LiveRefs(w.refs)[w.refs[k].seg] > 0;
      assert w'.mem.heap[w.refs[k].seg].data == w.mem.heap[w.refs[k].seg].data;
    }
  }

  lemma {:induction false} ChainOwnersAfter(w: World, i: nat, m': Memory, c': Chain, hands': seq<SegId>)
    requires i < |w.chains|
    ensures Owners(World(m', w.chains[i := c'], hands', w.refs)) ==
            multiset(m'.freeList) + multiset(c'.segs)
                + (ChainOwners(w.chains[..i] + w.chains[i + 1..]) + multiset(hands'))
  {
    OwnersUpdate(w.chains, i, c');
  }

  /** An operation confined to chain `i`, and perhaps to hands it lets go. */
  lemma {:induction false} ChainStep(w: World, i: nat, m': Memory, c': Chain, hands': seq<SegId>)
    requires Inv(w) && i < |w.chains| && ChainOk(m', c')
    requires Effect(w.mem, m', multiset(c'.segs), ChainOwners(w.chains[..i] + w.chains[i + 1..]) + multiset(hands'),
        LiveRefs(w.refs))
    requires forall h :: 0 <= h < |hands'| ==> LiveRefs(w.refs)[hands'[h]] == 0
    ensures var w' := World(m', w.chains[i := c'], hands', w.refs); Kept(w, w')
  {
    var w' := World(m', w.chains[i := c'], hands', w.refs);
    ChainOwnersAfter(w, i, m', c', hands');
    forall j | 0 <= j < |w'.chains| ensures ChainOk(m', w'.chains[j]) {
      if j != i { OtherChainOk(w, i, j, m', multiset(c'.segs), multiset(hands')); }
    }
    StableByData(w, w');
  }

  lemma {:induction false} OtherChainOk(w: World, i: nat, j: nat, m': Memory, part: multiset<SegId>,
                                        hands: multiset<SegId>)
    requires Inv(w) && i < |w.chains| && j < |w.chains| && i != j
    requires Effect(w.mem, m', part, ChainOwners(w.chains[..i] + w.chains[i + 1..]) + hands, LiveRefs(w.refs))
    ensures ChainOk(m', w.chains[j])
  {
    hide MemOk, ChainOk, LiveRefs;
    var others := w.chains[..i] + w.chains[i + 1..];
    var j' := if j < i then j else j - 1;
    assert others[j'] == w.chains[j];
    InOwners(others, j');
    OtherChains(w, m', part, ChainOwners(others) + hands, LiveRefs(w.refs), w.chains[j]);
  }

  lemma {:induction false} ChainPart(w: World, i: nat)
    requires Inv(w) && i < |w.chains|
    ensures Accounted(w.mem, multiset(w.mem.freeList) + multiset(w.chains[i].segs)
                             + (ChainOwners(w.chains[..i] + w.chains[i + 1..]) + multiset(w.hands)), LiveRefs(w.refs))
  {
    OwnersWithout(w.chains, i);
    assert multiset(w.mem.freeList) + multiset(w.chains[i].segs)
           + (ChainOwners(w.chains[..i] + w.chains[i + 1..]) + multiset(w.hands)) == Owners(w);
  }

  /** An operation that only touches the hands: they change from hands to `hands'`, the
      chains stay. */
  lemma {:induction false} HandStep(w: World, m': Memory, part: multiset<SegId>, rest: multiset<SegId>,
                                    hands': seq<SegId>)
    requires Inv(w) && Effect(w.mem, m', part, ChainOwners(w.chains) + rest, LiveRefs(w.refs))
    requires multiset(hands') == part + rest
    requires forall h :: 0 <= h < |hands'| ==> LiveRefs(w.refs)[hands'[h]] == 0
    ensures var w' := w.(mem := m', hands := hands'); Kept(w, w')
  {
    var w' := w.(mem := m', hands := hands');
    assert Owners(w') == multiset(m'.freeList) + part + (ChainOwners(w.chains) + rest);
    forall j | 0 <= j < |w.chains| ensures ChainOk(m', w.chains[j]) {
      InOwners(w.chains, j);
      OtherChains(w, m', part, ChainOwners(w.chains) + rest, LiveRefs(w.refs), w.chains[j]);
    }
    StableByData(w, w');
  }

  lemma {:induction false} AllocateEffect(m: Memory, rest: multiset<SegId>, live: multiset<SegId>)
    requires MemOk(m) && Accounted(m, multiset(m.freeList) + rest, live)
    ensures var (m', id) := Segments.Allocate(m); Effect(m, m', One(id), rest, live) && live[id] == 0
  {
    var (m', id) := Segments.Allocate(m);
    AllocateOk(m);
    var o := multiset(m.freeList) + rest;
    if id < |m.heap| {
      assert m.freeList == m'.freeList + [id];
      assert multiset(m.freeList) == multiset(m'.freeList) + One(id);
      assert o == multiset(m'.freeList) + One(id) + rest;
      assert m.heap[id].uses == 1 && o[id] == 1;
    } else {
      assert o[id] == 0 && live[id] == 0;
      GrowAccounted(m, m', id, o, multiset(m'.freeList) + One(id) + rest, live);
    }
  }

  lemma {:induction false} AllocateStep(w: World)
    requires Inv(w)
    ensures Kept(w, DoAllocate(w))
  {
    var (m', id) := Segments.Allocate(w.mem);
    assert Owners(w) == multiset(w.mem.freeList) + (ChainOwners(w.chains) + multiset(w.hands));
    AllocateEffect(w.mem, ChainOwners(w.chains) + multiset(w.hands), LiveRefs(w.refs));
    assert multiset(w.hands + [id]) == One(id) + multiset(w.hands);
    HandStep(w, m', One(id), multiset(w.hands), w.hands + [id]);
  }

  lemma {:induction false} HandPart(w: World, h: nat)
    requires Inv(w) && h < |w.hands|
    ensures var id := w.hands[h]; var rest := ChainOwners(w.chains) + multiset(RemoveAt(w.hands, h));
            && id < |w.mem.heap| && w.mem.heap[id].uses == 1 && rest[id] == 0 && id !in w.mem.freeList
            && LiveRefs(w.refs)[id] == 0
    ensures Accounted(w.mem, multiset(w.mem.freeList) + One(w.hands[h])
        + (ChainOwners(w.chains) + multiset(RemoveAt(w.hands, h))), LiveRefs(w.refs))
  {
    var id := w.hands[h];
    RemoveAtOwners(w.hands, h);
    assert Owners(w) == multiset(w.mem.freeList) + multiset{id}
        + (ChainOwners(w.chains) + multiset(RemoveAt(w.hands, h)));
    assert Owners(w)[id] == 1;
    assert w.mem.heap[id].uses == Owners(w)[id] + LiveRefs(w.refs)[id];
  }

  lemma {:induction false} WriteStep(w: World, h: nat, bytes: seq<byte>)
    requires Inv(w)
    ensures Kept(w, DoWrite(w, h, bytes))
  {
    if h < |w.hands| && w.hands[h] < |w.mem.heap| {
      var id := w.hands[h];
      HandPart(w, h);
      RemoveAtOwners(w.hands, h);
      var rest := multiset(RemoveAt(w.hands, h));
      var m' := w.mem.(heap := w.mem.heap[id := w.mem.heap[id].Append(bytes)]);
      WriteEffect(w.mem, id, w.mem.heap[id].Append(bytes), multiset{id}, ChainOwners(w.chains) + rest,
          LiveRefs(w.refs));
      HandStep(w, m', multiset{id}, rest, w.hands);
    }
  }

  lemma {:induction false} RemoveAtLive(w: World, h: nat)
    requires Inv(w) && h < |w.hands|
    ensures forall k :: 0 <= k < |RemoveAt(w.hands, h)| ==> LiveRefs(w.refs)[RemoveAt(w.hands, h)[k]] == 0
  {
    forall k | 0 <= k < |RemoveAt(w.hands, h)| ensures LiveRefs(w.refs)[RemoveAt(w.hands, h)[k]] == 0 {
      assert RemoveAt(w.hands, h)[k] == w.hands[if k < h then k else k + 1];
    }
  }

  lemma {:induction false} ReleaseHandStep(w: World, h: nat)
    requires Inv(w)
    ensures Kept(w, DoReleaseHand(w, h))
  {
    if h < |w.hands| && w.hands[h] < |w.mem.heap| && w.mem.heap[w.hands[h]].uses > 0 {
      var id := w.hands[h];
      HandPart(w, h);
      var rest := multiset(RemoveAt(w.hands, h));
      assert multiset(w.mem.freeList) + (One(id) + multiset{}) + (ChainOwners(w.chains) + rest)
             == multiset(w.mem.freeList) + One(id) + (ChainOwners(w.chains) + rest);
      RemoveAtLive(w, h);
      ReleaseEffect(w.mem, id, multiset{}, ChainOwners(w.chains) + rest, LiveRefs(w.refs));
      HandStep(w, Release(w.mem, id), multiset{}, rest, RemoveAt(w.hands, h));
    }
  }

  lemma {:induction false} PushStep(w: World, h: nat, i: nat)
    requires Inv(w)
    ensures Kept(w, DoPush(w, h, i))
  {
    hide MemOk, ChainOk;
    if h < |w.hands| && w.hands[h] < |w.mem.heap| && w.mem.heap[w.hands[h]].uses > 0 && i < |w.chains| {
      var id, m, c, live := w.hands[h], w.mem, w.chains[i], LiveRefs(w.refs);
      var hands' := RemoveAt(w.hands, h);
      var rest := ChainOwners(w.chains[..i] + w.chains[i + 1..]) + multiset(hands');
      HandPart(w, h);
      RemoveAtLive(w, h);
      OwnersWithout(w.chains, i);
      InOwners(w.chains, i);
      assert id !in c.segs;
      AppendSegmentView(m, c, id);
      var (m', c') := AppendSegment(m, c, id);
      assert multiset(m.freeList) + One(id) + (ChainOwners(w.chains) + multiset(hands'))
             == multiset(m.freeList) + (One(id) + multiset(c.segs)) + rest;
      if m.heap[id].size > 0 {
        assert multiset(c'.segs) == One(id) + multiset(c.segs);
        assert Effect(m, m', multiset(c'.segs), rest, live);
      } else {
        DropEffect(m, id, multiset(c.segs), rest, live);
      }
      ChainStep(w, i, m', c', hands');
    }
  }

  /** Segments change hands inside the same memory. */
  lemma {:induction false} MoveStep(w: World, chains': seq<Chain>)
    requires Inv(w) && ChainOwners(chains') == ChainOwners(w.chains)
    requires forall i :: 0 <= i < |chains'| ==> ChainOk(w.mem, chains'[i])
    ensures var w' := w.(chains := chains'); Kept(w, w')
  {
    assert Owners(w.(chains := chains')) == Owners(w);
  }

  lemma {:induction false} NewChainOk(m: Memory, recycles: bool)
    requires MemOk(m)
    ensures ChainOk(m, Chain([], 0, 0, recycles))
  {
  }

  lemma {:induction false} NewChainStep(w: World, recycles: bool)
    requires Inv(w)
    ensures Kept(w, DoNewChain(w, recycles))
  {
    var c := Chain([], 0, 0, recycles);
    OwnersAppend(w.chains, c);
    assert ChainOwners(w.chains + [c]) == ChainOwners(w.chains) by { assert multiset(c.segs) == multiset{}; }
    NewChainOk(w.mem, recycles);
    forall i | 0 <= i < |w.chains| + 1 ensures ChainOk(w.mem, (w.chains + [c])[i]) {
      if i < |w.chains| { assert (w.chains + [c])[i] == w.chains[i]; }
    }
    MoveStep(w, w.chains + [c]);
  }

  lemma {:induction false} ConsumeStep(w: World, i: nat, n: nat)
    requires Inv(w)
    ensures Kept(w, DoConsume(w, i, n))
  {
    if i < |w.chains| {
      ChainPart(w, i);
      ConsumeView(w.mem, w.chains[i], n);
      ConsumeEffect(w.mem, w.chains[i], n, ChainOwners(w.chains[..i] + w.chains[i + 1..]) + multiset(w.hands),
          LiveRefs(w.refs));
      var r := ChainSpec.Consume(w.mem, w.chains[i], n);
      ChainStep(w, i, r.0, r.1, w.hands);
    }
  }

  lemma {:induction false} ClearStep(w: World, i: nat)
    requires Inv(w)
    ensures Kept(w, DoClear(w, i))
  {
    if i < |w.chains| {
      ChainPart(w, i);
      ClearEffect(w.mem, w.chains[i], ChainOwners(w.chains[..i] + w.chains[i + 1..]) + multiset(w.hands),
          LiveRefs(w.refs));
      var r := ChainSpec.Clear(w.mem, w.chains[i]);
      ChainStep(w, i, r.0, r.1, w.hands);
    }
  }

  lemma {:induction false} CompactStep(w: World, i: nat)
    requires Inv(w)
    ensures Kept(w, DoCompact(w, i))
  {
    if i < |w.chains| {
      ChainPart(w, i);
      CompactView(w.mem, w.chains[i]);
      CompactEffect(w.mem, w.chains[i], ChainOwners(w.chains[..i] + w.chains[i + 1..]) + multiset(w.hands),
          LiveRefs(w.refs));
      var r := ChainSpec.Compact(w.mem, w.chains[i]);
      ChainStep(w, i, r.0, r.1, w.hands);
    }
  }

  lemma {:induction false} ChainsDisjoint(w: World, i: nat, j: nat)
    requires Inv(w) && i < |w.chains| && j < |w.chains| && i != j
    ensures Disjoint(w.chains[i].segs, w.chains[j].segs)
  {
    hide MemOk, ChainOk, LiveRefs;
    var others := w.chains[..i] + w.chains[i + 1..];
    var j' := if j < i then j else j - 1;
    assert others[j'] == w.chains[j];
    OwnersWithout(w.chains, i);
    InOwners(others, j');
    forall id | id in w.chains[i].segs ensures id !in w.chains[j].segs {
      assert multiset(w.chains[i].segs)[id] > 0;
      assert Owners(w)[id] <= 1;
    }
  }

  lemma {:induction false} OwnersMove(chains: seq<Chain>, d: nat, s: nat, cd: Chain, cs: Chain)
    requires d < |chains| && s < |chains| && d != s
    requires multiset(cd.segs) + multiset(cs.segs) == multiset(chains[d].segs) + multiset(chains[s].segs)
    ensures ChainOwners(chains[d := cd][s := cs]) == ChainOwners(chains)
  {
    OwnersUpdate(chains, d, cd);
    OwnersUpdate(chains[d := cd], s, cs);
    var a, b, c := ChainOwners(chains), ChainOwners(chains[d := cd]), ChainOwners(chains[d := cd][s := cs]);
    assert b + multiset(chains[d].segs) == a + multiset(cd.segs);
    assert c + multiset(chains[s].segs) == b + multiset(cs.segs);
    forall id: SegId ensures c[id] == a[id] {
      assert (b + multiset(chains[d].segs))[id] == (a + multiset(cd.segs))[id];
      assert (c + multiset(chains[s].segs))[id] == (b + multiset(cs.segs))[id];
      assert (multiset(cd.segs) + multiset(cs.segs))[id] == (multiset(chains[d].segs) + multiset(chains[s].segs))[id];
    }
  }

  lemma {:induction false} SpliceStep(w: World, d: nat, s: nat)
    requires Inv(w)
    ensures Kept(w, DoSplice(w, d, s))
  {
    hide MemOk, ChainOk, Accounted, Owners, LiveRefs;
    if d < |w.chains| && s < |w.chains| && d != s && w.chains[s].total != 0 {
      SpliceProper(w, d, s);
    } else if d < |w.chains| && s < |w.chains| && d != s {
      assert w.chains[d := w.chains[d]][s := w.chains[s]] == w.chains;
      assert DoSplice(w, d, s) == w;
    }
  }

  lemma {:induction false} SpliceProper(w: World, d: nat, s: nat)
    requires Inv(w) && d < |w.chains| && s < |w.chains| && d != s && w.chains[s].total != 0
    ensures Kept(w, DoSplice(w, d, s))
  {
    var w1 := DoCompact(w, s);
    CompactStep(w, s);
    SpliceIsCompactThenJoin(w, d, s);
    JoinStep(w1, d, s);
    StableTrans(w, w1, DoSplice(w, d, s));
  }

  function Joined(w: World, d: nat, s: nat): seq<Chain>
    requires d < |w.chains| && s < |w.chains|
  {
    var dst, src := w.chains[d], w.chains[s];
    w.chains[d := dst.(segs := dst.segs + src.segs, total := dst.total + src.total,
                       recycles := dst.recycles || src.recycles)]
            [s := Emptied(src)]
  }

  lemma {:induction false} SpliceIsCompactThenJoin(w: World, d: nat, s: nat)
    requires Inv(w) && d < |w.chains| && s < |w.chains| && d != s && w.chains[s].total != 0
    ensures var w1 := DoCompact(w, s);
            && |w1.chains| == |w.chains| && w1.chains[s].offset == 0
            && DoSplice(w, d, s) == w1.(chains := Joined(w1, d, s))
  {
    hide Accounted, Owners, LiveRefs, View, Flat, ChainSpec.Compact;
    var w1 := DoCompact(w, s);
    CompactView(w.mem, w.chains[s]);
    assert w1.chains[d] == w.chains[d];
    assert DoSplice(w, d, s).chains == Joined(w1, d, s);
  }

  lemma {:induction false} JoinStep(w: World, d: nat, s: nat)
    requires Inv(w) && d < |w.chains| && s < |w.chains| && d != s && w.chains[s].offset == 0
    ensures var w' := w.(chains := Joined(w, d, s)); Kept(w, w')
  {
    JoinedOk(w, d, s);
    JoinedOwners(w, d, s);
    MoveStep(w, Joined(w, d, s));
  }

  lemma {:induction false} JoinedOk(w: World, d: nat, s: nat)
    requires Inv(w) && d < |w.chains| && s < |w.chains| && d != s && w.chains[s].offset == 0
    ensures forall i :: 0 <= i < |Joined(w, d, s)| ==> ChainOk(w.mem, Joined(w, d, s)[i])
  {
    ChainsDisjoint(w, s, d);
    JoinView(w.mem, w.chains[d], w.chains[s]);
    NewChainOk(w.mem, w.chains[s].recycles);
  }

  lemma {:induction false} JoinedOwners(w: World, d: nat, s: nat)
    requires d < |w.chains| && s < |w.chains| && d != s
    ensures ChainOwners(Joined(w, d, s)) == ChainOwners(w.chains)
  {
    var cs := Joined(w, d, s);
    assert multiset(cs[d].segs) == multiset(w.chains[d].segs) + multiset(w.chains[s].segs);
    assert multiset(cs[s].segs) == multiset{};
    OwnersMove(w.chains, d, s, cs[d], cs[s]);
  }

  lemma {:induction false} StableTrans(w0: World, w1: World, w2: World)
    requires Stable(w0, w1) && Stable(w1, w2)
    ensures Stable(w0, w2)
  {
    forall k | 0 <= k < |w0.refs| && w2.refs[k].live ensures w2.refs[k] == w0.refs[k] && Deref(w2, k) == Deref(w0, k) {
      assert w1.refs[k] == w1.refs[k];
    }
  }

  // ---- References --------------------------------------------------------------------

  lemma {:induction false} OwnedByChain(w: World, i: nat, k: nat)
    requires Inv(w) && i < |w.chains| && k < |w.chains[i].segs|
    ensures var id := w.chains[i].segs[k];
            && id < |w.mem.heap| && Owners(w)[id] == 1 && id !in w.mem.freeList && id !in w.hands
  {
    var id := w.chains[i].segs[k];
    assert Held(w.mem, id);
    InOwners(w.chains, i);
    assert Owners(w)[id] <= 1;
    assert id in w.hands ==> multiset(w.hands)[id] > 0;
  }

  /** Use counts and the list of references changed consistently, nothing else did. */
  lemma {:induction false} RefStep(w: World, m': Memory, refs': seq<Ref>)
    requires Inv(w) && MemOk(m') && |m'.heap| == |w.mem.heap| && m'.freeList == w.mem.freeList
    requires forall id {:trigger m'.heap[id]} :: 0 <= id < |m'.heap| ==>
               m'.heap[id].data == w.mem.heap[id].data && m'.heap[id].size == w.mem.heap[id].size
    requires Accounted(m', Owners(w), LiveRefs(refs'))
    requires forall h :: 0 <= h < |w.hands| ==> LiveRefs(refs')[w.hands[h]] == 0
    requires |w.refs| <= |refs'| && forall k :: 0 <= k < |w.refs| && refs'[k].live ==> refs'[k] == w.refs[k]
    requires forall k :: 0 <= k < |w.refs| && w.refs[k].live ==> w.refs[k].seg < |w.mem.heap|
    ensures Kept(w, w.(mem := m', refs := refs'))
  {
    var w' := w.(mem := m', refs := refs');
    forall k | 0 <= k < |w.refs| && refs'[k].live ensures Deref(w', k) == Deref(w, k) {
      assert m'.heap[w.refs[k].seg].data == w.mem.heap[w.refs[k].seg].data;
    }
    forall j | 0 <= j < |w.chains| ensures ChainOk(m', w.chains[j]) {
      forall n | 0 <= n < |w.chains[j].segs|
        ensures w.chains[j].segs[n] < |w.mem.heap| && m'.heap[w.chains[j].segs[n]].uses > 0
      {
        OwnedByChain(w, j, n);
        assert m'.heap[w.chains[j].segs[n]].uses == Owners(w)[w.chains[j].segs[n]]
            + LiveRefs(refs')[w.chains[j].segs[n]];
      }
      CountsOnly(w.mem, m', w.chains[j]);
    }
    assert Owners(w.(mem := m', refs := refs')) == Owners(w);
  }

  /** The reference taken for a contiguous range of a chain sees exactly that slice of it. */
  lemma {:induction false} TakeRefSees(w: World, i: nat, offset: nat, len: nat)
    requires Inv(w) && i < |w.chains| && len > 0 && IsContiguous(w.mem, w.chains[i], offset, len)
    ensures var at := Locate(w.mem, w.chains[i].segs, w.chains[i].offset + offset);
            var w' := DoTakeRef(w, i, at.0, at.1, len);
            && |w'.refs| == |w.refs| + 1 && w'.refs[|w.refs|].live
            && offset + len <= |View(w.mem.heap, w.chains[i])|
            && Deref(w', |w.refs|) == View(w.mem.heap, w.chains[i])[offset..offset + len]
  {
    PointerSeesSlice(w.mem, w.chains[i], offset, len);
  }

  lemma {:induction false} TakeRefStep(w: World, i: nat, k: nat, p: nat, len: nat)
    requires Inv(w)
    ensures Kept(w, DoTakeRef(w, i, k, p, len))
  {
    if i < |w.chains| && k < |w.chains[i].segs| && w.chains[i].segs[k] < |w.mem.heap| {
      var id := w.chains[i].segs[k];
      var r := Ref(id, p, len, true);
      OwnedByChain(w, i, k);
      LiveAppend(w.refs, r);
      ShareCounts(w.mem, id, Owners(w), LiveRefs(w.refs), LiveRefs(w.refs + [r]));
      RefsInHeap(w);
      RefStep(w, Share(w.mem, id), w.refs + [r]);
    }
  }

  lemma {:induction false} RefsInHeap(w: World)
    requires Inv(w)
    ensures forall k :: 0 <= k < |w.refs| && w.refs[k].live ==> w.refs[k].seg < |w.mem.heap|
  {
    forall k | 0 <= k < |w.refs| && w.refs[k].live ensures w.refs[k].seg < |w.mem.heap| { LiveHas(w.refs, k); }
  }

  lemma {:induction false} ShareCounts(m: Memory, id: SegId, owners: multiset<SegId>, live: multiset<SegId>,
                                       live': multiset<SegId>)
    requires MemOk(m) && Accounted(m, owners, live) && id < |m.heap| && live' == live + One(id) && id !in m.freeList
    ensures MemOk(Share(m, id)) && Accounted(Share(m, id), owners, live')
  {
    forall k: SegId ensures live'[k] == live[k] + (if k == id then 1 else 0) { assert (live + One(id))[k] == live'[k]; }
  }

  lemma {:induction false} DropRefStep(w: World, k: nat)
    requires Inv(w)
    ensures Kept(w, DoDropRef(w, k))
  {
    hide MemOk, ChainOk;
    if k < |w.refs| && w.refs[k].live && w.refs[k].seg < |w.mem.heap| && w.mem.heap[w.refs[k].seg].uses > 0 {
      var id := w.refs[k].seg;
      var refs' := w.refs[k := w.refs[k].(live := false)];
      LiveDrop(w.refs, k);
      PoolOwned(w);
      DropCounts(w.mem, id, Owners(w), LiveRefs(w.refs), LiveRefs(refs'));
      forall h | 0 <= h < |w.hands| ensures LiveRefs(refs')[w.hands[h]] == 0 {
        assert (LiveRefs(refs') + One(id))[w.hands[h]] == 0;
      }
      RefsInHeap(w);
      RefStep(w, Drop(w.mem, id), refs');
    }
  }

  lemma {:induction false} PoolOwned(w: World)
    ensures forall i :: 0 <= i < |w.mem.freeList| ==> Owners(w)[w.mem.freeList[i]] > 0
  {
    forall i | 0 <= i < |w.mem.freeList| ensures Owners(w)[w.mem.freeList[i]] > 0 {
      assert w.mem.freeList[i] in multiset(w.mem.freeList);
    }
  }

  lemma {:induction false} DropCounts(m: Memory, id: SegId, owners: multiset<SegId>, live: multiset<SegId>,
                                      live': multiset<SegId>)
    requires MemOk(m) && Accounted(m, owners, live) && id < |m.heap| && live' + One(id) == live
    requires forall i :: 0 <= i < |m.freeList| ==> owners[m.freeList[i]] > 0
    ensures m.heap[id].uses > 0 && MemOk(Drop(m, id)) && Accounted(Drop(m, id), owners, live')
  {
    assert m.heap[id].uses == owners[id] + live[id];
    forall k: SegId ensures live'[k] == live[k] - (if k == id then 1 else 0) { assert (live' + One(id))[k] == live[k]; }
    forall i | 0 <= i < |m.freeList| ensures m.freeList[i] != id {
      assert m.heap[m.freeList[i]].uses == owners[m.freeList[i]] + live[m.freeList[i]];
    }
  }

  // ---- Runs --------------------------------------------------------------------------

  lemma {:induction false} StepKeeps(w: World, op: Op)
    requires Inv(w)
    ensures Kept(w, Step(w, op))
  {
    hide Kept, DoAllocate, DoWrite, DoPush, DoReleaseHand, DoNewChain, DoConsume, DoClear, DoCompact, DoSplice,
        DoTakeRef, DoDropRef;
    match op
    case Allocate => AllocateStep(w);
    case Write(h, bytes) => WriteStep(w, h, bytes); assert Step(w, op) == DoWrite(w, h, bytes);
    case Push(h, i) => PushStep(w, h, i); assert Step(w, op) == DoPush(w, h, i);
    case ReleaseHand(h) => ReleaseHandStep(w, h); assert Step(w, op) == DoReleaseHand(w, h);
    case NewChain(r) => NewChainStep(w, r);
    case Consume(i, n) => ConsumeStep(w, i, n); assert Step(w, op) == DoConsume(w, i, n);
    case Clear(i) => ClearStep(w, i); assert Step(w, op) == DoClear(w, i);
    case Compact(i) => CompactStep(w, i); assert Step(w, op) == DoCompact(w, i);
    case Splice(d, s) => SpliceStep(w, d, s); assert Step(w, op) == DoSplice(w, d, s);
    case TakeRef(i, k, p, len) => TakeRefStep(w, i, k, p, len); assert Step(w, op) == DoTakeRef(w, i, k, p, len);
    case DropRef(k) => DropRefStep(w, k); assert Step(w, op) == DoDropRef(w, k);
  }

  ghost function Run(w: World, ops: seq<Op>): (w': World)
    requires Inv(w)
    ensures Inv(w')
    decreases |ops|
  {
    if ops == [] then w else StepKeeps(w, ops[0]); Run(Step(w, ops[0]), ops[1..])
  }

  /** Over any run, a record reference that is still live shows the bytes it always showed. */
  lemma {:induction false} ZeroCopyStable(w: World, ops: seq<Op>)
    requires Inv(w)
    ensures Stable(w, Run(w, ops))
    decreases |ops|
  {
    if ops != [] {
      StepKeeps(w, ops[0]);
      ZeroCopyStable(Step(w, ops[0]), ops[1..]);
      StableTrans(w, Step(w, ops[0]), Run(w, ops));
    }
  }

  /** The empty world satisfies the invariant, so everything below holds of every run from it. */
  lemma {:induction false} StartsValid(maxPool: nat)
    ensures Inv(World(Memory([], [], maxPool), [], [], []))
  {
    var w := World(Memory([], [], maxPool), [], [], []);
    assert Owners(w) == multiset{} && LiveRefs(w.refs) == multiset{};
  }

  /** Whatever happened, a pooled segment has exactly one holder, the pool: no chain, no local
      variable and no live reference names it. */
  lemma {:induction false} PooledHasNoOtherHolder(w: World, ops: seq<Op>)
    requires Inv(w)
    ensures var w' := Run(w, ops);
            forall p :: 0 <= p < |w'.mem.freeList| ==>
              var id := w'.mem.freeList[p];
              && id < |w'.mem.heap| && w'.mem.heap[id].uses == 1
              && id !in w'.hands
              && (forall i :: 0 <= i < |w'.chains| ==> id !in w'.chains[i].segs)
              && (forall k :: 0 <= k < |w'.refs| && w'.refs[k].live ==> w'.refs[k].seg != id)
  {
    var w' := Run(w, ops);
    forall p | 0 <= p < |w'.mem.freeList|
      ensures w'.mem.freeList[p] !in w'.hands
      ensures forall i :: 0 <= i < |w'.chains| ==> w'.mem.freeList[p] !in w'.chains[i].segs
      ensures forall k :: 0 <= k < |w'.refs| && w'.refs[k].live ==> w'.refs[k].seg != w'.mem.freeList[p]
    {
      PooledAlone(w', p);
    }
  }

  lemma {:induction false} PooledAlone(w: World, p: nat)
    requires Inv(w) && p < |w.mem.freeList|
    ensures w.mem.freeList[p] !in w.hands
    ensures forall i :: 0 <= i < |w.chains| ==> w.mem.freeList[p] !in w.chains[i].segs
    ensures forall k :: 0 <= k < |w.refs| && w.refs[k].live ==> w.refs[k].seg != w.mem.freeList[p]
  {
    var id := w.mem.freeList[p];
    assert multiset(w.mem.freeList)[id] > 0;
    assert Owners(w)[id] <= 1;
    assert id in w.hands ==> multiset(w.hands)[id] > 0;
    forall i | 0 <= i < |w.chains| ensures id !in w.chains[i].segs {
      forall j | 0 <= j < |w.chains[i].segs| ensures w.chains[i].segs[j] != id { OwnedByChain(w, i, j); }
    }
    assert w.mem.heap[id].uses == Owners(w)[id] + LiveRefs(w.refs)[id];
    forall k | 0 <= k < |w.refs| && w.refs[k].live ensures w.refs[k].seg != id { LiveHas(w.refs, k); }
  }
}
