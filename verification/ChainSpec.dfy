/** What every BufferChain operation does to memory and to the chain, as functions on
    values, and the proof that each one is an operation on a flat byte sequence. */
module ChainSpec {
  import opened Bytes
  import opened Segments

  function FrontAvailable(m: Memory, c: Chain): (n: nat)
    requires ChainOk(m, c) && c.segs != []
    ensures n > 0
  {
    m.heap[c.segs[0]].size - c.offset
  }

  /** Drop the whole front segment, handing it to the recycler if there is one. */
  function PopFront(m: Memory, c: Chain): (r: (Memory, Chain))
    requires ChainOk(m, c) && c.segs != []
    ensures ChainOk(r.0, r.1) && |r.1.segs| < |c.segs|
  {
    PopFrontView(m, c);
    Popped(m, c)
  }

  function Popped(m: Memory, c: Chain): (Memory, Chain)
    requires ChainOk(m, c) && c.segs != []
  {
    var id := c.segs[0];
    assert Held(m, id);
    FlatFirst(m, c);
    (if c.recycles then Release(m, id) else Drop(m, id),
     Chain(c.segs[1..], 0, c.total - FrontAvailable(m, c), c.recycles))
  }

  lemma {:induction false} FlatFirst(m: Memory, c: Chain)
    requires ChainOk(m, c) && c.segs != []
    ensures Flat(m.heap, c.segs) == SegBytes(m.heap, c.segs[0]) + Flat(m.heap, c.segs[1..])
    ensures |SegBytes(m.heap, c.segs[0])| == m.heap[c.segs[0]].size
    ensures FrontAvailable(m, c) <= c.total == |View(m.heap, c)|
  {
    assert Held(m, c.segs[0]);
  }

  lemma {:induction false} PopFrontView(m: Memory, c: Chain)
    requires ChainOk(m, c) && c.segs != []
    ensures var (m', c') := Popped(m, c);
            && ChainOk(m', c')
            && c'.segs == c.segs[1..]
            && View(m'.heap, c') == View(m.heap, c)[FrontAvailable(m, c)..]
  {
    var (m', c') := Popped(m, c);
    FlatFirst(m, c);
    PopFrontHeld(m, c);
    FlatFrame(m.heap, m'.heap, c'.segs);
    DropAllOf(SegBytes(m.heap, c.segs[0]), Flat(m.heap, c'.segs), c.offset);
    if c'.segs != [] { assert Held(m', c'.segs[0]); }
  }

  lemma {:induction false} DropAllOf(x: seq<byte>, y: seq<byte>, k: nat)
    requires k <= |x|
    ensures (x + y)[k..][|x| - k..] == y
  {
  }

  lemma {:induction false} PopFrontHeld(m: Memory, c: Chain)
    requires ChainOk(m, c) && c.segs != []
    ensures var (m', c') := Popped(m, c);
            && MemOk(m') && |m'.heap| == |m.heap|
            && (forall i :: 0 <= i < |c'.segs| ==> Held(m', c'.segs[i]))
            && (forall i, j :: 0 <= i < j < |c'.segs| ==> c'.segs[i] != c'.segs[j])
            && forall id :: 0 <= id < |m.heap| ==>
                m'.heap[id].data == m.heap[id].data && m'.heap[id].size == m.heap[id].size
  {
    var (m', c') := Popped(m, c);
    assert Held(m, c.segs[0]);
    assert MemOk(m');
    forall i | 0 <= i < |c'.segs| ensures Held(m', c'.segs[i]) && c'.segs[i] == c.segs[i + 1] {
      assert Held(m, c.segs[i + 1]);
    }
  }

  /** Consume `n` bytes from the front; asking for more than there is consumes it all. */
  function Consume(m: Memory, c: Chain, n: nat): (r: (Memory, Chain))
    requires ChainOk(m, c)
    decreases |c.segs|
  {
    if n == 0 || c.segs == [] then (m, c)
    else
      var avail := FrontAvailable(m, c);
      if n >= avail then
        var (m', c') := PopFront(m, c);
        Consume(m', c', n - avail)
      else
        FlatFirst(m, c);
        (m, c.(offset := c.offset + n, total := c.total - n))
  }

  lemma {:induction false} ConsumeNone(m: Memory, c: Chain)
    requires ChainOk(m, c)
    ensures Consume(m, c, 0) == (m, c) && SameHeapBytes(m.heap, m.heap)
  {
  }

  lemma {:induction false} DropDrop(s: seq<byte>, a: nat, b: nat)
    requires a + b <= |s|
    ensures s[a..][b..] == s[a + b..]
  {
  }

  lemma {:induction false} DropMin(v: seq<byte>, a: nat, n: nat)
    requires a <= |v| && a <= n
    ensures v[a..][Min(n - a, |v[a..]|)..] == v[Min(n, |v|)..]
  {
  }

  /** What an operation must establish to have the effect `view` on the flat sequence. */
  ghost predicate Becomes(m: Memory, c: Chain, view: seq<byte>) {
    ChainOk(m, c) && View(m.heap, c) == view
  }

  /** Consume is "drop the first n bytes". */
  lemma {:induction false} ConsumeView(m: Memory, c: Chain, n: nat)
    requires ChainOk(m, c)
    ensures var r := Consume(m, c, n);
            Becomes(r.0, r.1, View(m.heap, c)[Min(n, |View(m.heap, c)|)..])
    decreases |c.segs|
  {
    var v := View(m.heap, c);
    if n == 0 || c.segs == [] {
      assert v[0..] == v;
    } else {
      FlatFirst(m, c);
      var avail := FrontAvailable(m, c);
      if n >= avail {
        ConsumeViewPop(m, c, n);
      } else {
        var c' := c.(offset := c.offset + n, total := c.total - n);
        assert ChainOk(m, c');
        DropDrop(Flat(m.heap, c.segs), c.offset, n);
      }
    }
  }

  lemma {:induction false} ConsumeViewPop(m: Memory, c: Chain, n: nat)
    requires ChainOk(m, c) && c.segs != [] && n >= FrontAvailable(m, c)
    ensures var r := Consume(m, c, n);
            Becomes(r.0, r.1, View(m.heap, c)[Min(n, |View(m.heap, c)|)..])
    decreases |c.segs|, 0
  {
    var r := PopFront(m, c);
    ConsumeView(r.0, r.1, n - FrontAvailable(m, c));
    PoppedView(m, c, n);
    ConsumeUnfold(m, c, n);
  }

  lemma {:induction false} PoppedView(m: Memory, c: Chain, n: nat)
    requires ChainOk(m, c) && c.segs != [] && n >= FrontAvailable(m, c)
    ensures var r := PopFront(m, c); var v := View(r.0.heap, r.1);
            v[Min(n - FrontAvailable(m, c), |v|)..] == View(m.heap, c)[Min(n, |View(m.heap, c)|)..]
  {
    FlatFirst(m, c);
    PopFrontView(m, c);
    DropMin(View(m.heap, c), FrontAvailable(m, c), n);
  }

  lemma {:induction false} ConsumeUnfold(m: Memory, c: Chain, n: nat)
    requires ChainOk(m, c) && c.segs != [] && n >= FrontAvailable(m, c)
    ensures var r := PopFront(m, c); Consume(m, c, n) == Consume(r.0, r.1, n - FrontAvailable(m, c))
  {
  }

  /** Consume moves references about; it never writes a byte. */
  lemma {:induction false} ConsumeHeap(m: Memory, c: Chain, n: nat)
    requires ChainOk(m, c)
    ensures var r := Consume(m, c, n); SameHeapBytes(m.heap, r.0.heap)
    decreases |c.segs|
  {
    if n != 0 && c.segs != [] && n >= FrontAvailable(m, c) {
      PopFrontHeld(m, c);
      var (m', c') := PopFront(m, c);
      ConsumeHeap(m', c', n - FrontAvailable(m, c));
    }
  }

  /** Same segments, with the same bytes in them; only use counts differ. */
  ghost predicate SameHeapBytes(h: seq<Segment>, h': seq<Segment>) {
    |h'| == |h| && forall id {:trigger h'[id]} :: 0 <= id < |h| ==>
        h'[id].data == h[id].data && h'[id].size == h[id].size
  }

  // ---- Locating bytes ----------------------------------------------------------------

  lemma {:induction false} FlatSplit(h: seq<Segment>, segs: seq<SegId>, i: nat)
    requires i < |segs|
    ensures Flat(h, segs) == Flat(h, segs[..i]) + (SegBytes(h, segs[i]) + Flat(h, segs[i + 1..]))
    ensures Flat(h, segs[..i + 1]) == Flat(h, segs[..i]) + SegBytes(h, segs[i])
  {
    assert segs == segs[..i] + ([segs[i]] + segs[i + 1..]);
    FlatAppend(h, segs[..i], [segs[i]] + segs[i + 1..]);
    FlatAppend(h, [segs[i]], segs[i + 1..]);
    FlatSingle(h, segs[i]);
    assert segs[..i + 1] == segs[..i] + [segs[i]];
    FlatAppend(h, segs[..i], [segs[i]]);
  }

  lemma {:induction false} MiddleSlice(x: seq<byte>, y: seq<byte>, z: seq<byte>, a: nat, b: nat)
    requires a <= b <= |y|
    ensures (x + (y + z))[|x| + a..|x| + b] == y[a..b]
  {
  }

  /** Where segment `i`'s bytes sit in the flat sequence. */
  lemma {:induction false} FlatAt(h: seq<Segment>, segs: seq<SegId>, i: nat, a: nat, b: nat)
    requires i < |segs| && a <= b <= |SegBytes(h, segs[i])|
    ensures var before := |Flat(h, segs[..i])|;
            before + b <= |Flat(h, segs)| && Flat(h, segs)[before + a..before + b] == SegBytes(h, segs[i])[a..b]
    ensures Flat(h, segs[..i + 1]) == Flat(h, segs[..i]) + SegBytes(h, segs[i])
  {
    FlatSplit(h, segs, i);
    MiddleSlice(Flat(h, segs[..i]), SegBytes(h, segs[i]), Flat(h, segs[i + 1..]), a, b);
  }

  lemma {:induction false} FlatPrefixLength(h: seq<Segment>, segs: seq<SegId>, i: nat)
    requires i <= |segs|
    ensures |Flat(h, segs[..i])| <= |Flat(h, segs)|
  {
    assert segs == segs[..i] + segs[i..];
    FlatAppend(h, segs[..i], segs[i..]);
  }

  /** The search every accessor runs: which segment, from index `i` on, holds position `pos`
      counted from the start of segment `i`, and where in it. An index past the end means
      "not there". */
  function LocateFrom(m: Memory, segs: seq<SegId>, i: nat, pos: nat): (nat, nat)
    requires i <= |segs| && forall k :: 0 <= k < |segs| ==> Held(m, segs[k])
    decreases |segs| - i
  {
    if i == |segs| then (i, pos)
    else
      assert Held(m, segs[i]);
      if pos < m.heap[segs[i]].size then (i, pos) else LocateFrom(m, segs, i + 1, pos - m.heap[segs[i]].size)
  }

  function Locate(m: Memory, segs: seq<SegId>, pos: nat): (nat, nat)
    requires forall k :: 0 <= k < |segs| ==> Held(m, segs[k])
  {
    LocateFrom(m, segs, 0, pos)
  }

  /** The search finds the segment exactly when the position is inside the data, and then
      the bytes before that segment plus the offset in it are the position. */
  lemma {:induction false} LocateFromCorrect(m: Memory, segs: seq<SegId>, k: nat, pos: nat)
    requires MemOk(m) && k <= |segs| && forall i :: 0 <= i < |segs| ==> Held(m, segs[i])
    ensures var (i, p) := LocateFrom(m, segs, k, pos);
            && k <= i <= |segs|
            && |Flat(m.heap, segs[..i])| + p == |Flat(m.heap, segs[..k])| + pos
            && (i < |segs| ==> p < m.heap[segs[i]].size)
    decreases |segs| - k
  {
    if k < |segs| {
      assert Held(m, segs[k]);
      if pos >= m.heap[segs[k]].size {
        assert |Flat(m.heap, segs[..k + 1])| == |Flat(m.heap, segs[..k])| + m.heap[segs[k]].size by {
          FlatSplit(m.heap, segs, k);
        }
        LocateFromCorrect(m, segs, k + 1, pos - m.heap[segs[k]].size);
      }
    }
  }

  /** DataAt's pointer, GetSegmentAt's segment. */
  function PointerAt(m: Memory, c: Chain, offset: nat): (SegId, nat)
    requires ChainOk(m, c)
  {
    var at := Locate(m, c.segs, c.offset + offset);
    if at.0 < |c.segs| then (c.segs[at.0], at.1) else (0, 0)
  }

  lemma {:induction false} LocateCorrect(m: Memory, segs: seq<SegId>, pos: nat)
    requires MemOk(m) && forall i :: 0 <= i < |segs| ==> Held(m, segs[i])
    ensures var (i, p) := Locate(m, segs, pos);
            && i <= |segs|
            && (i < |segs| <==> pos < |Flat(m.heap, segs)|)
            && |Flat(m.heap, segs[..i])| + p == pos
            && (i < |segs| ==> p < m.heap[segs[i]].size)
  {
    LocateFromCorrect(m, segs, 0, pos);
    assert segs[..0] == [] && segs[..|segs|] == segs;
    var (i, p) := Locate(m, segs, pos);
    if i < |segs| {
      assert Held(m, segs[i]);
      FlatSplit(m.heap, segs, i);
    }
  }

  /** IsContiguous as the source computes it. */
  predicate IsContiguous(m: Memory, c: Chain, offset: nat, len: nat)
    requires ChainOk(m, c)
  {
    if c.segs == [] then false
    else if len == 0 then offset <= c.total
    else
      LocateCorrect(m, c.segs, c.offset + offset);
      var (i, p) := Locate(m, c.segs, c.offset + offset);
      i < |c.segs| && (assert Held(m, c.segs[i]); p + len <= m.heap[c.segs[i]].size)
  }

  /** Segment `i` alone covers positions offset .. offset + len of the view. */
  ghost predicate CoveredBy(h: seq<Segment>, c: Chain, i: nat, offset: nat, len: nat)
    requires i < |c.segs|
  {
    |Flat(h, c.segs[..i])| <= c.offset + offset
    && c.offset + offset + len <= |Flat(h, c.segs[..i])| + |SegBytes(h, c.segs[i])|
  }

  lemma {:induction false} CoversUnique(m: Memory, segs: seq<SegId>, i: nat, j: nat)
    requires i < j < |segs|
    ensures |Flat(m.heap, segs[..i])| + |SegBytes(m.heap, segs[i])| <= |Flat(m.heap, segs[..j])|
  {
    FlatAt(m.heap, segs, i, 0, 0);
    assert segs[..j][..i + 1] == segs[..i + 1];
    FlatPrefixLength(m.heap, segs[..j], i + 1);
  }

  /** IsContiguous on a non-empty range is true exactly when one segment covers it; an empty
      range counts as contiguous up to and including the end of a chain that is not empty. */
  lemma {:induction false} ContiguousIff(m: Memory, c: Chain, offset: nat, len: nat)
    requires ChainOk(m, c)
    ensures len > 0 ==>
              (IsContiguous(m, c, offset, len) <==>
                  exists i: nat :: i < |c.segs| && CoveredBy(m.heap, c, i, offset, len))
    ensures len == 0 ==>
              (IsContiguous(m, c, offset, len) <==> View(m.heap, c) != [] && offset <= |View(m.heap, c)|)
  {
    EmptyChain(m, c);
    if c.segs != [] { FlatFirst(m, c); }
    if len > 0 { CoveredIff(m, c, offset, len); }
  }

  lemma {:induction false} CoveredIff(m: Memory, c: Chain, offset: nat, len: nat)
    requires ChainOk(m, c) && len > 0
    ensures IsContiguous(m, c, offset, len) <==> exists i: nat :: i < |c.segs| && CoveredBy(m.heap, c, i, offset, len)
  {
    var pos := c.offset + offset;
    LocateCorrect(m, c.segs, pos);
    var (i, p) := Locate(m, c.segs, pos);
    if i < |c.segs| {
      assert Held(m, c.segs[i]);
      assert IsContiguous(m, c, offset, len) <==> CoveredBy(m.heap, c, i, offset, len);
    }
    forall j: nat | j < |c.segs| && CoveredBy(m.heap, c, j, offset, len) ensures j == i {
      FlatAt(m.heap, c.segs, j, 0, |SegBytes(m.heap, c.segs[j])|);
      if j < i {
        if i < |c.segs| { CoversUnique(m, c.segs, j, i); }
      } else if i < j {
        CoversUnique(m, c.segs, i, j);
      }
    }
  }

  lemma {:induction false} SegmentSlice(h: seq<Segment>, segs: seq<SegId>, i: nat, p: nat, len: nat)
    requires i < |segs| && segs[i] < |h| && h[segs[i]].Ok() && p + len <= h[segs[i]].size
    ensures var pos := |Flat(h, segs[..i])| + p;
            pos + len <= |Flat(h, segs)| && h[segs[i]].data[p..p + len] == Flat(h, segs)[pos..pos + len]
  {
    FlatAt(h, segs, i, p, p + len);
    SliceOfTake(h[segs[i]].data, h[segs[i]].size, p, p + len);
  }

  /** Byte `at` of the listed segments is byte `p` of segment `i`. */
  ghost predicate Cursor(m: Memory, segs: seq<SegId>, i: nat, p: nat, at: nat) {
    i < |segs| && Held(m, segs[i]) && p < m.heap[segs[i]].size && |Flat(m.heap, segs[..i])| + p == at
  }

  lemma {:induction false} StartCursor(m: Memory, c: Chain, offset: nat)
    requires ChainOk(m, c) && offset < |View(m.heap, c)|
    ensures var at := Locate(m, c.segs, c.offset + offset);
            Cursor(m, c.segs, at.0, at.1, c.offset + offset)
  {
    EmptyChain(m, c);
    LocateCorrect(m, c.segs, c.offset + offset);
    var at := Locate(m, c.segs, c.offset + offset);
    assert Held(m, c.segs[at.0]);
  }

  /** One step of CopyTo: the run of bytes taken from segment `i`, and where the next one starts. */
  lemma {:induction false} CopyRun(m: Memory, segs: seq<SegId>, i: nat, p: nat, at: nat, n: nat)
    requires Cursor(m, segs, i, p, at) && m.heap[segs[i]].Ok() && p + n <= m.heap[segs[i]].size
    requires i + 1 < |segs| ==> Held(m, segs[i + 1])
    ensures at + n <= |Flat(m.heap, segs)|
    ensures m.heap[segs[i]].data[p..p + n] == Flat(m.heap, segs)[at..at + n]
    ensures p + n == m.heap[segs[i]].size && at + n < |Flat(m.heap, segs)| ==> Cursor(m, segs, i + 1, 0, at + n)
  {
    SegmentSlice(m.heap, segs, i, p, n);
    FlatSplit(m.heap, segs, i);
    assert i + 1 == |segs| ==> segs[..i + 1] == segs;
  }

  lemma {:induction false} SliceGrows(s: seq<byte>, got: seq<byte>, run: seq<byte>, a: nat, b: nat, c: nat)
    requires a <= b <= c <= |s| && got == s[a..b] && run == s[b..c]
    ensures got + run == s[a..c]
  {
  }

  lemma {:induction false} ViewSlice(h: seq<Segment>, c: Chain, offset: nat, len: nat)
    requires c.offset + offset + len <= |Flat(h, c.segs)|
    ensures offset + len <= |View(h, c)|
    ensures View(h, c)[offset..offset + len] == Flat(h, c.segs)[c.offset + offset..c.offset + offset + len]
  {
    SliceOfDrop(Flat(h, c.segs), c.offset, offset, len);
  }

  /** The pointer (segment, position) reads `len` bytes of memory. */
  function Peek(h: seq<Segment>, id: SegId, p: nat, len: nat): seq<byte> {
    if id < |h| && p + len <= |h[id].data| then h[id].data[p..p + len] else []
  }

  /** When the range is contiguous, the bytes behind DataAt's pointer are that slice of the
      view. */
  lemma {:induction false} PointerSeesSlice(m: Memory, c: Chain, offset: nat, len: nat)
    requires ChainOk(m, c) && len > 0 && IsContiguous(m, c, offset, len)
    ensures var at := Locate(m, c.segs, c.offset + offset); var (id, p) := PointerAt(m, c, offset);
            && at.0 < |c.segs| && (id, p) == (c.segs[at.0], at.1)
            && Held(m, id) && p + len <= m.heap[id].size
            && offset + len <= |View(m.heap, c)|
            && Peek(m.heap, id, p, len) == View(m.heap, c)[offset..offset + len]
  {
    hide Flat, View, LocateFrom;
    LocateCorrect(m, c.segs, c.offset + offset);
    var (i, p) := Locate(m, c.segs, c.offset + offset);
    assert Held(m, c.segs[i]);
    SegmentSlice(m.heap, c.segs, i, p, len);
    ViewSlice(m.heap, c, offset, len);
  }

  lemma {:induction false} SliceOfDrop(s: seq<byte>, k: nat, a: nat, n: nat)
    requires k + a + n <= |s|
    ensures s[k..][a..a + n] == s[k + a..k + a + n]
  {
  }

  lemma {:induction false} SliceOfTake(s: seq<byte>, k: nat, a: nat, b: nat)
    requires a <= b <= k <= |s|
    ensures s[..k][a..b] == s[a..b]
  {
  }

  // ---- Growing -----------------------------------------------------------------------

  /** Append a segment the caller owns; an empty one is let go. */
  function AppendSegment(m: Memory, c: Chain, id: SegId): (Memory, Chain)
    requires ChainOk(m, c) && id < |m.heap| && m.heap[id].uses > 0
  {
    if m.heap[id].size > 0
    then (m, c.(segs := c.segs + [id], total := c.total + m.heap[id].size))
    else (Drop(m, id), c)
  }

  /** The caller owns `id`: nobody else in the chain or the pool does. */
  ghost predicate Owned(m: Memory, c: Chain, id: SegId) {
    id < |m.heap| && m.heap[id].uses > 0 && id !in c.segs && id !in m.freeList
  }

  lemma {:induction false} AppendSegmentView(m: Memory, c: Chain, id: SegId)
    requires ChainOk(m, c) && Owned(m, c, id)
    ensures var r := AppendSegment(m, c, id);
            Becomes(r.0, r.1, View(m.heap, c) + SegBytes(m.heap, id)) && r.0.heap[id].size == m.heap[id].size
  {
    var (m', c') := AppendSegment(m, c, id);
    if m.heap[id].size > 0 {
      FlatAppend(m.heap, c.segs, [id]);
      FlatSingle(m.heap, id);
      forall i | 0 <= i < |c'.segs| ensures Held(m', c'.segs[i]) {
        if i < |c.segs| { assert Held(m, c.segs[i]); }
      }
      AppendOk(m, c, id);
    } else {
      FlatFrame(m.heap, m'.heap, c.segs);
      forall i | 0 <= i < |c.segs| ensures Held(m', c.segs[i]) { assert Held(m, c.segs[i]); }
    }
  }

  lemma {:induction false} AppendOk(m: Memory, c: Chain, id: SegId)
    requires ChainOk(m, c) && Owned(m, c, id) && m.heap[id].size > 0
    requires Flat(m.heap, c.segs + [id]) == Flat(m.heap, c.segs) + SegBytes(m.heap, id)
    ensures ChainOk(m, AppendSegment(m, c, id).1)
    ensures View(m.heap, AppendSegment(m, c, id).1) == View(m.heap, c) + SegBytes(m.heap, id)
  {
    var c' := AppendSegment(m, c, id).1;
    forall i | 0 <= i < |c'.segs| ensures Held(m, c'.segs[i]) {
      if i < |c.segs| { assert Held(m, c.segs[i]); }
    }
    if c.segs != [] { FlatFirst(m, c); assert c'.segs[0] == c.segs[0]; }
  }

  /** One round of AppendBytes: allocate, fill, append. */
  function FillOne(m: Memory, c: Chain, bytes: seq<byte>): (r: (Memory, Chain))
    requires ChainOk(m, c) && bytes != []
    ensures ChainOk(r.0, r.1)
  {
    FillOneView(m, c, bytes);
    var (m1, id) := Allocate(m);
    var m2 := m1.(heap := m1.heap[id := m1.heap[id].Append(bytes)]);
    AppendSegment(m2, c, id)
  }

  lemma {:induction false} FillOneView(m: Memory, c: Chain, bytes: seq<byte>)
    requires ChainOk(m, c) && bytes != []
    ensures var (m1, id) := Allocate(m);
            && id < |m1.heap| && m1.heap[id].Ok()
            && var m2 := m1.(heap := m1.heap[id := m1.heap[id].Append(bytes)]);
            && ChainOk(m2, c) && Owned(m2, c, id)
            && SegBytes(m2.heap, id) == bytes[..Min(|bytes|, SEGMENT_SIZE)]
            && var r := AppendSegment(m2, c, id);
            Becomes(r.0, r.1, View(m.heap, c) + bytes[..Min(|bytes|, SEGMENT_SIZE)])
  {
    AllocateOk(m);
    var (m1, id) := Allocate(m);
    var m2 := m1.(heap := m1.heap[id := m1.heap[id].Append(bytes)]);
    assert id !in c.segs by {
      forall i | 0 <= i < |c.segs| ensures c.segs[i] != id { assert Held(m, c.segs[i]); }
    }
    FlatFrame(m.heap, m2.heap, c.segs);
    assert SegBytes(m2.heap, id) == bytes[..Min(|bytes|, SEGMENT_SIZE)];
    forall i | 0 <= i < |c.segs| ensures Held(m2, c.segs[i]) { assert Held(m, c.segs[i]); }
    assert ChainOk(m2, c);
    AppendSegmentView(m2, c, id);
  }

  lemma {:induction false} AppendInTwo(v: seq<byte>, s: seq<byte>, n: nat)
    requires n <= |s|
    ensures (v + s[..n]) + s[n..] == v + s
  {
  }

  function AppendBytes(m: Memory, c: Chain, bytes: seq<byte>): (Memory, Chain)
    requires ChainOk(m, c)
    decreases |bytes|
  {
    if bytes == [] then (m, c)
    else
      var (m', c') := FillOne(m, c, bytes);
      AppendBytes(m', c', bytes[Min(|bytes|, SEGMENT_SIZE)..])
  }

  /** AppendBytes is concatenation, however many segments it takes. */
  lemma {:induction false} AppendBytesView(m: Memory, c: Chain, bytes: seq<byte>)
    requires ChainOk(m, c)
    ensures var r := AppendBytes(m, c, bytes); Becomes(r.0, r.1, View(m.heap, c) + bytes)
    decreases |bytes|
  {
    if bytes == [] {
      assert View(m.heap, c) + bytes == View(m.heap, c);
    } else {
      var n := Min(|bytes|, SEGMENT_SIZE);
      FillOneView(m, c, bytes);
      var (m', c') := FillOne(m, c, bytes);
      AppendBytesView(m', c', bytes[n..]);
      AppendInTwo(View(m.heap, c), bytes, n);
    }
  }

  // ---- Compact, Splice, Clear --------------------------------------------------------

  /** Drop the consumed bytes of the first segment: in place when nobody else holds it,
      into a new segment when it is shared. */
  function Compact(m: Memory, c: Chain): (Memory, Chain)
    requires ChainOk(m, c)
  {
    if c.offset == 0 || c.segs == [] then (m, c)
    else
      var id := c.segs[0];
      assert Held(m, id);
      var first := m.heap[id];
      var rest := first.data[c.offset..first.size];
      if first.uses > 1 then
        (Drop(m, id).(heap := Drop(m, id).heap + [NewSegment().Append(rest)]),
         c.(segs := [|m.heap|] + c.segs[1..], offset := 0))
      else
        (m.(heap := m.heap[id := Segment(rest + first.data[|rest|..], |rest|, first.uses)]), c.(offset := 0))
  }

  /** The bytes of every live segment other than the chain's front one are untouched, and so
      are the front one's when somebody else holds it. */
  lemma {:induction false} CompactFrame(m: Memory, c: Chain)
    requires ChainOk(m, c)
    ensures var (m', c') := Compact(m, c);
            && |m.heap| <= |m'.heap| && m'.freeList == m.freeList && m'.maxPool == m.maxPool
            && c'.recycles == c.recycles
            && forall k :: 0 <= k < |m.heap| ==>
                 (m'.heap[k] == m.heap[k] || (c.segs != [] && k == c.segs[0] &&
                   (m.heap[k].uses > 1 ==> m'.heap[k].data == m.heap[k].data && m'.heap[k].size == m.heap[k].size)))
  {
    if c.segs != [] { assert Held(m, c.segs[0]); }
  }

  /** Compact is the identity on the flat sequence and leaves nothing consumed in front. */
  lemma {:induction false} CompactView(m: Memory, c: Chain)
    requires ChainOk(m, c)
    ensures var r := Compact(m, c); Becomes(r.0, r.1, View(m.heap, c)) && r.1.offset == 0
  {
    if !(c.offset == 0 || c.segs == []) {
      CompactViewProper(m, c);
    }
  }

  lemma {:induction false} CompactViewProper(m: Memory, c: Chain)
    requires ChainOk(m, c) && c.offset != 0 && c.segs != []
    ensures var r := Compact(m, c); Becomes(r.0, r.1, View(m.heap, c))
  {
    var (m', c') := Compact(m, c);
    FlatFirst(m, c);
    CompactHeld(m, c);
    CompactFront(m, c);
    assert c'.segs[1..] == c.segs[1..];
    var rest := m.heap[c.segs[0]].data[c.offset..m.heap[c.segs[0]].size];
    assert Flat(m'.heap, c'.segs) == rest + Flat(m.heap, c.segs[1..]);
    DropOfConcat(SegBytes(m.heap, c.segs[0]), Flat(m.heap, c.segs[1..]), c.offset);
  }

  lemma {:induction false} DropOfConcat(x: seq<byte>, y: seq<byte>, k: nat)
    requires k <= |x|
    ensures (x + y)[k..] == x[k..] + y
  {
  }

  lemma {:induction false} CompactFront(m: Memory, c: Chain)
    requires ChainOk(m, c) && c.offset != 0 && c.segs != []
    ensures var (m', c') := Compact(m, c);
            && Held(m, c.segs[0]) && c'.segs[0] < |m'.heap|
            && m'.heap[c'.segs[0]].size > 0
            && SegBytes(m'.heap, c'.segs[0]) == m.heap[c.segs[0]].data[c.offset..m.heap[c.segs[0]].size]
            && SegBytes(m'.heap, c'.segs[0]) == SegBytes(m.heap, c.segs[0])[c.offset..]
            && Flat(m'.heap, c.segs[1..]) == Flat(m.heap, c.segs[1..])
  {
    var (m', c') := Compact(m, c);
    assert Held(m, c.segs[0]);
    forall id | id in c.segs[1..] ensures SegBytes(m'.heap, id) == SegBytes(m.heap, id) {
      var i :| 0 <= i < |c.segs[1..]| && c.segs[1..][i] == id;
      assert c.segs[i + 1] == id && Held(m, c.segs[i + 1]);
    }
    FlatFrame(m.heap, m'.heap, c.segs[1..]);
  }

  lemma {:induction false} CompactHeld(m: Memory, c: Chain)
    requires ChainOk(m, c) && c.offset != 0 && c.segs != []
    ensures var (m', c') := Compact(m, c);
            && MemOk(m') && |c'.segs| == |c.segs|
            && (forall i :: 0 <= i < |c'.segs| ==> Held(m', c'.segs[i]))
            && (forall i, j :: 0 <= i < j < |c'.segs| ==> c'.segs[i] != c'.segs[j])
  {
    var (m', c') := Compact(m, c);
    assert Held(m, c.segs[0]);
    forall i | 0 <= i < |c'.segs| ensures Held(m', c'.segs[i]) {
      assert Held(m, c.segs[i]);
      if i > 0 { assert c'.segs[i] == c.segs[i]; }
    }
    forall i, j | 0 <= i < j < |c'.segs| ensures c'.segs[i] != c'.segs[j] {
      assert Held(m, c.segs[i]) && Held(m, c.segs[j]);
      assert c'.segs[j] == c.segs[j];
    }
  }

  ghost predicate Disjoint(a: seq<SegId>, b: seq<SegId>) {
    forall id :: id in a ==> id !in b
  }

  /** Memory changed, but not the segments of `d`, which stay held outside the pool. */
  ghost predicate Undisturbed(m: Memory, m': Memory, d: Chain) {
    && MemOk(m') && |m.heap| <= |m'.heap|
    && forall i :: 0 <= i < |d.segs| ==>
        d.segs[i] < |m.heap| && m'.heap[d.segs[i]] == m.heap[d.segs[i]] && d.segs[i] !in m'.freeList
  }

  lemma {:induction false} UndisturbedView(m: Memory, m': Memory, d: Chain)
    requires ChainOk(m, d) && Undisturbed(m, m', d)
    ensures Becomes(m', d, View(m.heap, d))
  {
    FlatFrame(m.heap, m'.heap, d.segs);
    forall i | 0 <= i < |d.segs| ensures Held(m', d.segs[i]) { assert Held(m, d.segs[i]); }
  }

  /** Only use counts changed, and nothing a chain holds died. */
  lemma {:induction false} CountsOnly(m: Memory, m': Memory, c: Chain)
    requires ChainOk(m, c) && MemOk(m') && |m'.heap| == |m.heap| && m'.freeList == m.freeList
    requires forall id {:trigger m'.heap[id]} :: 0 <= id < |m.heap| ==>
               m'.heap[id].data == m.heap[id].data && m'.heap[id].size == m.heap[id].size
    requires forall i :: 0 <= i < |c.segs| ==> c.segs[i] < |m.heap| && m'.heap[c.segs[i]].uses > 0
    ensures Becomes(m', c, View(m.heap, c))
  {
    FlatFrame(m.heap, m'.heap, c.segs);
    forall i | 0 <= i < |c.segs| ensures Held(m', c.segs[i]) { assert Held(m, c.segs[i]); }
    if c.segs != [] { assert Held(m, c.segs[0]); }
  }

  lemma {:induction false} CompactLeavesOther(m: Memory, c: Chain, d: Chain)
    requires ChainOk(m, c) && ChainOk(m, d) && Disjoint(c.segs, d.segs)
    ensures var (m', c') := Compact(m, c); Becomes(m', d, View(m.heap, d)) && Disjoint(c'.segs, d.segs)
  {
    var (m', c') := Compact(m, c);
    CompactView(m, c);
    CompactFrame(m, c);
    forall i | 0 <= i < |d.segs|
      ensures d.segs[i] < |m.heap| && m'.heap[d.segs[i]] == m.heap[d.segs[i]] && d.segs[i] !in m'.freeList
    {
      assert Held(m, d.segs[i]);
      assert c.segs != [] ==> c.segs[0] in c.segs;
    }
    UndisturbedView(m, m', d);
  }

  function Emptied(c: Chain): Chain { c.(segs := [], offset := 0, total := 0) }

  /** Move all of `src` to the end of `dst`, compacting `src` first if it is partially
      consumed; `dst` inherits the recycle callback it lacks. */
  function Splice(m: Memory, dst: Chain, src: Chain): (Memory, Chain, Chain)
    requires ChainOk(m, dst) && ChainOk(m, src)
  {
    if src.total == 0 then (m, dst, src)
    else
      var (m', s) := Compact(m, src);
      (m', dst.(segs := dst.segs + s.segs, total := dst.total + s.total, recycles := dst.recycles || s.recycles),
       Emptied(s))
  }

  lemma {:induction false} EmptyChain(m: Memory, c: Chain)
    requires ChainOk(m, c)
    ensures c.total == 0 <==> c.segs == []
    ensures c.total == 0 <==> View(m.heap, c) == []
  {
    if c.segs != [] { FlatFirst(m, c); }
  }

  /** Splice is concatenation, and leaves the source empty. */
  lemma {:induction false} SpliceView(m: Memory, dst: Chain, src: Chain)
    requires ChainOk(m, dst) && ChainOk(m, src) && Disjoint(dst.segs, src.segs)
    ensures var (m', d, s) := Splice(m, dst, src);
            && Becomes(m', d, View(m.heap, dst) + View(m.heap, src)) && Becomes(m', s, [])
            && d.recycles == (dst.recycles || (src.recycles && View(m.heap, src) != []))
  {
    EmptyChain(m, src);
    if src.total == 0 {
      assert View(m.heap, dst) + [] == View(m.heap, dst);
    } else {
      CompactView(m, src);
      CompactLeavesOther(m, src, dst);
      var (m', s) := Compact(m, src);
      JoinView(m', dst, s);
      assert ChainOk(m', Emptied(s));
    }
  }

  lemma {:induction false} JoinView(m: Memory, dst: Chain, src: Chain)
    requires ChainOk(m, dst) && ChainOk(m, src) && Disjoint(src.segs, dst.segs) && src.offset == 0
    ensures Becomes(m, dst.(segs := dst.segs + src.segs, total := dst.total + src.total,
                            recycles := dst.recycles || src.recycles),
                    View(m.heap, dst) + View(m.heap, src))
  {
    var d := dst.(segs := dst.segs + src.segs, total := dst.total + src.total,
                  recycles := dst.recycles || src.recycles);
    FlatAppend(m.heap, dst.segs, src.segs);
    forall i | 0 <= i < |d.segs| ensures Held(m, d.segs[i]) {
      if i < |dst.segs| { assert Held(m, dst.segs[i]); } else { assert Held(m, src.segs[i - |dst.segs|]); }
    }
    forall i, j | 0 <= i < j < |d.segs| ensures d.segs[i] != d.segs[j] {
      assert j >= |dst.segs| ==> src.segs[j - |dst.segs|] in src.segs;
    }
    if dst.segs != [] { FlatFirst(m, dst); assert d.segs[0] == dst.segs[0]; }
    else if src.segs != [] { assert d.segs[0] == src.segs[0]; assert Held(m, src.segs[0]); }
    assert dst.offset <= |Flat(m.heap, dst.segs)|;
    DropOfConcat(Flat(m.heap, dst.segs), Flat(m.heap, src.segs), dst.offset);
  }

  /** CompactAndSplice: the destination is compacted first. */
  function CompactAndSplice(m: Memory, dst: Chain, src: Chain): (Memory, Chain, Chain)
    requires ChainOk(m, dst) && ChainOk(m, src) && Disjoint(dst.segs, src.segs)
  {
    CompactView(m, dst);
    CompactLeavesOther(m, dst, src);
    var (m', d) := Compact(m, dst);
    Splice(m', d, src)
  }

  /** Clear lets go of every segment. */
  function Clear(m: Memory, c: Chain): (r: (Memory, Chain))
    requires ChainOk(m, c)
    ensures Becomes(r.0, r.1, []) && r.1 == Emptied(c)
    decreases |c.segs|
  {
    if c.segs == [] then (m, Emptied(c)) else var (m', c') := PopFront(m, c); Clear(m', c')
  }

  // ---- Where segments come from and go -----------------------------------------------

  /** A segment given back by its only holder is the next one handed out, empty, while the pool
      has room; a shared one, or one too many, just loses a holder. */
  lemma {:induction false} ReleasedComesBack(m: Memory, id: SegId)
    requires MemOk(m) && id < |m.heap| && m.heap[id].uses > 0 && id !in m.freeList
    ensures var r := Release(m, id);
            if m.heap[id].uses == 1 && |m.freeList| < m.maxPool
            then
              && MemOk(r) && r.heap == m.heap && |r.freeList| == |m.freeList| + 1
              && var (a, next) := Allocate(r);
                 next == id && a.freeList == m.freeList && |a.heap| == |m.heap| && a.heap[id].size == 0
            else r.freeList == m.freeList && |r.heap| == |m.heap| && r.heap[id].uses == m.heap[id].uses - 1
  {
    var r := Release(m, id);
    if m.heap[id].uses == 1 && |m.freeList| < m.maxPool {
      assert MemOk(r);
      assert r.freeList[..|r.freeList| - 1] == m.freeList;
    }
  }

  /** Memory grows only when the pool is empty. */
  lemma {:induction false} AllocateGrows(m: Memory)
    requires MemOk(m)
    ensures var (a, id) := Allocate(m);
            |a.heap| == |m.heap| + (if m.freeList == [] then 1 else 0) && (m.freeList == [] <==> id == |m.heap|)
  {
  }

  /** What Clear lets go of goes to the pool when the chain recycles and nobody else holds it. */
  lemma {:induction false} ClearRecycles(m: Memory, c: Chain)
    requires ChainOk(m, c)
    ensures !c.recycles ==> Clear(m, c).0.freeList == m.freeList
    ensures (&& c.recycles && |m.freeList| + |c.segs| <= m.maxPool
             && forall i :: 0 <= i < |c.segs| ==> c.segs[i] < |m.heap| && m.heap[c.segs[i]].uses == 1) ==>
              Clear(m, c).0.freeList == m.freeList + c.segs
    decreases |c.segs|
  {
    if c.segs == [] {
      assert m.freeList + [] == m.freeList;
    } else {
      var (m', c') := PopFront(m, c);
      assert Held(m, c.segs[0]);
      ClearRecycles(m', c');
      assert c.segs == [c.segs[0]] + c.segs[1..];
      assert (m.freeList + [c.segs[0]]) + c.segs[1..] == m.freeList + c.segs;
    }
  }

  /** So does what Consume uses up. */
  lemma {:induction false} ConsumeRecycles(m: Memory, c: Chain, n: nat)
    requires ChainOk(m, c) && n >= c.total
    ensures Consume(m, c, n).0.freeList == Clear(m, c).0.freeList
    decreases |c.segs|
  {
    if c.segs != [] {
      FlatFirst(m, c);
      if n != 0 {
        var (m', c') := PopFront(m, c);
        ConsumeRecycles(m', c', n - FrontAvailable(m, c));
      }
    }
  }

  /** Compact takes a new segment only for a first one that is partly consumed and shared. */
  lemma {:induction false} CompactGrows(m: Memory, c: Chain)
    requires ChainOk(m, c)
    ensures |Compact(m, c).0.heap| == |m.heap| +
              (if c.segs != [] && c.offset != 0 && c.segs[0] < |m.heap| && m.heap[c.segs[0]].uses > 1 then 1 else 0)
  {
    if c.segs != [] { assert Held(m, c.segs[0]); }
  }

  /** AppendBytes fills its segments: as few as the bytes need. */
  lemma {:induction false} AppendBytesSegments(m: Memory, c: Chain, bytes: seq<byte>)
    requires ChainOk(m, c)
    ensures |AppendBytes(m, c, bytes).1.segs| == |c.segs| + (|bytes| + SEGMENT_SIZE - 1) / SEGMENT_SIZE
    decreases |bytes|
  {
    hide FillOne, ChainOk;
    if bytes != [] {
      var n := Min(|bytes|, SEGMENT_SIZE);
      var (m', c') := FillOne(m, c, bytes);
      FillOneSegment(m, c, bytes);
      AppendBytesSegments(m', c', bytes[n..]);
      OnePiece(|bytes|);
    }
  }

  lemma {:induction false} OnePiece(k: nat)
    requires k > 0
    ensures (k + SEGMENT_SIZE - 1) / SEGMENT_SIZE == 1 + (k - Min(k, SEGMENT_SIZE) + SEGMENT_SIZE - 1) / SEGMENT_SIZE
  {
    if k <= SEGMENT_SIZE {
      assert (k + 0x1_0000 - 1) / 0x1_0000 == 1;
    } else {
      assert (k + 0x1_0000 - 1) / 0x1_0000 == 1 + (k - 1) / 0x1_0000;
    }
  }

  lemma {:induction false} FillOneSegment(m: Memory, c: Chain, bytes: seq<byte>)
    requires ChainOk(m, c) && bytes != []
    ensures |FillOne(m, c, bytes).1.segs| == |c.segs| + 1
  {
    FillOneView(m, c, bytes);
    AllocateOk(m);
  }

  // ---- Limits ------------------------------------------------------------------------

  const SIZE_MODULUS: nat := 0x1_0000_0000_0000_0000

  /** `bytes > limit - total`, where the subtraction is on 64-bit size_t and wraps. */
  predicate WouldOverflow(total: nat, bytes: nat, limit: nat) {
    bytes > (limit - total) % SIZE_MODULUS
  }

  /** The subtraction form says what it means exactly while the chain is within the limit;
      past it, the wrap-around makes the guard let through any realistic amount. */
  lemma {:induction false} WouldOverflowMeaning(total: nat, bytes: nat, limit: nat)
    requires limit < SIZE_MODULUS && total < SIZE_MODULUS
    ensures total <= limit ==> (WouldOverflow(total, bytes, limit) <==> total + bytes > limit)
    ensures total > limit ==> (WouldOverflow(total, bytes, limit) <==> total + bytes > limit + SIZE_MODULUS)
  {
    if total > limit {
      assert (limit - total) % SIZE_MODULUS == limit - total + SIZE_MODULUS;
    }
  }
}
