/** Symbols of an instrument over date intervals, kept sorted and searched by bisection. */
module InstrumentMap {
  import opened Bytes
  import opened TradingDate

  /** `start` inclusive, `end` exclusive. */
  datatype Interval = Interval(start: Date, end: Date, symbol: string)

  predicate Contains(v: Interval, d: Date) { LessEqual(v.start, d) && Less(d, v.end) }

  predicate Empty(v: Interval) { !Less(v.start, v.end) }

  /** No date is in both. */
  predicate Disjoint(u: Interval, v: Interval) {
    Empty(u) || Empty(v) || LessEqual(u.end, v.start) || LessEqual(v.end, u.start)
  }

  predicate Sorted(s: seq<Interval>) { forall i, j :: 0 <= i < j < |s| ==> LessEqual(s[i].start, s[j].start) }

  /** The last interval of a sorted list that has started by the date. */
  function LastStarted(s: seq<Interval>, d: Date): Option<Interval> {
    if s == [] then None
    else if LessEqual(s[|s| - 1].start, d) then Some(s[|s| - 1])
    else LastStarted(s[..|s| - 1], d)
  }

  function Found(s: seq<Interval>, d: Date): Option<string> {
    var v := LastStarted(s, d);
    if v.Some? && Less(d, v.value.end) then Some(v.value.symbol) else None
  }

  /** What a linear search would say: a symbol only of an interval with the date in it, and none
      only when no interval has it. */
  ghost predicate Agrees(s: seq<Interval>, d: Date) {
    match Found(s, d)
    case Some(symbol) => exists i :: 0 <= i < |s| && Contains(s[i], d) && s[i].symbol == symbol
    case None => forall i :: 0 <= i < |s| ==> !Contains(s[i], d)
  }

  // ---- Bisection ---------------------------------------------------------------------

  /** std::upper_bound: the first interval that starts after the date. */
  method UpperBound(s: seq<Interval>, d: Date) returns (first: nat)
    requires Sorted(s)
    ensures first <= |s|
    ensures forall i :: 0 <= i < first ==> LessEqual(s[i].start, d)
    ensures forall i :: first <= i < |s| ==> Less(d, s[i].start)
  {
    first := 0;
    var count: nat := |s|;
    while count > 0
      invariant first + count <= |s|
      invariant forall i :: 0 <= i < first ==> LessEqual(s[i].start, d)
      invariant forall i :: first + count <= i < |s| ==> Less(d, s[i].start)
    {
      var step := count / 2;
      var mid := first + step;
      if Less(d, s[mid].start) {
        forall i | mid <= i < |s| ensures Less(d, s[i].start) {
          if mid < i { assert LessEqual(s[mid].start, s[i].start); }
        }
        count := step;
      } else {
        forall i | 0 <= i <= mid ensures LessEqual(s[i].start, d) {
          if i < mid { assert LessEqual(s[i].start, s[mid].start); }
        }
        first := mid + 1;
        count := count - step - 1;
      }
    }
  }

  lemma {:induction false} LastStartedAt(s: seq<Interval>, d: Date, k: nat)
    requires k <= |s| && forall i :: k <= i < |s| ==> Less(d, s[i].start)
    requires k > 0 ==> LessEqual(s[k - 1].start, d)
    ensures LastStarted(s, d) == if k == 0 then None else Some(s[k - 1])
    decreases |s|
  {
    if k < |s| {
      assert Less(d, s[|s| - 1].start);
      assert s[..|s| - 1][..k] == s[..k];
      LastStartedAt(s[..|s| - 1], d, k);
    }
  }

  lemma {:induction false} LastStartedIs(s: seq<Interval>, d: Date) returns (k: nat)
    ensures k <= |s| && (forall i :: k <= i < |s| ==> Less(d, s[i].start))
    ensures k > 0 ==> LessEqual(s[k - 1].start, d)
    ensures LastStarted(s, d) == if k == 0 then None else Some(s[k - 1])
  {
    if s == [] || LessEqual(s[|s| - 1].start, d) {
      k := |s|;
    } else {
      k := LastStartedIs(s[..|s| - 1], d);
      forall i | k <= i < |s| ensures Less(d, s[i].start) {
        if i < |s| - 1 { assert s[..|s| - 1][i] == s[i]; }
      }
    }
  }

  // ---- Sorting -----------------------------------------------------------------------

  /** std::sort by start date; the order of equal starts is left open. */
  method SortByStart(s: seq<Interval>) returns (r: seq<Interval>)
    ensures Sorted(r) && multiset(r) == multiset(s)
  {
    r := [];
    for n := 0 to |s|
      invariant Sorted(r) && multiset(r) == multiset(s[..n])
    {
      var k := UpperBound(r, s[n].start);
      assert s[..n + 1] == s[..n] + [s[n]];
      assert r[..k] + r[k..] == r;
      ghost var longer := r[..k] + [s[n]] + r[k..];
      InsertKeeps(r, k, s[n]);
      r := r[..k] + [s[n]] + r[k..];
    }
    assert s[..|s|] == s;
  }

  lemma {:induction false} InsertKeeps(r: seq<Interval>, k: nat, v: Interval)
    requires Sorted(r) && k <= |r|
    requires forall i :: 0 <= i < k ==> LessEqual(r[i].start, v.start)
    requires forall i :: k <= i < |r| ==> Less(v.start, r[i].start)
    ensures Sorted(r[..k] + [v] + r[k..])
  {
  }

  // ---- The map -----------------------------------------------------------------------

  /** The intervals a sequence of inserts gave one instrument. */
  function Given(log: seq<(nat, Interval)>, id: nat): seq<Interval> {
    if log == [] then []
    else
      var last := log[|log| - 1];
      Given(log[..|log| - 1], id) + (if last.0 == id then [last.1] else [])
  }

  /** No two different intervals share a date and none is empty. */
  ghost predicate Apart(s: seq<Interval>) {
    && (forall v :: v in s ==> !Empty(v))
    && (forall u, v :: u in s && v in s && u != v ==> Disjoint(u, v))
  }

  /** A list an instrument may have after these inserts. */
  ghost predicate Arranges(s: seq<Interval>, given: seq<Interval>) { Sorted(s) && multiset(s) == multiset(given) }

  /** An instrument's list is sorted and has what was inserted for it; without inserts it is
      unknown. */
  ghost predicate Holds(mappings: map<nat, seq<Interval>>, log: seq<(nat, Interval)>, id: nat) {
    if id in mappings then Arranges(mappings[id], Given(log, id))
    else Given(log, id) == []
  }

  lemma {:induction false} GivenAppend(log: seq<(nat, Interval)>, id: nat, v: Interval, other: nat)
    ensures Given(log + [(id, v)], other) == if other == id then Given(log, id) + [v] else Given(log, other)
  {
    assert (log + [(id, v)])[..|log|] == log;
  }

  lemma {:induction false} InsertHolds(mappings: map<nat, seq<Interval>>, log: seq<(nat, Interval)>, id: nat,
                                       v: Interval,
                                       sorted: seq<Interval>, other: nat)
    requires Holds(mappings, log, id) && Holds(mappings, log, other) && Sorted(sorted)
    requires multiset(sorted) == multiset((if id in mappings then mappings[id] else []) + [v])
    ensures Holds(mappings[id := sorted], log + [(id, v)], other)
  {
    hide Given, Sorted;
    GivenAppend(log, id, v, other);
  }

  class InstrumentMap {
    var mappings: map<nat, seq<Interval>>
    ghost var log: seq<(nat, Interval)>

    ghost predicate Valid()
      reads this
    {
      forall id: nat :: Holds(mappings, log, id)
    }

    constructor ()
      ensures Valid() && log == [] && mappings == map[]
    {
      mappings, log := map[], [];
    }

    method Insert(id: nat, symbol: string, start: Date, end: Date)
      requires Valid() && LessEqual(start, end)
      modifies this
      ensures Valid() && log == old(log) + [(id, Interval(start, end, symbol))]
    {
      hide Holds, Sorted;
      var v := Interval(start, end, symbol);
      var intervals := SortByStart((if id in mappings then mappings[id] else []) + [v]);
      ghost var was, before := mappings, log;
      mappings := mappings[id := intervals];
      log := log + [(id, v)];
      forall other: nat ensures Holds(mappings, log, other) {
        assert Holds(was, before, id) && Holds(was, before, other);
        InsertHolds(was, before, id, v, intervals, other);
      }
    }

    /** `stored` is what the storage would answer; it is asked only about unknown instruments. */
    method Resolve(id: nat, d: Date, stored: Option<string>) returns (symbol: Option<string>)
      requires Valid()
      ensures symbol == if id in mappings then Found(mappings[id], d) else stored
      ensures id in mappings && Apart(Given(log, id)) ==>
                forall x :: symbol == Some(x) <==> exists v :: v in Given(log, id) && Contains(v, d) && v.symbol == x
    {
      assert Holds(mappings, log, id);
      if id !in mappings { return stored; }
      var intervals := mappings[id];
      var k := UpperBound(intervals, d);
      LastStartedAt(intervals, d, k);
      if k == 0 {
        symbol := None;
      } else if LessEqual(intervals[k - 1].start, d) && Less(d, intervals[k - 1].end) {
        symbol := Some(intervals[k - 1].symbol);
      } else {
        symbol := None;
      }
      if Apart(Given(log, id)) { FindsWhatWasGiven(intervals, Given(log, id), d); }
    }
  }

  // ---- Agreement with linear search --------------------------------------------------

  /** Every non-empty interval is over before any later one starts. */
  ghost predicate Consecutive(s: seq<Interval>) {
    forall i, j :: 0 <= i < j < |s| && !Empty(s[i]) && s[i] != s[j] ==> LessEqual(s[i].end, s[j].start)
  }

  lemma {:induction false} ApartIsConsecutive(s: seq<Interval>)
    requires Sorted(s) && Apart(s)
    ensures Consecutive(s)
  {
    forall i, j | 0 <= i < j < |s| && s[i] != s[j] ensures LessEqual(s[i].end, s[j].start) {
      assert s[i] in s && s[j] in s && Disjoint(s[i], s[j]) && LessEqual(s[i].start, s[j].start);
    }
  }

  lemma {:induction false} ConsecutiveAgrees(s: seq<Interval>, d: Date)
    requires Sorted(s) && Consecutive(s)
    ensures Agrees(s, d)
    ensures forall i :: 0 <= i < |s| && Contains(s[i], d) ==> LastStarted(s, d) == Some(s[i])
  {
    var k := LastStartedIs(s, d);
    forall i | 0 <= i < |s| && Contains(s[i], d) ensures LastStarted(s, d) == Some(s[i]) {
      assert i < k;
      var v, last := s[i], s[k - 1];
      assert i == k - 1 || v == last || LessEqual(v.end, last.start);
    }
  }

  lemma {:induction false} FindsWhatWasGiven(s: seq<Interval>, given: seq<Interval>, d: Date)
    requires Sorted(s) && Apart(given) && multiset(s) == multiset(given)
    ensures forall x :: Found(s, d) == Some(x) <==> exists v :: v in given && Contains(v, d) && v.symbol == x
  {
    forall v ensures v in s <==> v in given {
      assert v in s <==> v in multiset(s);
      assert v in given <==> v in multiset(given);
    }
    ApartIsConsecutive(s);
    ConsecutiveAgrees(s, d);
    forall v | v in given && Contains(v, d) ensures Found(s, d) == Some(v.symbol) {
      var i :| 0 <= i < |s| && s[i] == v;
      assert Contains(s[i], d);
    }
    if Found(s, d).Some? {
      var i :| 0 <= i < |s| && Contains(s[i], d) && s[i].symbol == Found(s, d).value;
      assert s[i] in given;
    }
  }

  /** For a sorted list without overlaps the search is right about every date exactly when no
      empty interval sits behind a longer one that it falls into. Insert allows empty intervals,
      so this can happen. */
  lemma {:induction false} ResolveExactly(s: seq<Interval>)
    requires Sorted(s) && forall i, j :: 0 <= i < j < |s| ==> Disjoint(s[i], s[j])
    ensures (forall d :: Agrees(s, d))
        <==> forall i, j :: 0 <= i < j < |s| && Empty(s[j]) ==> !Contains(s[i], s[j].start)
  {
    if forall i, j :: 0 <= i < j < |s| && Empty(s[j]) ==> !Contains(s[i], s[j].start) {
      forall i, j | 0 <= i < j < |s| && !Empty(s[i]) && s[i] != s[j] ensures LessEqual(s[i].end, s[j].start) {
        assert Disjoint(s[i], s[j]) && LessEqual(s[i].start, s[j].start);
      }
      forall d ensures Agrees(s, d) { ConsecutiveAgrees(s, d); }
    }
    if i, j :| 0 <= i < j < |s| && Empty(s[j]) && Contains(s[i], s[j].start) {
      HiddenByEmpty(s, i, j);
    }
  }

  lemma {:induction false} HiddenByEmpty(s: seq<Interval>, i: nat, j: nat)
    requires Sorted(s) && forall i, j :: 0 <= i < j < |s| ==> Disjoint(s[i], s[j])
    requires i < j < |s| && Empty(s[j]) && Contains(s[i], s[j].start)
    ensures !Agrees(s, s[j].start)
  {
    var d := s[j].start;
    var k := LastStartedIs(s, d);
    assert k > j;
    var last := s[k - 1];
    if j < k - 1 {
      assert LessEqual(s[j].start, last.start);
      assert last.start == d;
      assert Disjoint(s[i], last) && LessEqual(s[i].start, last.start);
    }
    assert Empty(last);
  }

  // ---- What a caller of Insert can tell ----------------------------------------------

  ghost predicate PairwiseDisjoint(s: seq<Interval>) { forall i, j :: 0 <= i < j < |s| ==> Disjoint(s[i], s[j]) }

  ghost predicate Right(s: seq<Interval>) { forall d :: Agrees(s, d) }

  /** Whatever order the sort gives equal starts, Resolve is right about every date if and only if
      no inserted interval has the start of an empty one in it. */
  lemma {:induction false} RightInEveryOrder(given: seq<Interval>)
    requires PairwiseDisjoint(given)
    ensures (forall s: seq<Interval> :: Arranges(s, given) ==> Right(s))
        <==> forall u, v :: u in given && v in given && Empty(v) ==> !Contains(u, v.start)
  {
    if forall u, v :: u in given && v in given && Empty(v) ==> !Contains(u, v.start) {
      forall s: seq<Interval> | Arranges(s, given) ensures Right(s) {
        SameMembers(s, given);
        StaysDisjoint(s, given);
        ResolveExactly(s);
        forall i, j | 0 <= i < j < |s| && Empty(s[j]) ensures !Contains(s[i], s[j].start) {
          assert s[i] in given && s[j] in given;
        }
      }
    }
    if u, v :| u in given && v in given && Empty(v) && Contains(u, v.start) {
      var s := Hiding(given, u, v);
    }
  }

  /** In some order it is right if and only if no empty interval lies strictly inside another. */
  lemma {:induction false} RightInSomeOrder(given: seq<Interval>)
    requires PairwiseDisjoint(given)
    ensures (exists s: seq<Interval> :: Arranges(s, given) && Right(s))
        <==> forall u, v :: u in given && v in given && Empty(v) && Less(u.start, v.start) ==> !Contains(u, v.start)
  {
    if forall u, v :: u in given && v in given && Empty(v) && Less(u.start, v.start) ==> !Contains(u, v.start) {
      var s := EmptyFirst(given);
      SameMembers(s, given);
      StaysDisjoint(s, given);
      RankedIsSorted(s);
      ResolveExactly(s);
      assert Arranges(s, given);
    }
    if s: seq<Interval> :| Arranges(s, given) && Right(s) {
      SameMembers(s, given);
      StaysDisjoint(s, given);
      forall u, v | u in given && v in given && Empty(v) && Less(u.start, v.start) ensures !Contains(u, v.start) {
        if Contains(u, v.start) {
          var i :| 0 <= i < |s| && s[i] == u;
          var j :| 0 <= j < |s| && s[j] == v;
          assert j <= i ==> LessEqual(s[j].start, s[i].start);
          HiddenByEmpty(s, i, j);
        }
      }
    }
  }

  lemma {:induction false} SameMembers(s: seq<Interval>, given: seq<Interval>)
    requires multiset(s) == multiset(given)
    ensures forall v :: v in s <==> v in given
  {
    forall v ensures v in s <==> v in given {
      assert v in s <==> v in multiset(s);
      assert v in given <==> v in multiset(given);
    }
  }

  /** An order of the inserts in which the empty `v` hides `u`. */
  lemma {:induction false} Hiding(given: seq<Interval>, u: Interval, v: Interval) returns (s: seq<Interval>)
    requires PairwiseDisjoint(given) && u in given && v in given && Empty(v) && Contains(u, v.start)
    ensures Arranges(s, given) && !Right(s)
  {
    s := EmptyFirst(given);
    RankedIsSorted(s);
    SameMembers(s, given);
    var i :| 0 <= i < |s| && s[i] == u;
    var j :| 0 <= j < |s| && s[j] == v;
    if j < i {
      assert LessEqual(s[j].start, s[i].start);
      SwapKeeps(s, j, i);
      s := s[j := u][i := v];
      i, j := j, i;
    }
    StaysDisjoint(s, given);
    HiddenByEmpty(s, i, j);
  }

  lemma {:induction false} SwapKeeps(s: seq<Interval>, i: nat, j: nat)
    requires Sorted(s) && i < j < |s| && s[i].start == s[j].start
    ensures var t := s[i := s[j]][j := s[i]]; Sorted(t) && multiset(t) == multiset(s)
  {
    var t := s[i := s[j]][j := s[i]];
    forall a, b | 0 <= a < b < |t| ensures LessEqual(t[a].start, t[b].start) {
      assert t[a].start == s[a].start && t[b].start == s[b].start;
    }
  }

  // Sorting with the empty interval first among equal starts.

  predicate Before(u: Interval, v: Interval) {
    Less(u.start, v.start) || (u.start == v.start && (Empty(u) || !Empty(v)))
  }

  ghost predicate Ranked(s: seq<Interval>) { forall i, j :: 0 <= i < j < |s| ==> Before(s[i], s[j]) }

  lemma {:induction false} RankedIsSorted(s: seq<Interval>)
    requires Ranked(s)
    ensures Sorted(s)
    ensures forall i, j :: 0 <= i < j < |s| && Empty(s[j]) && Contains(s[i], s[j].start) ==>
              Less(s[i].start, s[j].start)
  {
  }

  lemma {:induction false} EmptyFirst(given: seq<Interval>) returns (s: seq<Interval>)
    ensures Ranked(s) && Sorted(s) && multiset(s) == multiset(given)
  {
    if given == [] {
      s := [];
    } else {
      var front, v := given[..|given| - 1], given[|given| - 1];
      s := EmptyFirst(front);
      s := Placed(s, v);
      assert given == front + [v];
      RankedIsSorted(s);
    }
  }

  lemma {:induction false} Placed(s: seq<Interval>, v: Interval) returns (t: seq<Interval>)
    requires Ranked(s)
    ensures Ranked(t) && multiset(t) == multiset(s) + multiset{v}
  {
    if s == [] || Before(s[|s| - 1], v) {
      t := s + [v];
      forall i | 0 <= i < |s| ensures Before(s[i], v) {
        if i < |s| - 1 { assert Before(s[i], s[|s| - 1]); }
      }
    } else {
      var front, last := s[..|s| - 1], s[|s| - 1];
      var more := Placed(front, v);
      t := more + [last];
      assert s == front + [last];
      forall i | 0 <= i < |more| ensures Before(more[i], last) {
        assert more[i] in multiset(more);
        if more[i] != v {
          assert more[i] in front;
        }
      }
    }
  }

  lemma {:induction false} StaysDisjoint(s: seq<Interval>, given: seq<Interval>)
    requires multiset(s) == multiset(given) && PairwiseDisjoint(given)
    ensures PairwiseDisjoint(s)
  {
    forall i, j | 0 <= i < j < |s| ensures Disjoint(s[i], s[j]) {
      SameMembers(s, given);
      if s[i] == s[j] {
        TwoCount(s, i, j);
        var a, b := CountTwo(given, s[i]);
        assert Disjoint(given[a], given[b]);
      } else {
        assert s[i] in given && s[j] in given;
        var a :| 0 <= a < |given| && given[a] == s[i];
        var b :| 0 <= b < |given| && given[b] == s[j];
        assert if a < b then Disjoint(given[a], given[b]) else Disjoint(given[b], given[a]);
      }
    }
  }

  lemma {:induction false} TwoCount(s: seq<Interval>, i: nat, j: nat)
    requires i < j < |s| && s[i] == s[j]
    ensures multiset(s)[s[i]] >= 2
  {
    assert s == s[..j] + [s[j]] + s[j + 1..];
    assert s[i] == s[..j][i] && s[..j][i] in multiset(s[..j]);
  }

  lemma {:induction false} CountTwo(s: seq<Interval>, v: Interval) returns (i: nat, j: nat)
    requires multiset(s)[v] >= 2
    ensures i < j < |s| && s[i] == s[j] == v
  {
    assert v in multiset(s);
    var last := s[|s| - 1];
    assert s == s[..|s| - 1] + [last];
    if last == v {
      j := |s| - 1;
      assert v in multiset(s[..j]);
      i :| 0 <= i < j && s[..j][i] == v;
    } else {
      i, j := CountTwo(s[..|s| - 1], v);
    }
  }
}
