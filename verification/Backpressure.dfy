/** Backpressure and lifecycle of a pipeline of any length, on values: stage 0 is the head, and
    stage i + 1's upstream is stage i. One Stage holds the fields of one PipelineComponent, and
    the history that says what the counts mean. */
module Backpressure {

  /** suspendCount, donePending, processing (guards alive), closePending, closeScheduled, closed,
      finalized: the component's own fields. hasDefer: a defer callback was set.
        external     holds taken by code outside the pipeline and not released
        holds        this stage's Suspend calls on its upstream minus its Resume calls
        resuming     Resume frames past the 1-to-0 step that have not yet settled with upstream
        leaks        such frames that ended without resuming upstream
        lateReleases one entry per release of the last hold: was the stage closed already?
        resuspensions  one entry per ProcessPending of a Resume: was the stage suspended again?
        queued       a deferred DoClose waits in the event loop
        doCloses, terminals, resets   DoClose starts, terminal signals, ResetFinalized calls
        closedUnderGuard  a DoClose started while a guard was alive */
  datatype Stage = Stage(suspendCount: nat, donePending: bool, processing: nat, closePending: bool,
                         closeScheduled: bool, closed: bool, finalized: bool, hasDefer: bool,
                         external: nat, holds: nat, resuming: nat, leaks: nat,
                         lateReleases: seq<bool>, resuspensions: seq<bool>,
                         queued: bool, doCloses: nat, terminals: nat, resets: nat, closedUnderGuard: bool)

  type Pipe = seq<Stage>

  function Fresh(hasDefer: bool): Stage {
    Stage(0, false, 0, false, false, false, false, hasDefer, 0, 0, 0, 0, [], [], false, 0, 0, 0, false)
  }

  function One(b: bool): nat { if b then 1 else 0 }

  /** Holds on stage `i` that its downstream neighbour has taken. */
  function FromDownstream(w: Pipe, i: nat): nat {
    if i + 1 < |w| then w[i + 1].holds else 0
  }

  // ---- The invariant -----------------------------------------------------------------

  function Trues(s: seq<bool>): nat { if s == [] then 0 else Trues(s[..|s| - 1]) + One(s[|s| - 1]) }

  lemma {:induction false} TruesAppend(s: seq<bool>, b: bool)
    ensures Trues(s + [b]) == Trues(s) + One(b)
  {
    assert (s + [b])[..|s|] == s;
  }

  lemma {:induction false} NoTrues(s: seq<bool>)
    ensures Trues(s) == 0 <==> true !in s
  {
    if s != [] {
      NoTrues(s[..|s| - 1]);
      assert s == s[..|s| - 1] + [s[|s| - 1]];
    }
  }

  /** A stage has one hold on its upstream for being suspended, one for every Resume frame in
      flight, and one for every leak: exactly. It leaks when its last hold is released after a
      close, and when ProcessPending ends with the stage suspended. */
  ghost predicate HoldsExact(w: Pipe, i: nat)
    requires i < |w|
  {
    i > 0 ==>
      && w[i].holds == w[i].resuming + One(w[i].suspendCount > 0) + w[i].leaks
      && w[i].leaks == Trues(w[i].lateReleases) + Trues(w[i].resuspensions)
  }

  /** A stage's count is the holds of the outside and of its downstream neighbour; stage `k`'s
      is off by `extra` while one of them is being taken or released. */
  ghost predicate CountExact(w: Pipe, i: nat, k: nat, extra: int)
    requires i < |w|
  {
    w[i].suspendCount + (if i == k then extra else 0) == w[i].external + FromDownstream(w, i)
  }

  ghost predicate Closing(s: Stage) {
    && (s.closed <==> s.closePending || s.closeScheduled)
    && !(s.closePending && s.closeScheduled)
    && (s.closePending ==> s.processing > 0)
    && (s.closeScheduled ==> s.doCloses + One(s.queued) == 1)
    && (!s.closeScheduled ==> s.doCloses == 0 && !s.queued)
    && (s.queued ==> s.hasDefer)
    && !s.closedUnderGuard
  }

  ghost predicate Signalling(s: Stage) {
    s.terminals <= s.resets + One(s.finalized)
  }

  /** The invariant, except that stage `k`'s count is still to change by `extra`. */
  ghost predicate InvBut(w: Pipe, k: nat, extra: int) {
    && (forall i {:trigger HoldsExact(w, i)} :: 0 <= i < |w| ==> HoldsExact(w, i))
    && (forall i {:trigger CountExact(w, i, k, extra)} :: 0 <= i < |w| ==> CountExact(w, i, k, extra))
    && (forall i {:trigger w[i]} :: 0 <= i < |w| ==> Closing(w[i]) && Signalling(w[i]))
  }

  ghost predicate Inv(w: Pipe) { InvBut(w, 0, 0) }

  /** What any call, with everything it calls back into, may do: frames are matched, and what
      has happened stays so. */
  ghost predicate Later(a: Pipe, b: Pipe) {
    |a| == |b| && forall i {:trigger b[i]} :: 0 <= i < |a| ==> LaterStage(a[i], b[i])
  }

  /** With a defer callback no call starts DoClose: that is left to the event loop. */
  ghost predicate LaterStage(s: Stage, t: Stage) {
    SinceStage(s, t) && (s.hasDefer ==> t.doCloses == s.doCloses)
  }

  ghost predicate SinceStage(s: Stage, t: Stage) {
    && t.processing == s.processing && t.resuming == s.resuming && t.hasDefer == s.hasDefer
    && s.lateReleases <= t.lateReleases && s.resuspensions <= t.resuspensions
    && s.leaks <= t.leaks && s.doCloses <= t.doCloses && s.terminals <= t.terminals && s.resets <= t.resets
    && (s.closed ==> t.closed) && (s.closeScheduled ==> t.closeScheduled)
  }

  /** The same over the event loop's turns. */
  ghost predicate Since(a: Pipe, b: Pipe) {
    |a| == |b| && forall i {:trigger b[i]} :: 0 <= i < |a| ==> SinceStage(a[i], b[i])
  }

  lemma {:induction false} SinceTrans(a: Pipe, b: Pipe, c: Pipe)
    requires Since(a, b) && (Since(b, c) || Later(b, c))
    ensures Since(a, c)
  {
    forall i | 0 <= i < |a| ensures SinceStage(a[i], c[i]) {
      assert SinceStage(a[i], b[i]) && SinceStage(b[i], c[i]);
    }
  }

  lemma {:induction false} LaterTrans(a: Pipe, b: Pipe, c: Pipe)
    requires Later(a, b) && Later(b, c)
    ensures Later(a, c)
  {
    forall i | 0 <= i < |a| ensures LaterStage(a[i], c[i]) {
      assert LaterStage(a[i], b[i]);
    }
  }

  lemma {:induction false} FreshInv(w: Pipe)
    requires forall i {:trigger w[i]} :: 0 <= i < |w| ==> w[i] == Fresh(w[i].hasDefer)
    ensures Inv(w) && AtTop(w)
  {
    forall i | 0 <= i < |w| ensures HoldsExact(w, i) && CountExact(w, i, 0, 0) {
      assert w[i] == Fresh(w[i].hasDefer);
      if i + 1 < |w| { assert w[i + 1] == Fresh(w[i + 1].hasDefer); }
    }
  }

  /** A change confined to stage `k` that does not touch its counts. */
  lemma {:induction false} LocalChange(w: Pipe, k: nat, s: Stage, m: nat, extra: int)
    requires k < |w| && InvBut(w, m, extra) && Closing(s) && Signalling(s)
    requires s.suspendCount == w[k].suspendCount && s.external == w[k].external && s.holds == w[k].holds
    requires s.resuming == w[k].resuming && s.leaks == w[k].leaks
    requires s.lateReleases == w[k].lateReleases && s.resuspensions == w[k].resuspensions
    ensures InvBut(w[k := s], m, extra)
  {
    hide Trues;
    var t := w[k := s];
    forall i | 0 <= i < |t| ensures HoldsExact(t, i) && CountExact(t, i, m, extra) {
      assert HoldsExact(w, i) && CountExact(w, i, m, extra);
    }
  }

  // ---- Suspend -----------------------------------------------------------------------

  /** Suspend on stage `k`: count up, and on the first hold take one on the upstream. */
  function Suspend(w: Pipe, k: nat): (t: Pipe)
    requires k < |w|
    ensures |t| == |w|
    decreases k
  {
    if w[k].suspendCount == 0 && k > 0 then Suspend(HoldTaken(w, k), k - 1) else CountedUp(w, k)
  }

  function CountedUp(w: Pipe, k: nat): Pipe
    requires k < |w|
  {
    w[k := w[k].(suspendCount := w[k].suspendCount + 1)]
  }

  /** The count goes up, and the stage takes a hold on its upstream. */
  function HoldTaken(w: Pipe, k: nat): Pipe
    requires k < |w|
  {
    w[k := w[k].(suspendCount := w[k].suspendCount + 1, holds := w[k].holds + 1)]
  }

  lemma {:induction false} HoldTakenKeeps(w: Pipe, k: nat, up: nat)
    requires k < |w| && InvBut(w, k, 1) && w[k].suspendCount == 0 && up + 1 == k
    ensures InvBut(HoldTaken(w, k), up, 1) && Later(w, HoldTaken(w, k))
  {
    hide Trues;
    var t := HoldTaken(w, k);
    forall i | 0 <= i < |t| ensures HoldsExact(t, i) && CountExact(t, i, up, 1) {
      assert HoldsExact(w, i) && CountExact(w, i, k, 1);
    }
  }

  lemma {:induction false} CountedUpKeeps(w: Pipe, k: nat)
    requires k < |w| && InvBut(w, k, 1) && (w[k].suspendCount > 0 || k == 0)
    ensures Inv(CountedUp(w, k)) && Later(w, CountedUp(w, k))
  {
    hide Trues;
    var t := CountedUp(w, k);
    forall i | 0 <= i < |t| ensures HoldsExact(t, i) && CountExact(t, i, 0, 0) {
      assert HoldsExact(w, i) && CountExact(w, i, k, 1);
    }
  }

  lemma {:induction false} SuspendKeeps(w: Pipe, k: nat)
    requires k < |w| && InvBut(w, k, 1)
    ensures Inv(Suspend(w, k)) && Later(w, Suspend(w, k))
    decreases k
  {
    if w[k].suspendCount == 0 && k > 0 {
      HoldTakenKeeps(w, k, k - 1);
      SuspendKeeps(HoldTaken(w, k), k - 1);
      LaterTrans(w, HoldTaken(w, k), Suspend(w, k));
    } else {
      CountedUpKeeps(w, k);
    }
  }

  /** Outside code takes a hold on stage `k`. */
  lemma {:induction false} TakeHold(w: Pipe, k: nat)
    requires k < |w| && Inv(w)
    ensures InvBut(w[k := w[k].(external := w[k].external + 1)], k, 1)
  {
    hide Trues;
    var t := w[k := w[k].(external := w[k].external + 1)];
    forall i | 0 <= i < |t| ensures HoldsExact(t, i) && CountExact(t, i, k, 1) {
      assert HoldsExact(w, i) && CountExact(w, i, 0, 0);
    }
  }

  /** Outside code lets one of its holds on stage `k` go. */
  lemma {:induction false} LetGo(w: Pipe, k: nat)
    requires k < |w| && Inv(w) && w[k].external > 0
    ensures InvBut(w[k := w[k].(external := w[k].external - 1)], k, -1)
  {
    hide Trues;
    var t := w[k := w[k].(external := w[k].external - 1)];
    forall i | 0 <= i < |t| ensures HoldsExact(t, i) && CountExact(t, i, k, -1) {
      assert HoldsExact(w, i) && CountExact(w, i, 0, 0);
    }
  }

  // ---- Resume, step by step ----------------------------------------------------------

  /** The decrement, of a stage that is open or still held. It never finds the count at zero. */
  function Decremented(w: Pipe, k: nat): Pipe
    requires k < |w| && w[k].suspendCount > 0
  {
    w[k := w[k].(suspendCount := w[k].suspendCount - 1, resuming := w[k].resuming + One(w[k].suspendCount == 1),
                 lateReleases := w[k].lateReleases + (if w[k].suspendCount == 1 then [false] else []))]
  }

  /** The last hold on a closed stage is released: its hold on upstream is never given back. The
      head has no upstream to leak a hold on. */
  function LateReleased(w: Pipe, k: nat): Pipe
    requires k < |w| && w[k].suspendCount == 1
  {
    w[k := w[k].(suspendCount := 0, leaks := w[k].leaks + One(k > 0), lateReleases := w[k].lateReleases + [true])]
  }

  lemma {:induction false} CountPositive(w: Pipe, k: nat)
    requires k < |w| && InvBut(w, k, -1)
    ensures w[k].suspendCount > 0
  {
    assert CountExact(w, k, k, -1);
  }

  lemma {:induction false} DecrementKeeps(w: Pipe, k: nat)
    requires k < |w| && InvBut(w, k, -1) && w[k].suspendCount > 0
    ensures Inv(Decremented(w, k))
  {
    hide Trues;
    TruesAppend(w[k].lateReleases, false);
    var t := Decremented(w, k);
    assert w[k].lateReleases + [] == w[k].lateReleases;
    forall i | 0 <= i < |t| ensures HoldsExact(t, i) && CountExact(t, i, 0, 0) {
      assert HoldsExact(w, i) && CountExact(w, i, k, -1);
    }
  }

  lemma {:induction false} LateReleaseKeeps(w: Pipe, k: nat)
    requires k < |w| && InvBut(w, k, -1) && w[k].suspendCount == 1
    ensures Inv(LateReleased(w, k)) && Later(w, LateReleased(w, k))
  {
    hide Trues;
    TruesAppend(w[k].lateReleases, true);
    var t := LateReleased(w, k);
    forall i | 0 <= i < |t| ensures HoldsExact(t, i) && CountExact(t, i, 0, 0) {
      assert HoldsExact(w, i) && CountExact(w, i, k, -1);
    }
  }

  /** Not suspended again: the frame gives its hold back, and upstream's count must follow. */
  function GaveBack(w: Pipe, k: nat): Pipe
    requires 0 < k < |w| && w[k].holds > 0 && w[k].resuming > 0 && w[k].suspendCount == 0
  {
    w[k := w[k].(holds := w[k].holds - 1, resuming := w[k].resuming - 1, resuspensions := w[k].resuspensions + [false])]
  }

  lemma {:induction false} GiveBackKeeps(w: Pipe, k: nat)
    requires 0 < k < |w| && Inv(w) && w[k].resuming > 0 && w[k].suspendCount == 0
    ensures w[k].holds > 0 && InvBut(GaveBack(w, k), k - 1, -1)
  {
    hide Trues;
    assert HoldsExact(w, k);
    TruesAppend(w[k].resuspensions, false);
    var t := GaveBack(w, k);
    var up: nat := k - 1;
    forall i | 0 <= i < |t| ensures HoldsExact(t, i) && CountExact(t, i, up, -1) {
      assert HoldsExact(w, i) && CountExact(w, i, 0, 0);
    }
  }

  /** Suspended again: the frame ends, and its hold on upstream is never given back. The head just
      ends. */
  function Leaked(w: Pipe, k: nat): Pipe
    requires k < |w| && w[k].resuming > 0
  {
    w[k := w[k].(resuming := w[k].resuming - 1, leaks := w[k].leaks + One(k > 0),
                 resuspensions := w[k].resuspensions + [w[k].suspendCount > 0])]
  }

  lemma {:induction false} LeakKeeps(w: Pipe, k: nat)
    requires k < |w| && Inv(w) && w[k].resuming > 0 && (k == 0 || w[k].suspendCount > 0)
    ensures Inv(Leaked(w, k))
  {
    hide Trues;
    TruesAppend(w[k].resuspensions, w[k].suspendCount > 0);
    var t := Leaked(w, k);
    forall i | 0 <= i < |t| ensures HoldsExact(t, i) && CountExact(t, i, 0, 0) {
      assert HoldsExact(w, i) && CountExact(w, i, 0, 0);
    }
  }

  // ---- Resume as a whole --------------------------------------------------------------

  function GuardOpened(w: Pipe, k: nat): Pipe
    requires k < |w|
  {
    w[k := w[k].(processing := w[k].processing + 1)]
  }

  function GuardClosed(w: Pipe, k: nat): Pipe
    requires k < |w|
  {
    if w[k].processing > 0 then w[k := GuardEnded(w[k])] else w
  }

  /** A deferred OnDone is taken up, unless the stage is suspended. */
  function DoneTaken(w: Pipe, k: nat): Pipe
    requires k < |w|
  {
    if w[k].donePending && w[k].suspendCount == 0 then w[k := w[k].(donePending := false)] else w
  }

  /** What foreign code does inside ProcessPending: nothing, or it takes a hold on a stage. */
  datatype Reaction = Quiet | Holds(i: nat)

  function Reacted(w: Pipe, r: Reaction): (t: Pipe)
    ensures |t| == |w|
  {
    if r.Holds? && r.i < |w| then Suspend(w[r.i := w[r.i].(external := w[r.i].external + 1)], r.i) else w
  }

  /** Resume on stage `k`: the count goes down, and the last hold is passed on towards the head. */
  function ResumeWith(w: Pipe, k: nat, r: Reaction): (t: Pipe)
    requires k < |w|
    ensures |t| == |w|
    decreases k, 1
  {
    if w[k].suspendCount == 0 then w
    else if w[k].suspendCount > 1 then Decremented(w, k)
    else if w[k].closed then DoneTaken(LateReleased(w, k), k)
    else GuardClosed(DoneTaken(Settled(Reacted(GuardOpened(Decremented(w, k), k), r), k), k), k)
  }

  /** Resume when no foreign code reacts. */
  function Resume(w: Pipe, k: nat): (t: Pipe)
    requires k < |w|
    ensures |t| == |w|
    decreases k, 2
  {
    ResumeWith(w, k, Quiet)
  }

  function Settled(w: Pipe, k: nat): (t: Pipe)
    requires k < |w|
    ensures |t| == |w|
    decreases k, 0
  {
    if w[k].resuming == 0 then w
    else if w[k].suspendCount == 0 && k > 0 && w[k].holds > 0 then Resume(GaveBack(w, k), k - 1)
    else Leaked(w, k)
  }

  lemma {:induction false} ResumeParts(w: Pipe, k: nat, r: Reaction)
    requires k < |w| && w[k].suspendCount == 1 && !w[k].closed
    ensures ResumeWith(w, k, r)
         == GuardClosed(DoneTaken(Settled(Reacted(GuardOpened(Decremented(w, k), k), r), k), k), k)
  {
  }

  /** Suspend touches nothing downstream of its stage. */
  lemma {:induction false} SuspendBelow(w: Pipe, j: nat, k: nat, s: Stage)
    requires j < k < |w|
    ensures Suspend(w, j)[k] == w[k] && Suspend(w[k := s], j) == Suspend(w, j)[k := s]
    decreases j
  {
    if w[j].suspendCount == 0 && j > 0 {
      SuspendBelow(HoldTaken(w, j), j - 1, k, s);
      assert HoldTaken(w[k := s], j) == HoldTaken(w, j)[k := s];
    } else {
      assert CountedUp(w[k := s], j) == CountedUp(w, j)[k := s];
    }
  }

  /** No stage from the head to `k` is closing or has an OnDone deferred. */
  ghost predicate Undisturbed(w: Pipe, k: nat)
    requires k < |w|
  {
    forall i {:trigger w[i]} :: 0 <= i <= k ==> !w[i].closed && !w[i].closePending && !w[i].donePending
  }

  /** The same moment but for what the logs of releases and resuspensions say. */
  ghost predicate SameButLogs(w: Pipe, t: Pipe) {
    |t| == |w| && forall i {:trigger t[i]} :: 0 <= i < |w| ==> SameStage(w[i], t[i])
  }

  ghost predicate SameStage(s: Stage, t: Stage) {
    t == s.(lateReleases := t.lateReleases, resuspensions := t.resuspensions)
  }

  /** Resume undoes Suspend on every stage up to the head, when no foreign code reacts. */
  lemma {:induction false} ResumeUndoesSuspend(w: Pipe, k: nat)
    requires k < |w| && Undisturbed(w, k)
    ensures SameButLogs(w, Resume(Suspend(w, k), k))
    decreases k
  {
    hide ResumeWith, Resume;
    var s := w[k];
    assert !s.closed && !s.closePending && !s.donePending;
    if s.suspendCount > 0 || k == 0 {
      LastStage(w, k);
    } else {
      var guarded := s.(processing := s.processing + 1, lateReleases := s.lateReleases + [false],
                        resuspensions := s.resuspensions + [false]);
      var up: nat := k - 1;
      var h := HoldTaken(w, k)[k];
      SuspendBelow(w, up, k, h);
      SuspendBelow(w, up, k, guarded);
      ResumeUndoesSuspend(w[k := guarded], up);
      var t := Suspend(w, up)[k := h];
      assert Suspend(w, k) == t;
      PassedOn(t, k, guarded);
      assert t[k := guarded] == Suspend(w[k := guarded], up);
      Unguarded(w, k, guarded, Resume(t[k := guarded], up));
    }
  }

  lemma {:induction false} LastStage(w: Pipe, k: nat)
    requires k < |w| && Undisturbed(w, k) && (w[k].suspendCount > 0 || k == 0)
    ensures SameButLogs(w, Resume(Suspend(w, k), k))
  {
    assert !w[k].closed && !w[k].closePending && !w[k].donePending;
    if w[k].suspendCount > 0 {
      assert SameStage(w[k], Decremented(CountedUp(w, k), k)[k]);
    } else {
      HeadResumed(w);
    }
  }

  lemma {:induction false} HeadResumed(w: Pipe)
    requires |w| > 0 && Undisturbed(w, 0) && w[0].suspendCount == 0
    ensures SameButLogs(w, Resume(CountedUp(w, 0), 0))
  {
    hide SameButLogs;
    var t := CountedUp(w, 0);
    assert !w[0].closed && !w[0].closePending && !w[0].donePending;
    var d := GuardOpened(Decremented(t, 0), 0);
    ResumeParts(t, 0, Quiet);
    var guarded := Leaked(d, 0)[0];
    assert Leaked(d, 0) == w[0 := guarded];
    LogsOnly(w, 0, guarded);
    Unguarded(w, 0, guarded, Leaked(d, 0));
  }

  lemma {:induction false} LogsOnly(w: Pipe, k: nat, s: Stage)
    requires k < |w|
    ensures SameButLogs(w[k := s], w[k := s])
  {
  }

  /** The end of the guard of an undisturbed stage. */
  lemma {:induction false} Unguarded(w: Pipe, k: nat, guarded: Stage, t: Pipe)
    requires k < |w| && !w[k].closePending && !w[k].donePending
    requires SameStage(w[k].(processing := w[k].processing + 1), guarded) && SameButLogs(w[k := guarded], t)
    ensures SameButLogs(w, GuardClosed(DoneTaken(t, k), k))
  {
    assert SameStage(guarded, t[k]);
    assert DoneTaken(t, k) == t;
    forall i | 0 <= i < |w| ensures SameStage(w[i], GuardClosed(t, k)[i]) {
      assert SameStage(w[k := guarded][i], t[i]);
    }
  }

  /** A last Resume on a stage that has one hold to pass on. */
  lemma {:induction false} PassedOn(t: Pipe, k: nat, guarded: Stage)
    requires 0 < k < |t| && t[k].suspendCount == 1 && !t[k].closed && t[k].holds > 0
    requires guarded == t[k].(suspendCount := 0, holds := t[k].holds - 1, processing := t[k].processing + 1,
                              lateReleases := t[k].lateReleases + [false],
                              resuspensions := t[k].resuspensions + [false])
    ensures Resume(t, k) == GuardClosed(DoneTaken(Resume(t[k := guarded], k - 1), k), k)
  {
    ResumeParts(t, k, Quiet);
    var d := GuardOpened(Decremented(t, k), k);
    assert GaveBack(d, k) == t[k := guarded];
    assert Settled(d, k) == Resume(GaveBack(d, k), k - 1);
  }

  // ---- What the invariant means ------------------------------------------------------

  /** If any stage is suspended, every stage up to the head is. */
  lemma {:induction false} SuspendedUpToHead(w: Pipe, i: nat, j: nat)
    requires Inv(w) && j <= i < |w| && w[i].suspendCount > 0
    ensures w[j].suspendCount > 0
    decreases i - j
  {
    if j < i {
      assert HoldsExact(w, i) && CountExact(w, i - 1, 0, 0);
      SuspendedUpToHead(w, i - 1, j);
    }
  }

  /** The stack is empty: no guard is alive and no Resume is in flight. */
  ghost predicate AtTop(w: Pipe) {
    forall i {:trigger w[i]} :: 0 <= i < |w| ==> w[i].processing == 0 && w[i].resuming == 0
  }

  /** A stage has leaked nothing exactly when none of its last holds was released after a close and
      no ProcessPending of its Resume calls ended with it suspended. */
  lemma {:induction false} NoLeakExactly(w: Pipe, i: nat)
    requires Inv(w) && 0 < i < |w|
    ensures w[i].leaks == 0 <==> true !in w[i].lateReleases && true !in w[i].resuspensions
  {
    assert HoldsExact(w, i);
    NoTrues(w[i].lateReleases);
    NoTrues(w[i].resuspensions);
  }

  /** Between events a stage has exactly one hold on its upstream while suspended and none
      otherwise, exactly when neither of these has ever happened to it. */
  lemma {:induction false} OneHoldExactly(w: Pipe, i: nat)
    requires Inv(w) && AtTop(w) && 0 < i < |w|
    ensures w[i].holds == One(w[i].suspendCount > 0) <==> true !in w[i].lateReleases && true !in w[i].resuspensions
  {
    assert HoldsExact(w, i);
    assert w[i].resuming == 0;
    NoLeakExactly(w, i);
  }

  /** The second way: the last hold on a closed stage is released, and upstream hears nothing. */
  lemma {:induction false} LateReleaseLeaks(w: Pipe, k: nat)
    requires 0 < k < |w| && w[k].suspendCount == 1 && w[k].closed
    ensures var t := Resume(w, k);
            && t[k].suspendCount == 0 && t[k].leaks == w[k].leaks + 1 && t[k].holds == w[k].holds
            && forall i {:trigger t[i]} :: 0 <= i < |w| && i != k ==> t[i] == w[i]
  {
  }

  /** The first way: ProcessPending makes somebody suspend the stage again. Upstream is not resumed,
      and is held twice. */
  lemma {:induction false} ResuspensionLeaks(w: Pipe, k: nat)
    requires 0 < k < |w| && w[k].suspendCount == 1 && !w[k].closed && !w[k].closePending
    ensures var t := ResumeWith(w, k, Holds(k));
            && t[k].suspendCount == 1 && t[k].leaks == w[k].leaks + 1 && t[k].holds == w[k].holds + 1
            && t[k - 1].suspendCount == w[k - 1].suspendCount + 1
  {
    hide ResumeWith;
    ResumeParts(w, k, Holds(k));
    var d := GuardOpened(Decremented(w, k), k);
    var e := d[k := d[k].(external := d[k].external + 1)];
    assert Reacted(d, Holds(k)) == Suspend(HoldTaken(e, k), k - 1);
    var up: nat := k - 1;
    SuspendBelow(HoldTaken(e, k), up, k, HoldTaken(e, k)[k]);
    SuspendCounts(HoldTaken(e, k), up);
    SettlesSuspended(Reacted(d, Holds(k)), k);
    hide Settled, DoneTaken, GuardClosed;
  }

  lemma {:induction false} SettlesSuspended(w: Pipe, k: nat)
    requires 0 < k < |w| && w[k].suspendCount > 0 && w[k].resuming > 0 && !w[k].closePending
    ensures var t := GuardClosed(DoneTaken(Settled(w, k), k), k);
            && t[k].suspendCount == w[k].suspendCount && t[k].leaks == w[k].leaks + 1 && t[k].holds == w[k].holds
            && t[k - 1] == w[k - 1]
  {
  }

  lemma {:induction false} SuspendCounts(w: Pipe, k: nat)
    requires k < |w|
    ensures Suspend(w, k)[k].suspendCount == w[k].suspendCount + 1
  {
    if w[k].suspendCount == 0 && k > 0 {
      var up: nat := k - 1;
      SuspendBelow(HoldTaken(w, k), up, k, HoldTaken(w, k)[k]);
    }
  }

  /** A leak is for good: upstream of a stage that has leaked is suspended, whatever anybody
      releases later. */
  lemma {:induction false} LeakSuspendsUpstream(w: Pipe, later: Pipe, i: nat)
    requires Inv(later) && Later(w, later) && 0 < i < |w| && w[i].leaks > 0
    ensures later[i - 1].suspendCount > 0
  {
    assert LaterStage(w[i], later[i]);
    assert HoldsExact(later, i) && CountExact(later, i - 1, 0, 0);
  }

  /** With no leak anywhere, releasing every outside hold resumes the whole pipeline. */
  lemma {:induction false} AllReleased(w: Pipe, i: nat)
    requires Inv(w) && AtTop(w) && i < |w|
    requires forall k {:trigger w[k]} :: 0 <= k < |w| ==> w[k].external == 0 && w[k].leaks == 0
    ensures w[i].suspendCount == 0
    decreases |w| - i
  {
    assert CountExact(w, i, 0, 0);
    if i + 1 < |w| {
      AllReleased(w, i + 1);
      assert HoldsExact(w, i + 1);
      assert w[i + 1].resuming == 0;
    }
  }

  /** DoClose starts at most once, only after a close request and never while a guard is alive;
      between events every close request has scheduled it. Terminal signals exceed resets by one at most. */
  lemma {:induction false} ClosesOnce(w: Pipe, i: nat)
    requires Inv(w) && i < |w|
    ensures !w[i].hasDefer ==> !w[i].queued
    ensures w[i].doCloses <= 1 && (w[i].doCloses == 1 ==> w[i].closed) && !w[i].closedUnderGuard
    ensures AtTop(w) && w[i].closed ==> w[i].doCloses == 1 || w[i].queued
    ensures w[i].resets == 0 ==> w[i].terminals <= 1
  {
    assert w[i].processing == w[i].processing;
  }

  // ---- Guards and closing ------------------------------------------------------------

  /** ScheduleClose: DoClose starts now, or is queued for the event loop. */
  function Scheduled(s: Stage): Stage {
    if s.closeScheduled then s
    else s.(closeScheduled := true, closePending := false, queued := s.hasDefer,
              doCloses := s.doCloses + One(!s.hasDefer),
            closedUnderGuard := s.closedUnderGuard || (!s.hasDefer && s.processing > 0))
  }

  /** The last guard to go carries out a pending close. */
  function GuardEnded(s: Stage): Stage
    requires s.processing > 0
  {
    var t := s.(processing := s.processing - 1);
    if t.processing == 0 && s.closePending then Scheduled(t) else t
  }

  function CloseRequested(s: Stage): Stage {
    if s.closed then s
    else if s.processing > 0 then s.(closed := true, closePending := true)
    else Scheduled(s.(closed := true))
  }

  /** The event loop runs the queued DoClose. */
  function CloseRun(s: Stage): Stage {
    if s.queued then
      s.(queued := false, doCloses := s.doCloses + 1, closedUnderGuard := s.closedUnderGuard || s.processing > 0)
    else s
  }

  /** EmitError and EmitDone, up to the call into downstream: guarded by the finalized flag. */
  function Emitting(s: Stage): Stage {
    s.(finalized := true, terminals := s.terminals + 1, processing := s.processing + 1)
  }

  /** A stage may change in these ways at any time. */
  lemma {:induction false} StageChanges(s: Stage)
    requires Closing(s) && Signalling(s)
    ensures var t := s.(processing := s.processing + 1); Closing(t) && Signalling(t)
    ensures s.processing > 0 ==> Closing(GuardEnded(s)) && Signalling(GuardEnded(s))
    ensures Closing(CloseRequested(s)) && Signalling(CloseRequested(s)) && LaterStage(s, CloseRequested(s))
    ensures s.processing == 0 ==> Closing(CloseRun(s)) && Signalling(CloseRun(s)) && SinceStage(s, CloseRun(s))
    ensures !s.finalized ==> Closing(Emitting(s)) && Signalling(Emitting(s))
    ensures var t := s.(finalized := true); Closing(t) && Signalling(t)
    ensures var t := s.(finalized := false, resets := s.resets + 1); Closing(t) && Signalling(t)
    ensures forall d {:trigger s.(donePending := d)} ::
              Closing(s.(donePending := d)) && Signalling(s.(donePending := d))
  {
  }

  /** The same moment without `p` guards and `r` Resume frames of stage `k`. */
  function Without(w: Pipe, k: nat, p: nat, r: nat): Pipe
    requires k < |w| && p <= w[k].processing && r <= w[k].resuming
  {
    w[k := w[k].(processing := w[k].processing - p, resuming := w[k].resuming - r)]
  }

  /** Frames open at both ends of a call can be left out at both ends. */
  lemma {:induction false} WithoutLater(a: Pipe, b: Pipe, k: nat, p: nat, r: nat)
    requires Later(a, b) && k < |a| && p <= a[k].processing && r <= a[k].resuming
    ensures p <= b[k].processing && r <= b[k].resuming && Later(Without(a, k, p, r), Without(b, k, p, r))
  {
    assert LaterStage(a[k], b[k]);
    forall i | 0 <= i < |a| ensures LaterStage(Without(a, k, p, r)[i], Without(b, k, p, r)[i]) {
      assert LaterStage(a[i], b[i]);
    }
  }

  lemma {:induction false} TopLater(a: Pipe, b: Pipe)
    requires AtTop(a) && (Since(a, b) || Later(a, b))
    ensures AtTop(b)
  {
    forall i | 0 <= i < |b| ensures b[i].processing == 0 && b[i].resuming == 0 {
      assert SinceStage(a[i], b[i]);
      assert a[i].processing == 0;
    }
  }

  /** The guard of a Resume lasts until it is dropped. */
  lemma {:induction false} StillGuarded(processed: Pipe, settled: Pipe, done: Pipe, k: nat)
    requires k < |processed| && processed[k].processing > 0 && processed[k].resuming > 0
    requires Later(Without(processed, k, 0, 1), settled) && Later(settled, done)
    ensures |done| == |processed| && done[k].processing > 0
  {
    assert LaterStage(Without(processed, k, 0, 1)[k], settled[k]) && LaterStage(settled[k], done[k]);
  }

  /** A whole Resume, put together from its parts: decrement and guard, ProcessPending, settling
      with upstream, completing OnDone, and the end of the guard. */
  lemma {:induction false} ResumeLater(w: Pipe, k: nat, guarded: Pipe, processed: Pipe, settled: Pipe, done: Pipe,
                                       end: Pipe)
    requires k < |w| && w[k].suspendCount == 1
    requires guarded == Decremented(w, k)[k := Decremented(w, k)[k].(processing := w[k].processing + 1)]
    requires Later(guarded, processed)
    requires processed[k].resuming > 0 && Later(Without(processed, k, 0, 1), settled) && Later(settled, done)
    requires done[k].processing > 0 && Later(Without(done, k, 1, 0), end)
    ensures Later(w, end) && w[k].lateReleases + [false] <= end[k].lateReleases
  {
    WithoutLater(guarded, processed, k, 1, 1);
    assert Later(w, Without(guarded, k, 1, 1));
    WithoutLater(Without(processed, k, 0, 1), settled, k, 1, 0);
    assert Without(Without(processed, k, 0, 1), k, 1, 0) == Without(processed, k, 1, 1);
    WithoutLater(settled, done, k, 1, 0);
    LaterTrans(w, Without(guarded, k, 1, 1), Without(processed, k, 1, 1));
    LaterTrans(w, Without(processed, k, 1, 1), Without(settled, k, 1, 0));
    LaterTrans(w, Without(settled, k, 1, 0), Without(done, k, 1, 0));
    LaterTrans(w, Without(done, k, 1, 0), end);
    assert LaterStage(guarded[k], processed[k]) && LaterStage(settled[k], done[k]);
    assert LaterStage(Without(processed, k, 0, 1)[k], settled[k]) && LaterStage(Without(done, k, 1, 0)[k], end[k]);
  }

  lemma {:induction false} StillSuspended(w: Pipe, k: nat)
    requires k < |w| && w[k].suspendCount > 1
    ensures Later(w, Decremented(w, k))
  {
  }

  /** Opening a guard and closing it around a call leaves no trace. */
  lemma {:induction false} GuardLater(w: Pipe, k: nat, s: Stage, inner: Pipe, end: Pipe)
    requires k < |w| && s.processing == w[k].processing + 1 && LaterStage(w[k], s.(processing := w[k].processing))
    requires Later(w[k := s], inner) && inner[k].processing > 0 && Later(Without(inner, k, 1, 0), end)
    ensures Later(w, end)
  {
    WithoutLater(w[k := s], inner, k, 1, 0);
    assert Later(w, Without(w[k := s], k, 1, 0));
    LaterTrans(w, Without(w[k := s], k, 1, 0), Without(inner, k, 1, 0));
    LaterTrans(w, Without(inner, k, 1, 0), end);
  }

  /** A change of stage `k` that keeps its counts and frames keeps everything. */
  lemma {:induction false} QuietChange(w: Pipe, k: nat, s: Stage)
    requires k < |w| && Inv(w) && Closing(s) && Signalling(s) && LaterStage(w[k], s)
    requires s.suspendCount == w[k].suspendCount && s.external == w[k].external && s.holds == w[k].holds
        && s.leaks == w[k].leaks
    requires s.lateReleases == w[k].lateReleases && s.resuspensions == w[k].resuspensions
    ensures Inv(w[k := s]) && Later(w, w[k := s])
  {
    LocalChange(w, k, s, 0, 0);
  }

  /** The event loop's turn starts a queued DoClose. */
  lemma {:induction false} RunChange(w: Pipe, k: nat)
    requires k < |w| && Inv(w) && w[k].processing == 0
    ensures var t := w[k := CloseRun(w[k])]; Inv(t) && Since(w, t)
  {
    assert w[k] == w[k];
    StageChanges(w[k]);
    LocalChange(w, k, CloseRun(w[k]), 0, 0);
  }

  /** Opening or closing a guard keeps the invariant. */
  lemma {:induction false} GuardChange(w: Pipe, k: nat, s: Stage)
    requires k < |w| && Inv(w) && Closing(s) && Signalling(s)
    requires s.suspendCount == w[k].suspendCount && s.external == w[k].external && s.holds == w[k].holds
        && s.leaks == w[k].leaks
    requires s.lateReleases == w[k].lateReleases && s.resuspensions == w[k].resuspensions
    requires s.resuming == w[k].resuming
    ensures Inv(w[k := s])
  {
    LocalChange(w, k, s, 0, 0);
  }

  /** The small changes of one stage. */
  lemma {:induction false} FlagChanges(w: Pipe, k: nat, pending: bool)
    requires Inv(w) && k < |w|
    ensures var t := w[k := w[k].(processing := w[k].processing + 1)]; Inv(t)
    ensures var t := w[k := w[k].(finalized := true)]; Inv(t) && Later(w, t)
    ensures var t := w[k := w[k].(finalized := false, resets := w[k].resets + 1)]; Inv(t) && Later(w, t)
    ensures var t := w[k := w[k].(donePending := pending)]; Inv(t) && Later(w, t)
  {
    StageChanges(w[k]);
    assert Closing(w[k]) && Signalling(w[k]);
    hide Inv, Closing, Signalling;
    GuardChange(w, k, w[k].(processing := w[k].processing + 1));
    QuietChange(w, k, w[k].(finalized := true));
    QuietChange(w, k, w[k].(finalized := false, resets := w[k].resets + 1));
    QuietChange(w, k, w[k].(donePending := pending));
  }
}
