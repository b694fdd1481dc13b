/** PipelineComponent as objects wired into a pipeline of any length. Derived classes and users -
    ProcessPending, FlushAndComplete, DoClose and everything downstream of an emit - are foreign
    code that may call any component again; as in LiveStream it follows an arbitrary finite
    script. Every method keeps Backpressure.Inv. */
module Components {
  import B = Backpressure
  import opened Bytes

  /** What foreign code does next. A hold is released only by code that took one. */
  datatype Act =
    | Suspend(i: nat) | Release(i: nat) | Data(i: nat) | Emit(i: nat) | Close(i: nat)
    | Finalize(i: nat) | Reset(i: nat) | DeferOnDone(i: nat) | Deferred(i: nat) | Turn

  /** The scripts of a single reaction: nothing, or one hold taken. */
  function ReactionOf(script: seq<Act>): (r: Option<B.Reaction>) {
    if script == [] then Some(B.Quiet)
    else if |script| == 2 && script[0].Suspend? && script[1] == Turn then Some(B.Holds(script[0].i))
    else None
  }

  class Pipeline {
    var comps: seq<Component>
    var script: seq<Act>

    /** Component i sits at position i. */
    ghost predicate Wired() reads this`comps {
      forall i {:trigger comps[i]} :: 0 <= i < |comps| ==> comps[i].index == i && comps[i].pipe == this
    }

    ghost function Now(): B.Pipe reads this`comps, comps {
      var cs := comps;
      seq(|cs|, i requires 0 <= i < |cs| reads cs => cs[i].Val())
    }

    ghost predicate Valid() reads this`comps, comps { Wired() && B.Inv(Now()) }

    constructor (defers: seq<bool>, script: seq<Act>)
      ensures Valid() && B.AtTop(Now()) && |comps| == |defers| && this.script == script
      ensures forall i {:trigger comps[i]} :: 0 <= i < |comps| ==>
          fresh(comps[i]) && comps[i].Val() == B.Fresh(defers[i])
    {
      comps, this.script := [], script;
      new;
      for i := 0 to |defers|
        invariant |comps| == i && Wired() && this.script == script
        invariant forall j {:trigger comps[j]} :: 0 <= j < i ==> fresh(comps[j]) && comps[j].Val() == B.Fresh(defers[j])
      {
        var c := new Component(this, i, defers[i]);
        comps := comps + [c];
      }
      B.FreshInv(Now());
    }

    /** Foreign code runs until its turn ends. */
    method Callback()
      requires Valid()
      modifies this`script, comps
      ensures ReactionOf(old(script)).Some? ==>
                script == [] && Now() == B.Reacted(old(Now()), ReactionOf(old(script)).value)
      ensures Valid() && B.Later(old(Now()), Now()) && |script| <= old(|script|)
      decreases |script|, 0, 0
    {
      hide B.Inv;
      ghost var reaction := ReactionOf(script);
      while script != [] && script[0] != Turn
        invariant script == old(script) ==> Now() == old(Now())
        invariant reaction.Some? && script != old(script) ==>
                    script == [Turn] && Now() == B.Reacted(old(Now()), reaction.value)
        invariant Valid() && B.Later(old(Now()), Now()) && |script| <= old(|script|)
        decreases |script|
      {
        ghost var before := Now();
        var act := script[0];
        script := script[1..];
        Perform(act);
        B.LaterTrans(old(Now()), before, Now());
      }
      if script != [] { script := script[1..]; }
    }

    method Perform(act: Act)
      requires Valid()
      modifies this`script, comps
      ensures act.Suspend? ==> script == old(script) && Now() == B.Reacted(old(Now()), B.Holds(act.i))
      ensures act.Close? && act.i < |comps| ==> comps[act.i].closed
      ensures act.Finalize? && act.i < |comps| ==> comps[act.i].finalized
      ensures act.Reset? && act.i < |comps| ==> !comps[act.i].finalized
      ensures act.DeferOnDone? && act.i < |comps| ==> comps[act.i].donePending
      ensures act.Emit? && act.i < |comps| && !old(comps[act.i].finalized) && ReactionOf(old(script)).Some? ==>
                script == []
      ensures act.Data? && act.i < |comps| && !old(comps[act.i].closed) && ReactionOf(old(script)).Some? ==>
                script == []
      ensures Valid() && B.Later(old(Now()), Now()) && |script| <= old(|script|)
      decreases |script|, |comps| + 2, 0
    {
      if act.Turn? || act.i >= |comps| { return; }
      var c := comps[act.i];
      match act
      case Suspend(_) => c.SuspendFromOutside();
      case Release(_) => if c.external > 0 { c.ResumeFromOutside(); }
      case Data(_) => c.OnData();
      case Emit(_) => c.Emit();
      case Close(_) => c.RequestClose();
      case Finalize(_) => c.SetFinalized();
      case Reset(_) => c.ResetFinalized();
      case DeferOnDone(_) => c.DeferOnDone();
      case Deferred(_) =>
    }

    /** The event loop, from any moment with an empty stack; only it runs deferred closes. */
    method Run()
      requires Valid() && B.AtTop(Now())
      modifies this`script, comps
      ensures forall i: nat {:trigger Close(i)} :: old(script) == [Close(i)] && i < |comps| ==> comps[i].closed
      ensures Valid() && B.AtTop(Now()) && script == [] && B.Since(old(Now()), Now())
    {
      while script != []
        invariant forall i: nat {:trigger Close(i)} :: old(script) == [Close(i)] && i < |comps| ==>
                    script == [Close(i)] || (script == [] && comps[i].closed)
        invariant Valid() && B.AtTop(Now()) && B.Since(old(Now()), Now())
        decreases |script|
      {
        ghost var before := Now();
        var act := script[0];
        script := script[1..];
        if act.Deferred? && act.i < |comps| {
          comps[act.i].RunDeferred();
        } else {
          Perform(act);
        }
        B.SinceTrans(old(Now()), before, Now());
        B.TopLater(before, Now());
      }
    }
  }

  class Component {
    const pipe: Pipeline
    const index: nat
    const hasDefer: bool
    // PipelineComponent's fields.
    var suspendCount: nat
    var donePending: bool
    var processing: nat
    var closePending: bool
    var closeScheduled: bool
    var closed: bool
    var finalized: bool
    // Whether the event loop has a DoClose of this component queued; holds taken from outside.
    var queued: bool
    var external: nat
    // History.
    ghost var holds: nat
    ghost var resuming: nat
    ghost var leaks: nat
    ghost var lateReleases: seq<bool>
    ghost var resuspensions: seq<bool>
    ghost var doCloses: nat
    ghost var terminals: nat
    ghost var resets: nat
    ghost var closedUnderGuard: bool

    ghost function Val(): B.Stage reads this {
      B.Stage(suspendCount, donePending, processing, closePending, closeScheduled, closed, finalized, hasDefer,
              external, holds, resuming, leaks, lateReleases, resuspensions, queued, doCloses, terminals, resets,
              closedUnderGuard)
    }

    /** This is component `index` of its pipeline. */
    ghost predicate InPlace() reads pipe`comps {
      pipe.Wired() && index < |pipe.comps| && pipe.comps[index] == this
    }

    constructor (pipe: Pipeline, index: nat, hasDefer: bool)
      ensures this.pipe == pipe && this.index == index && this.hasDefer == hasDefer && Val() == B.Fresh(hasDefer)
    {
      this.pipe, this.index, this.hasDefer := pipe, index, hasDefer;
      suspendCount, donePending, processing, closePending, closeScheduled := 0, false, 0, false, false;
      closed, finalized, queued, external := false, false, false, 0;
      holds, resuming, leaks, doCloses, terminals, resets := 0, 0, 0, 0, 0, 0;
      lateReleases, resuspensions, closedUnderGuard := [], [], false;
    }

    // ---- Suspendable -----------------------------------------------------------------

    method Suspend()
      requires InPlace()
      modifies pipe.comps
      ensures InPlace() && pipe.Now() == B.Suspend(old(pipe.Now()), index)
      decreases index
    {
      var prev := suspendCount;
      suspendCount := suspendCount + 1;
      if prev == 0 && index > 0 {
        holds := holds + 1;
        assert pipe.Now() == B.HoldTaken(old(pipe.Now()), index);
        pipe.comps[index - 1].Suspend();
      } else {
        assert pipe.Now() == B.CountedUp(old(pipe.Now()), index);
      }
    }

    method SuspendFromOutside()
      requires InPlace() && pipe.Valid()
      modifies pipe.comps
      ensures pipe.Now() == B.Suspend(old(pipe.Now())[index := old(Val()).(external := old(external) + 1)], index)
      ensures pipe.Valid() && B.Later(old(pipe.Now()), pipe.Now())
    {
      hide B.Suspend, B.InvBut;
      ghost var w := pipe.Now();
      SetExternal(external + 1);
      ghost var taken := pipe.Now();
      B.TakeHold(w, index);
      B.SuspendKeeps(taken, index);
      Suspend();
      B.LaterTrans(w, taken, pipe.Now());
    }

    method SetExternal(n: nat)
      requires InPlace()
      modifies this`external
      ensures external == n && old(pipe.Now())[index] == old(Val())
      ensures pipe.Now() == old(pipe.Now())[index := old(Val()).(external := n)]
      ensures B.Later(old(pipe.Now()), pipe.Now())
    {
      external := n;
      assert pipe.Now() == old(pipe.Now())[index := old(Val()).(external := n)];
    }

    method ResumeFromOutside()
      requires InPlace() && pipe.Valid() && external > 0
      modifies pipe`script, pipe.comps
      ensures old(pipe.script) == [] ==>
                pipe.script == []
                && pipe.Now() == B.Resume(old(pipe.Now())[index := old(Val()).(external := old(external) - 1)], index)
      ensures old(suspendCount) == 1 && !old(closed) && ReactionOf(old(pipe.script)).Some? ==>
                && pipe.script == []
                && pipe.Now() == B.ResumeWith(old(pipe.Now())[index := old(Val()).(external := old(external) - 1)],
                                             index,
                                              ReactionOf(old(pipe.script)).value)
      ensures pipe.Valid() && B.Later(old(pipe.Now()), pipe.Now()) && |pipe.script| <= old(|pipe.script|)
      decreases |pipe.script|, index + 1, 1
    {
      ghost var w := pipe.Now();
      SetExternal(external - 1);
      ghost var released := pipe.Now();
      B.LetGo(w, index);
      Resume();
      B.LaterTrans(w, released, pipe.Now());
    }

    /** Resume, called by whoever has just given up a hold: the count is one too high. The count
        is never zero here, so the source's assertion never fires. */
    method Resume()
      requires InPlace() && B.InvBut(pipe.Now(), index, -1)
      modifies pipe`script, pipe.comps
      ensures old(pipe.script) == [] ==>
                pipe.script == [] && pipe.Now() == B.Resume(old(pipe.Now()), index)
      ensures old(suspendCount) == 1 && !old(closed) && ReactionOf(old(pipe.script)).Some? ==>
                && pipe.script == []
                && pipe.Now() == B.ResumeWith(old(pipe.Now()), index, ReactionOf(old(pipe.script)).value)
      ensures old(suspendCount) == 1 ==> old(lateReleases) + [old(closed)] <= lateReleases
      ensures old(suspendCount) == 1 && old(closed) && !old(donePending) ==>
                pipe.script == old(pipe.script) && pipe.Now() == B.LateReleased(old(pipe.Now()), index)
      ensures pipe.Valid() && B.Later(old(pipe.Now()), pipe.Now()) && |pipe.script| <= old(|pipe.script|)
      decreases |pipe.script|, index + 1, 0
    {
      ghost var w := pipe.Now();
      B.CountPositive(w, index);
      assert w[index] == Val();
      var prev := suspendCount;
      if prev > 1 {
        B.DecrementKeeps(w, index);
        B.StillSuspended(w, index);
        Decrement();
      } else if closed {
        B.LateReleaseKeeps(w, index);
        ReleaseLate();
        ghost var settled := pipe.Now();
        assert settled[index] == Val();
        CompleteDone();
        assert B.LaterStage(settled[index], pipe.Now()[index]) && pipe.Now()[index] == Val();
        B.LaterTrans(w, settled, pipe.Now());
      } else {
        B.DecrementKeeps(w, index);
        Decrement();
        ResumeGuarded(w);
      }
    }

    /** The part of Resume that runs under a guard. */
    method ResumeGuarded(ghost w: B.Pipe)
      requires InPlace() && pipe.Valid() && index < |w| && w[index].suspendCount == 1 && !w[index].closed
      requires pipe.Now() == B.Decremented(w, index)
      modifies pipe`script, pipe.comps
      ensures ReactionOf(old(pipe.script)).Some? ==>
                && pipe.script == []
                && pipe.Now() == B.ResumeWith(w, index, ReactionOf(old(pipe.script)).value)
      ensures w[index].lateReleases + [false] <= lateReleases
      ensures pipe.Valid() && B.Later(w, pipe.Now()) && |pipe.script| <= old(|pipe.script|)
      decreases |pipe.script|, index, 3
    {
      hide B.ResumeWith, B.Settled, B.DoneTaken, B.GuardClosed, B.Inv, B.Reacted, B.Later, B.Leaked;
      ghost var reaction := ReactionOf(pipe.script);
      if reaction.Some? { B.ResumeParts(w, index, reaction.value); }
      assert pipe.Now()[index] == Val();
      ghost var guarded := ProcessPending();
      ghost var processed := pipe.Now();
      SettleWithUpstream();
      FinishResume(w, guarded, processed);
    }

    /** The guard, and whatever the component's own ProcessPending leads to. */
    method ProcessPending() returns (ghost guarded: B.Pipe)
      requires InPlace() && pipe.Valid()
      modifies pipe`script, pipe.comps
      ensures guarded == old(pipe.Now())[index := old(Val()).(processing := old(processing) + 1)]
      ensures ReactionOf(old(pipe.script)).Some? ==>
                pipe.script == [] && pipe.Now() == B.Reacted(guarded, ReactionOf(old(pipe.script)).value)
      ensures InPlace() && B.LaterStage(guarded[index], Val()) && pipe.Now()[index] == Val()
      ensures pipe.Valid() && B.Later(guarded, pipe.Now()) && |pipe.script| <= old(|pipe.script|)
      decreases |pipe.script|, 0, 1
    {
      hide B.Reacted, B.Inv;
      OpenGuard();
      guarded := pipe.Now();
      pipe.Callback();
      assert B.LaterStage(guarded[index], pipe.Now()[index]);
    }

    method FinishResume(ghost w: B.Pipe, ghost guarded: B.Pipe, ghost processed: B.Pipe)
      requires InPlace() && pipe.Valid() && index < |w| == |processed| && w[index].suspendCount == 1
      requires guarded ==
               B.Decremented(w, index)[index := B.Decremented(w, index)[index].(processing := w[index].processing + 1)]
      requires B.Later(guarded, processed) && processed[index].resuming > 0 && processed[index].processing > 0
      requires B.Later(B.Without(processed, index, 0, 1), pipe.Now())
      modifies pipe`script, pipe.comps
      ensures old(pipe.script) == [] ==>
                pipe.script == [] && pipe.Now() == B.GuardClosed(B.DoneTaken(old(pipe.Now()), index), index)
      ensures w[index].lateReleases + [false] <= lateReleases
      ensures pipe.Valid() && B.Later(w, pipe.Now()) && |pipe.script| <= old(|pipe.script|)
      decreases |pipe.script|, 0, 2
    {
      hide B.GuardClosed, B.DoneTaken, B.Inv, B.Reacted, B.Later;
      ghost var settled := pipe.Now();
      CompleteDone();
      ghost var done := pipe.Now();
      B.StillGuarded(processed, settled, done, index);
      assert done[index] == Val();
      EndGuard();
      B.ResumeLater(w, index, guarded, processed, settled, done, pipe.Now());
      assert pipe.Now()[index] == Val();
    }

    method Decrement()
      requires InPlace() && suspendCount > 0 && (suspendCount == 1 ==> !closed)
      modifies this`suspendCount, this`resuming, this`lateReleases
      ensures pipe.Now() == B.Decremented(old(pipe.Now()), index)
    {
      resuming := resuming + B.One(suspendCount == 1);
      lateReleases := lateReleases + (if suspendCount == 1 then [closed] else []);
      suspendCount := suspendCount - 1;
    }

    /** The last hold on a closed component: TryGuard fails, and nothing more happens. */
    method ReleaseLate()
      requires InPlace() && suspendCount == 1 && closed
      modifies this`suspendCount, this`leaks, this`lateReleases
      ensures pipe.Now() == B.LateReleased(old(pipe.Now()), index)
    {
      leaks := leaks + B.One(index > 0);
      lateReleases := lateReleases + [closed];
      suspendCount := suspendCount - 1;
    }

    ghost method Leak()
      requires InPlace() && resuming > 0 && (suspendCount > 0 || index == 0)
      modifies this`resuming, this`leaks, this`resuspensions
      ensures pipe.Now() == B.Leaked(old(pipe.Now()), index)
    {
      resuming, leaks := resuming - 1, leaks + B.One(index > 0);
      resuspensions := resuspensions + [suspendCount > 0];
    }

    ghost method GiveBack()
      requires InPlace() && resuming > 0 && holds > 0 && index > 0 && suspendCount == 0
      modifies this`resuming, this`holds, this`resuspensions
      ensures pipe.Now() == B.GaveBack(old(pipe.Now()), index)
    {
      resuming, holds := resuming - 1, holds - 1;
      resuspensions := resuspensions + [suspendCount > 0];
    }

    /** After ProcessPending: resume upstream, unless suspended again. */
    method SettleWithUpstream()
      requires InPlace() && pipe.Valid() && resuming > 0
      modifies pipe`script, pipe.comps
      ensures old(pipe.script) == [] ==> pipe.script == [] && pipe.Now() == B.Settled(old(pipe.Now()), index)
      ensures old(suspendCount) > 0 || index == 0 ==>
                pipe.script == old(pipe.script) && pipe.Now() == B.Leaked(old(pipe.Now()), index)
      ensures old(resuspensions) + [old(suspendCount) > 0] <= resuspensions
      ensures pipe.Valid() && |pipe.script| <= old(|pipe.script|)
      ensures old(resuming) > 0 && B.Later(B.Without(old(pipe.Now()), index, 0, 1), pipe.Now())
      decreases |pipe.script|, index, 2
    {
      if suspendCount == 0 && index > 0 {
        ResumeUpstream();
      } else {
        ghost var w := pipe.Now();
        B.LeakKeeps(w, index);
        Leak();
        assert pipe.Now()[index] == Val() && w[index].resuspensions == old(resuspensions);
      }
    }

    method ResumeUpstream()
      requires InPlace() && pipe.Valid() && resuming > 0 && suspendCount == 0 && index > 0
      modifies pipe`script, pipe.comps
      ensures old(pipe.script) == [] ==> pipe.script == [] && pipe.Now() == B.Settled(old(pipe.Now()), index)
      ensures old(resuspensions) + [false] <= resuspensions
      ensures pipe.Valid() && |pipe.script| <= old(|pipe.script|)
      ensures old(resuming) > 0 && B.Later(B.Without(old(pipe.Now()), index, 0, 1), pipe.Now())
      decreases |pipe.script|, index, 1
    {
      ghost var w := pipe.Now();
      assert w[index] == Val();
      B.GiveBackKeeps(w, index);
      GiveBack();
      ghost var given := pipe.Now();
      assert given[index].resuspensions == w[index].resuspensions + [false];
      GivenLater(w, given);
      pipe.comps[index - 1].Resume();
      hide B.Inv, B.InvBut;
      assert B.LaterStage(given[index], pipe.Now()[index]) && pipe.Now()[index] == Val();
      B.LaterTrans(B.Without(w, index, 0, 1), given, pipe.Now());
    }

    lemma {:induction false} GivenLater(w: B.Pipe, given: B.Pipe)
      requires 0 < index < |w| && w[index].holds > 0 && w[index].resuming > 0 && w[index].suspendCount == 0
      requires given == B.GaveBack(w, index)
      ensures B.Later(B.Without(w, index, 0, 1), given)
    {
    }

    /** A deferred OnDone is completed unless the component is suspended (again). */
    method CompleteDone()
      requires InPlace() && pipe.Valid()
      modifies pipe`script, pipe.comps
      ensures old(pipe.script) == [] ==> pipe.script == [] && pipe.Now() == B.DoneTaken(old(pipe.Now()), index)
      ensures old(donePending) && old(suspendCount) == 0 && ReactionOf(old(pipe.script)).Some? ==>
                && pipe.script == []
                && pipe.Now() == B.Reacted(B.DoneTaken(old(pipe.Now()), index), ReactionOf(old(pipe.script)).value)
      ensures old(donePending) && old(suspendCount) == 0 && old(pipe.script) == [] ==> !donePending
      ensures old(suspendCount) > 0 ==> pipe.script == old(pipe.script) && pipe.Now() == old(pipe.Now())
      ensures !old(donePending) ==> pipe.script == old(pipe.script) && pipe.Now() == old(pipe.Now())
      ensures pipe.Valid() && B.Later(old(pipe.Now()), pipe.Now()) && |pipe.script| <= old(|pipe.script|)
      decreases |pipe.script|, 0, 1
    {
      if donePending && suspendCount == 0 {
        ghost var w := pipe.Now();
        SetDonePending(false);
        ghost var cleared := pipe.Now();
        pipe.Callback();                             // FlushAndComplete
        B.LaterTrans(w, cleared, pipe.Now());
        assert pipe.Now()[index] == Val() && cleared[index].donePending == false;
      }
    }

    method SetDonePending(pending: bool)
      requires InPlace() && pipe.Valid()
      modifies this`donePending
      ensures pipe.Now() == old(pipe.Now())[index := old(Val()).(donePending := pending)]
      ensures pipe.Valid() && B.Later(old(pipe.Now()), pipe.Now()) && donePending == pending
    {
      ghost var w := pipe.Now();
      assert w[index] == Val();
      hide B.Inv, B.Later;
      B.FlagChanges(w, index, pending);
      donePending := pending;
      assert pipe.Now() == w[index := w[index].(donePending := pending)];
    }

    method DeferOnDone()
      requires InPlace() && pipe.Valid()
      modifies this`donePending
      ensures pipe.Valid() && B.Later(old(pipe.Now()), pipe.Now()) && donePending
    {
      SetDonePending(true);
    }

    // ---- Guards and closing ----------------------------------------------------------

    method OpenGuard()
      requires InPlace() && pipe.Valid()
      modifies this`processing
      ensures pipe.Valid()
      ensures pipe.Now() == old(pipe.Now())[index := old(Val()).(processing := old(processing) + 1)]
    {
      ghost var w := pipe.Now();
      assert w[index] == Val();
      hide B.Inv, B.Later;
      B.FlagChanges(w, index, false);
      processing := processing + 1;
      assert pipe.Now() == w[index := w[index].(processing := w[index].processing + 1)];
    }

    /** ~ProcessingGuard: the last guard carries out a pending close. DoClose never starts while
        a guard is alive. */
    method EndGuard()
      requires InPlace() && pipe.Valid() && processing > 0
      modifies pipe`script, pipe.comps
      ensures !closedUnderGuard
      ensures old(pipe.script) == [] ==> pipe.script == [] && pipe.Now() == B.GuardClosed(old(pipe.Now()), index)
      ensures old(processing) == 1 && old(closePending) && !hasDefer && ReactionOf(old(pipe.script)).Some? ==>
                && pipe.script == []
                && pipe.Now() == B.Reacted(B.GuardClosed(old(pipe.Now()), index), ReactionOf(old(pipe.script)).value)
      ensures pipe.Valid() && |pipe.script| <= old(|pipe.script|)
      ensures old(processing) > 0 && B.Later(B.Without(old(pipe.Now()), index, 1, 0), pipe.Now())
      decreases |pipe.script|, 0, 1
    {
      ghost var w := pipe.Now();
      var start := DropGuard();
      ghost var dropped := pipe.Now();
      assert B.Later(B.Without(w, index, 1, 0), dropped);
      if start {
        pipe.Callback();                             // DoClose
        B.LaterTrans(B.Without(w, index, 1, 0), dropped, pipe.Now());
      }
      assert pipe.Now()[index] == Val() && B.Closing(pipe.Now()[index]);
    }

    method DropGuard() returns (start: bool)
      requires InPlace() && pipe.Valid() && processing > 0
      modifies this`processing, this`closePending, this`closeScheduled, this`queued, this`doCloses,
          this`closedUnderGuard
      ensures pipe.Valid() && pipe.Now() == old(pipe.Now())[index := B.GuardEnded(old(Val()))]
      ensures start <==> doCloses > old(doCloses)
      ensures start ==> processing == 0
    {
      ghost var w := pipe.Now();
      assert w[index] == Val();
      B.StageChanges(w[index]);
      B.GuardChange(w, index, B.GuardEnded(w[index]));
      processing := processing - 1;
      start := false;
      if processing == 0 && closePending { start := ScheduleClose(); }
      assert pipe.Now() == w[index := B.GuardEnded(w[index])];
    }

    method ScheduleClose() returns (start: bool)
      modifies this`closePending, this`closeScheduled, this`queued, this`doCloses, this`closedUnderGuard
      ensures Val() == B.Scheduled(old(Val()))
      ensures start <==> doCloses > old(doCloses)
      ensures hasDefer ==> !start && doCloses == old(doCloses) && (old(closeScheduled) || queued)
      ensures !hasDefer && !old(closeScheduled) ==> start && doCloses == old(doCloses) + 1 && !queued
    {
      if closeScheduled { return false; }
      closeScheduled := true;
      closePending := false;
      queued := hasDefer;
      doCloses := doCloses + B.One(!hasDefer);
      closedUnderGuard := closedUnderGuard || (!hasDefer && processing > 0);
      start := !hasDefer;
    }

    method RequestClose()
      requires InPlace() && pipe.Valid()
      modifies pipe`script, pipe.comps
      ensures old(pipe.script) == [] ==>
                pipe.script == [] && pipe.Now() == old(pipe.Now())[index := B.CloseRequested(old(Val()))]
      ensures !old(closed) && old(processing) == 0 && hasDefer ==>
                queued && doCloses == 0 && pipe.script == old(pipe.script)
      ensures !old(closed) && old(processing) == 0 && !hasDefer ==> doCloses == 1
      ensures !old(closed) && old(processing) == 0 && !hasDefer && ReactionOf(old(pipe.script)).Some? ==>
                && pipe.script == []
                && pipe.Now() == B.Reacted(old(pipe.Now())[index := B.CloseRequested(old(Val()))],
                                           ReactionOf(old(pipe.script)).value)
      ensures !old(closed) && old(processing) > 0 ==> closePending && doCloses == 0 && pipe.script == old(pipe.script)
      ensures closed
      ensures pipe.Valid() && B.Later(old(pipe.Now()), pipe.Now()) && |pipe.script| <= old(|pipe.script|)
      decreases |pipe.script|, 0, 1
    {
      ghost var w := pipe.Now();
      assert w[index] == Val() && B.Closing(w[index]);
      var start := MarkClosed();
      ghost var marked := pipe.Now();
      if start {
        pipe.Callback();                             // DoClose
        B.LaterTrans(w, marked, pipe.Now());
        assert B.SinceStage(marked[index], pipe.Now()[index]);
      }
      assert pipe.Now()[index] == Val() && B.Closing(pipe.Now()[index]);
    }

    method MarkClosed() returns (start: bool)
      requires InPlace() && pipe.Valid()
      modifies this`closed, this`closePending, this`closeScheduled, this`queued, this`doCloses, this`closedUnderGuard
      ensures pipe.Valid() && B.Later(old(pipe.Now()), pipe.Now()) && Val() == B.CloseRequested(old(Val()))
      ensures pipe.Now() == old(pipe.Now())[index := Val()]
      ensures start <==> doCloses > old(doCloses)
      ensures start ==> processing == 0
    {
      ghost var w := pipe.Now();
      assert w[index] == Val();
      B.StageChanges(w[index]);
      B.QuietChange(w, index, B.CloseRequested(w[index]));
      start := false;
      if !closed {
        closed := true;
        if processing > 0 { closePending := true; } else { start := ScheduleClose(); }
      }
      assert pipe.Now() == w[index := B.CloseRequested(w[index])];
    }

    /** The event loop runs a queued DoClose, with nothing on the stack. */
    method RunDeferred()
      requires InPlace() && pipe.Valid() && B.AtTop(pipe.Now())
      modifies pipe`script, pipe.comps
      ensures old(pipe.script) == [] ==>
          pipe.script == [] && pipe.Now() == old(pipe.Now())[index := B.CloseRun(old(Val()))]
      ensures old(queued) ==> !queued && old(doCloses) == 0 && doCloses == 1
      ensures old(queued) && ReactionOf(old(pipe.script)).Some? ==>
                && pipe.script == []
                && pipe.Now() == B.Reacted(old(pipe.Now())[index := B.CloseRun(old(Val()))],
                                           ReactionOf(old(pipe.script)).value)
      ensures !old(queued) ==> pipe.script == old(pipe.script) && pipe.Now() == old(pipe.Now())
      ensures pipe.Valid() && B.Since(old(pipe.Now()), pipe.Now()) && |pipe.script| <= old(|pipe.script|)
    {
      ghost var w := pipe.Now();
      assert w[index] == Val();
      assert w[index].processing == 0;
      B.RunChange(w, index);
      if queued {
        queued, doCloses := false, doCloses + 1;
        closedUnderGuard := closedUnderGuard || processing > 0;
        ghost var started := pipe.Now();
        assert started == w[index := B.CloseRun(w[index])];
        pipe.Callback();                             // DoClose
        B.SinceTrans(w, started, pipe.Now());
        assert B.LaterStage(started[index], pipe.Now()[index]) && pipe.Now()[index] == Val() && B.Closing(Val());
      }
    }

    // ---- Processing and terminal signals ---------------------------------------------

    /** OnData and its kin: nothing when closed, otherwise arbitrary work under a guard. */
    method OnData()
      requires InPlace() && pipe.Valid()
      modifies pipe`script, pipe.comps
      ensures old(pipe.script) == [] ==>
                && pipe.script == []
                && pipe.Now() == if old(closed) then old(pipe.Now())
                    else B.GuardClosed(B.GuardOpened(old(pipe.Now()), index), index)
      ensures !old(closed) && ReactionOf(old(pipe.script)).Some? ==>
                && pipe.script == []
                && pipe.Now() == B.GuardClosed(B.Reacted(B.GuardOpened(old(pipe.Now()), index),
                                                         ReactionOf(old(pipe.script)).value), index)
      ensures pipe.Valid() && B.Later(old(pipe.Now()), pipe.Now()) && |pipe.script| <= old(|pipe.script|)
      decreases |pipe.script|, 0, 2
    {
      if closed { return; }
      ghost var w := pipe.Now();
      assert w[index] == Val();
      OpenGuard();
      ghost var entered := pipe.Now();
      pipe.Callback();
      assert B.LaterStage(entered[index], pipe.Now()[index]);
      ghost var inner := pipe.Now();
      EndGuard();
      B.GuardLater(w, index, entered[index], inner, pipe.Now());
    }

    /** EmitError and EmitDone: one-shot, and under a guard even after a close. */
    method Emit()
      requires InPlace() && pipe.Valid()
      modifies pipe`script, pipe.comps
      ensures old(pipe.script) == [] ==>
                && pipe.script == []
                && pipe.Now() == if old(finalized) then old(pipe.Now())
                                 else B.GuardClosed(old(pipe.Now())[index := B.Emitting(old(Val()))], index)
      ensures !old(finalized) && ReactionOf(old(pipe.script)).Some? ==>
                && pipe.script == []
                && pipe.Now() == B.GuardClosed(B.Reacted(old(pipe.Now())[index := B.Emitting(old(Val()))],
                                                         ReactionOf(old(pipe.script)).value), index)
      ensures pipe.Valid() && B.Later(old(pipe.Now()), pipe.Now()) && |pipe.script| <= old(|pipe.script|)
      decreases |pipe.script|, 0, 2
    {
      if finalized { return; }
      ghost var w := pipe.Now();
      assert w[index] == Val();
      StartEmit();
      ghost var emitted := pipe.Now();
      pipe.Callback();
      assert B.LaterStage(emitted[index], pipe.Now()[index]);
      ghost var inner := pipe.Now();
      EndGuard();
      B.GuardLater(w, index, emitted[index], inner, pipe.Now());
    }

    method StartEmit()
      requires InPlace() && pipe.Valid() && !finalized
      modifies this`finalized, this`terminals, this`processing
      ensures pipe.Valid() && pipe.Now() == old(pipe.Now())[index := B.Emitting(old(Val()))]
    {
      ghost var w := pipe.Now();
      assert w[index] == Val();
      B.StageChanges(w[index]);
      B.GuardChange(w, index, B.Emitting(w[index]));
      finalized := true;
      terminals := terminals + 1;
      processing := processing + 1;
      assert pipe.Now() == w[index := B.Emitting(w[index])];
    }

    method SetFinalized()
      requires InPlace() && pipe.Valid()
      modifies this`finalized
      ensures pipe.Valid() && B.Later(old(pipe.Now()), pipe.Now()) && finalized
    {
      ghost var w := pipe.Now();
      assert w[index] == Val();
      hide B.Inv, B.Later;
      B.FlagChanges(w, index, false);
      finalized := true;
      assert pipe.Now() == w[index := w[index].(finalized := true)];
    }

    method ResetFinalized()
      requires InPlace() && pipe.Valid()
      modifies this`finalized, this`resets
      ensures pipe.Valid() && B.Later(old(pipe.Now()), pipe.Now()) && !finalized
    {
      ghost var w := pipe.Now();
      assert w[index] == Val();
      hide B.Inv, B.Later;
      B.FlagChanges(w, index, false);
      finalized := false;
      resets := resets + 1;
      assert pipe.Now() == w[index := w[index].(finalized := false, resets := w[index].resets + 1)];
    }
  }

  /** A run that leaks a hold. The last hold on stage 1 is released, its ProcessPending makes
      somebody suspend it again, and that hold is released too. Nobody holds anything any more, and
      the head is suspended. */
  method OverSuspended() returns (p: Pipeline)
    ensures p.Valid() && |p.comps| == 2 && p.comps[0].external == 0 && p.comps[1].external == 0
    ensures p.comps[1].suspendCount == 0 && p.comps[0].suspendCount == 1 && p.comps[1].resuspensions == [true, false]
  {
    hide B.Inv, B.Resume, B.ResumeWith;
    p := HeldTwice();
    Release(p, HELD_TWICE, B.Quiet);
    ReleasedAgain();
    assert p.Now()[0] == p.comps[0].Val() && p.Now()[1] == p.comps[1].Val();
  }

  method HeldTwice() returns (p: Pipeline)
    ensures fresh(p) && fresh(p.comps) && p.Valid() && |p.comps| == 2 && p.script == [] && p.Now() == HELD_TWICE
  {
    hide B.Inv, B.Resume, B.ResumeWith;
    p := new Pipeline([false, false], [Suspend(1), Turn]);
    Hold(p);
    Release(p, HELD, B.Holds(1));
    ReleasedAndHeld();
  }

  /** The other way: stage 1 is suspended, closed, and released. */
  method HeldByClosed() returns (p: Pipeline)
    ensures p.Valid() && |p.comps| == 2 && p.comps[0].external == 0 && p.comps[1].external == 0
    ensures p.comps[1].suspendCount == 0 && p.comps[0].suspendCount == 1 && p.comps[1].lateReleases == [true]
  {
    hide B.Inv, B.Resume, B.ResumeWith;
    p := new Pipeline([false, false], []);
    Hold(p);
    Close(p);
    Release(p, [HELD[0], B.CloseRequested(HELD[1])], B.Quiet);
    ReleasedLate();
    assert p.Now()[0] == p.comps[0].Val() && p.Now()[1] == p.comps[1].Val();
  }

  // The steps of these runs, all of them on stage 1 of two.

  method Hold(p: Pipeline)
    requires p.Valid() && |p.comps| == 2 && p.comps[0].Val() == IDLE && p.comps[1].Val() == IDLE
    modifies p.comps
    ensures p.Valid() && p.Now() == HELD
  {
    hide B.Inv, B.Suspend;
    assert p.Now() == [IDLE, IDLE];
    p.comps[1].SuspendFromOutside();
    Held();
  }

  method Close(p: Pipeline)
    requires p.Valid() && p.Now() == HELD && p.script == []
    modifies p`script, p.comps
    ensures p.Valid() && p.script == [] && p.Now() == [HELD[0], B.CloseRequested(HELD[1])]
  {
    hide B.Inv, B.CloseRequested;
    assert p.Now()[1] == p.comps[1].Val();
    p.comps[1].RequestClose();
  }

  method Release(p: Pipeline, ghost w: B.Pipe, ghost r: B.Reaction)
    requires p.Valid() && p.Now() == w && |w| == 2 && w[1].external > 0 && w[1].suspendCount == 1
    requires ReactionOf(p.script) == Some(r) && (w[1].closed ==> p.script == [])
    modifies p`script, p.comps
    ensures p.Valid() && p.script == [] && p.Now() == B.ResumeWith(w[1 := w[1].(external := w[1].external - 1)], 1, r)
  {
    hide B.Inv, B.ResumeWith;
    assert p.Now()[1] == p.comps[1].Val();
    p.comps[1].ResumeFromOutside();
  }

  // The moments of these runs: stage 1 held, re-suspended while releasing, released, released late.

  const IDLE := B.Fresh(false)
  const HELD := [IDLE.(suspendCount := 1), IDLE.(suspendCount := 1, external := 1, holds := 1)]
  const HELD_TWICE := [IDLE.(suspendCount := 2), IDLE.(suspendCount := 1, external := 1, holds := 2, leaks := 1,
                                                       lateReleases := [false], resuspensions := [true])]

  lemma {:induction false} Held()
    ensures B.Suspend([B.Fresh(false), B.Fresh(false)][1 := B.Fresh(false).(external := 1)], 1) == HELD
  {
    var w := [IDLE, IDLE.(external := 1)];
    var taken := B.HoldTaken(w, 1);
    assert B.Suspend(taken, 0) == HELD;
  }

  lemma {:induction false} ReleasedAndHeld()
    ensures B.ResumeWith(HELD[1 := HELD[1].(external := HELD[1].external - 1)], 1, B.Holds(1)) == HELD_TWICE
  {
    var w := HELD[1 := HELD[1].(external := 0)];
    B.ResumeParts(w, 1, B.Holds(1));
    var d := B.GuardOpened(B.Decremented(w, 1), 1);
    var taken := B.HoldTaken(d[1 := d[1].(external := 1)], 1);
    assert B.Suspend(taken, 0) == B.CountedUp(taken, 0);
    var r := B.Reacted(d, B.Holds(1));
    assert r == B.CountedUp(taken, 0);
    var s := B.Leaked(r, 1);
    assert B.Settled(r, 1) == s;
    assert B.GuardClosed(B.DoneTaken(s, 1), 1) == s[1 := s[1].(processing := 0)];
    assert s[0] == HELD_TWICE[0];
    assert s[1].(processing := 0) == HELD_TWICE[1];
  }

  lemma {:induction false} ReleasedAgain()
    ensures var t := B.ResumeWith(HELD_TWICE[1 := HELD_TWICE[1].(external := HELD_TWICE[1].external - 1)], 1, B.Quiet);
            && |t| == 2 && t[0].suspendCount == 1 && t[0].external == 0
            && t[1].suspendCount == 0 && t[1].external == 0 && t[1].resuspensions == [true, false]
  {
    var w := HELD_TWICE[1 := HELD_TWICE[1].(external := 0)];
    B.ResumeParts(w, 1, B.Quiet);
    var d := B.GuardOpened(B.Decremented(w, 1), 1);
    var g := B.GaveBack(d, 1);
    assert B.Settled(d, 1) == B.Resume(g, 0);
    assert B.Resume(g, 0) == B.Decremented(g, 0);
  }

  lemma {:induction false} ReleasedLate()
    ensures var w := [HELD[0], B.CloseRequested(HELD[1])];
            var t := B.ResumeWith(w[1 := w[1].(external := w[1].external - 1)], 1, B.Quiet);
            && |t| == 2 && t[0] == HELD[0] && t[1].suspendCount == 0 && t[1].external == 0
            && t[1].lateReleases == [true]
  {
  }
}
