/** The live chain while streaming: CramAuth's binary half, the parser and the sink. The sink's
    callbacks may call back into the component at any point - suspend, resume, deliver more,
    end the stream, close - to any depth. What they will do is a finite script, popped as they
    run; proving every method against an arbitrary script is proving it for every re-entrant
    run. Chains are their flat bytes here (the BufferChains module justifies that), and a parser
    call is DbnFormat.Feed, which DbnParser.Parser.OnData is proved to compute. */
module LiveStream {
  import opened Bytes
  import opened DbnFormat
  import opened ChainSpec

  const MAX_PENDING_DATA: nat := 16 * 1024 * 1024

  /** What the sink's terminal callback was called with. BadHeader and Incomplete are both
      ErrorCode::ParseError, reported by the parser and by the component respectively. */
  datatype Signal = Completed | BadHeader | Incomplete | Overflow | UpstreamError

  /** What foreign code does next. `Turn` ends the current callback; at top level it lets the
      event loop run the deferred close. */
  datatype Act = SuspendAct | ResumeAct | Chunk(bytes: seq<byte>) | DoneAct | ErrorAct | CloseAct | Turn

  /** One moment of a run: the fields of the component, the parser and the sink, and history.
        received, consumed   binary bytes accepted; bytes the parser has taken, in order
        doneSeen, userClosed upstream said OnDone; somebody outside asked to close
        overflowed           a chain refused data
        nullCall             a call went through the downstream pointer DoClose had reset
        afterClose           completion was signalled on a component already closed
        flushing, resuming   FlushAndComplete and Resume frames on the stack */
  datatype State = State(suspendCount: nat, donePending: bool, closed: bool, finalized: bool, attached: bool,
                         streaming: seq<byte>, pending: seq<byte>, parser: PState,
                         records: seq<seq<byte>>, signals: seq<Signal>,
                         received: seq<byte>, consumed: seq<byte>, doneSeen: bool, userClosed: bool,
                         overflowed: bool, nullCall: bool, afterClose: bool, flushing: nat, resuming: nat)

  /** The part of a moment that only the proof keeps. */
  datatype History = History(received: seq<byte>, consumed: seq<byte>, userClosed: bool, overflowed: bool,
                             nullCall: bool, afterClose: bool, flushing: nat, resuming: nat)

  const INITIAL := State(0, false, false, false, true, [], [], START, [], [], [], [], false, false, false,
                         false, false, 0, 0)

  // ---- The invariant -----------------------------------------------------------------

  /** No byte is lost, added or moved, and the records delivered are what the reference has read
      so far. */
  ghost predicate Conserved(conv: Converters, s: State) {
    && s.received == s.consumed + s.streaming + s.pending
    && (s.parser.failed
        || Continues(Parse(conv, START, s.received), s.records, Parse(conv, s.parser, s.streaming + s.pending)))
  }

  /** What each terminal signal says about the stream. */
  ghost predicate Truthful(conv: Converters, s: State) {
    var reference := Parse(conv, START, s.received);
    && |s.signals| <= 1
    && (s.parser.failed <==> s.signals != [] && s.signals[0] != Completed)
    && (s.signals == [Completed] ==> s.finalized && s.doneSeen && reference.rest == [] && !reference.state.failed)
    && (s.signals == [Completed] && s.attached ==> s.streaming == [] && s.pending == [])
    && (s.signals == [Incomplete] ==> s.doneSeen && reference.rest != [])
    && (s.signals == [BadHeader] ==> reference.state.failed)
    && s.records <= reference.records
  }

  /** Closing, limits, and a deferred OnDone that somebody is still responsible for. */
  ghost predicate Lifecycle(s: State) {
    && |s.streaming| <= MAX_PENDING_DATA && |s.pending| <= MAX_PENDING_DATA
    && (!s.attached ==> s.closed && s.streaming == [] && s.pending == [])
    && (s.closed ==> s.finalized || s.userClosed)
    && (s.nullCall ==> s.userClosed && !s.attached)
    && (s.finalized && s.signals == [] ==> s.nullCall)
    && (s.afterClose ==> s.userClosed && s.closed && s.signals == [Completed])
    && (s.overflowed ==> s.finalized) && (s.signals == [Overflow] ==> s.overflowed)
    && (s.doneSeen && !s.finalized && !s.closed ==> s.donePending || s.flushing > 0)
    && (s.donePending ==> s.doneSeen && (s.suspendCount > 0 || s.resuming > 0))
  }

  ghost predicate Core(conv: Converters, s: State) {
    (s.attached ==> Conserved(conv, s)) && Truthful(conv, s) && Lifecycle(s)
  }

  /** Nothing complete is left in the streaming chain. */
  ghost predicate Idle(conv: Converters, s: State) {
    s.attached && !s.parser.failed ==> Parse(conv, s.parser, s.streaming) == Outcome([], s.streaming, s.parser)
  }

  /** While nobody holds the stream up, nothing is kept back in the pending chain. */
  ghost predicate Flowing(s: State) {
    s.attached && !s.closed && s.suspendCount == 0 && !s.overflowed && !s.parser.failed ==> s.pending == []
  }

  ghost predicate Inv(conv: Converters, s: State) { Core(conv, s) && Idle(conv, s) && Flowing(s) }

  predicate HasCompleted(s: State) { s.signals != [] && s.signals[0] == Completed }

  /** What any call, with everything it calls back into, may do between two moments. */
  ghost predicate Later(a: State, b: State) {
    && b.flushing == a.flushing && b.resuming == a.resuming && b.attached == a.attached
    && a.records <= b.records && a.signals <= b.signals && a.received <= b.received
    && (a.closed ==> b.closed) && (a.finalized ==> b.finalized) && (a.doneSeen ==> b.doneSeen)
    && (a.userClosed ==> b.userClosed) && (a.overflowed ==> b.overflowed) && (a.parser.failed ==> b.parser.failed)
    && (a.attached || a.finalized ==> b.nullCall == a.nullCall)
    && (a.afterClose ==> b.afterClose) && (a.finalized || a.parser.failed ==> b.afterClose == a.afterClose)
    && (a.closed ==> (b.afterClose <==> a.afterClose || (!HasCompleted(a) && HasCompleted(b))))
    && (a.doneSeen ==> b.received == a.received && (a.pending == [] ==> b.pending == [])
                       && (a.pending == [] && a.streaming == [] ==> b.streaming == []))
  }

  lemma {:induction false} LaterTrans(a: State, b: State, c: State)
    requires Later(a, b) && Later(b, c)
    ensures Later(a, c)
  {
  }

  // ---- What each elementary change keeps ----------------------------------------------

  lemma {:induction false} InitialInv(conv: Converters)
    ensures Inv(conv, INITIAL)
  {
  }

  lemma {:induction false} ReferenceGrows(conv: Converters, a: seq<byte>, b: seq<byte>)
    ensures Parse(conv, START, a).records <= Parse(conv, START, a + b).records
    ensures Parse(conv, START, a).state.failed ==> Parse(conv, START, a + b).state.failed
  {
    if Parse(conv, START, a).state.failed {
      ParseBad(conv, START, a, b);
    } else {
      ParseSplit(conv, START, a, b);
    }
  }

  /** Bytes from upstream join the streaming chain. */
  function Accepted(s: State, data: seq<byte>): State {
    s.(received := s.received + data, streaming := s.streaming + data)
  }

  lemma {:induction false} AcceptKeeps(conv: Converters, s: State, data: seq<byte>)
    requires Core(conv, s) && s.attached && !s.doneSeen && s.pending == [] && |s.streaming| + |data| <= MAX_PENDING_DATA
    ensures Core(conv, Accepted(s, data)) && Later(s, Accepted(s, data))
  {
    var t := Accepted(s, data);
    ReferenceGrows(conv, s.received, data);
    assert s.streaming + [] == s.streaming && t.streaming + [] == t.streaming;
    Assoc(s.consumed, s.streaming, data);
    assert s.consumed + s.streaming + [] == s.consumed + s.streaming;
    assert s.consumed + t.streaming + [] == s.consumed + t.streaming;
    if !s.parser.failed {
      ContinuesGrows(conv, START, s.received, s.records, s.parser, s.streaming, data);
    }
  }

  /** Bytes from upstream wait in the pending chain. */
  function Queued(s: State, data: seq<byte>): State {
    s.(received := s.received + data, pending := s.pending + data)
  }

  lemma {:induction false} QueueKeeps(conv: Converters, s: State, data: seq<byte>)
    requires Inv(conv, s) && s.attached && !s.doneSeen && s.suspendCount > 0 && |s.pending| + |data| <= MAX_PENDING_DATA
    ensures Inv(conv, Queued(s, data)) && Later(s, Queued(s, data))
  {
    ReferenceGrows(conv, s.received, data);
    Assoc(s.consumed + s.streaming, s.pending, data);
    Assoc(s.streaming, s.pending, data);
    if !s.parser.failed {
      ContinuesGrows(conv, START, s.received, s.records, s.parser, s.streaming + s.pending, data);
    }
  }

  /** The pending chain is spliced onto the streaming chain. */
  function Spliced(s: State): State { s.(streaming := s.streaming + s.pending, pending := []) }

  lemma {:induction false} SpliceKeeps(conv: Converters, s: State)
    requires Core(conv, s) && |s.streaming| + |s.pending| <= MAX_PENDING_DATA
    ensures Core(conv, Spliced(s)) && Later(s, Spliced(s))
  {
    Assoc(s.consumed, s.streaming, s.pending);
    assert (s.streaming + s.pending) + [] == s.streaming + s.pending;
    assert s.consumed + (s.streaming + s.pending) + [] == s.consumed + (s.streaming + s.pending);
  }

  /** The parser reads the streaming chain; a bad header goes to the sink at once. */
  function Fed(conv: Converters, s: State): State {
    if s.parser.failed then s
    else
      Took(s, Feed(conv, s.parser, s.streaming))
  }

  function Took(s: State, o: Outcome): State
    requires |o.rest| <= |s.streaming|
  {
    s.(consumed := s.consumed + s.streaming[..|s.streaming| - |o.rest|], parser := o.state, streaming := o.rest,
       records := s.records + o.records, signals := if o.state.failed then s.signals + [BadHeader] else s.signals)
  }

  lemma {:induction false} FeedKeeps(conv: Converters, s: State)
    requires Core(conv, s) && s.attached && s.pending == []
    ensures Inv(conv, Fed(conv, s)) && Later(s, Fed(conv, s))
  {
    if !s.parser.failed {
      var o := Parse(conv, s.parser, s.streaming);
      ParseSuffix(conv, s.parser, s.streaming);
      assert s.streaming + [] == s.streaming;
      FedBytes(conv, s);
      if o.state.failed {
        FedBad(conv, s);
      } else {
        ContinuesRead(conv, Parse(conv, START, s.received), s.records, s.parser, s.streaming, []);
        ParseIdle(conv, s.parser, s.streaming);
        assert o.rest + [] == o.rest;
        FedWell(conv, s);
      }
    }
  }

  lemma {:induction false} TookBytes(s: State, o: Outcome)
    requires s.received == s.consumed + s.streaming + s.pending && s.pending == []
    requires |o.rest| <= |s.streaming| && o.rest == s.streaming[|s.streaming| - |o.rest|..]
    ensures var t := Took(s, o); t.received == t.consumed + t.streaming + t.pending && t.pending == []
  {
    TookFields(s, o);
    hide Took;
    AllParts(s.consumed, s.streaming, s.streaming[..|s.streaming| - |o.rest|], o.rest);
  }

  lemma {:induction false} TookFields(s: State, o: Outcome)
    requires |o.rest| <= |s.streaming|
    ensures var t := Took(s, o);
            && t.received == s.received && t.pending == s.pending && t.streaming == o.rest
            && t.consumed == s.consumed + s.streaming[..|s.streaming| - |o.rest|]
  {
  }

  lemma {:induction false} AllParts(consumed: seq<byte>, streaming: seq<byte>, head: seq<byte>, rest: seq<byte>)
    requires |head| + |rest| == |streaming| && head == streaming[..|head|] && rest == streaming[|head|..]
    ensures consumed + streaming + [] == (consumed + head) + rest + []
  {
    assert head + rest == streaming;
    Assoc(consumed, head, rest);
    assert consumed + streaming + [] == consumed + streaming;
    assert (consumed + head) + rest + [] == (consumed + head) + rest;
  }

  lemma {:induction false} FedBytes(conv: Converters, s: State)
    requires Core(conv, s) && s.attached && s.pending == [] && !s.parser.failed
    ensures var t := Fed(conv, s); t.received == t.consumed + t.streaming + t.pending && t.pending == []
  {
    hide Truthful, Lifecycle, Took;
    ParseSuffix(conv, s.parser, s.streaming);
    TookBytes(s, Feed(conv, s.parser, s.streaming));
  }

  lemma {:induction false} FedBad(conv: Converters, s: State)
    requires Core(conv, s) && s.attached && s.pending == [] && !s.parser.failed
        && Parse(conv, s.parser, s.streaming).state.failed
    requires var t := Fed(conv, s); t.received == t.consumed + t.streaming + t.pending && t.pending == []
    ensures Inv(conv, Fed(conv, s)) && Later(s, Fed(conv, s))
  {
    assert s.streaming + s.pending == s.streaming;
    assert Parse(conv, s.parser, []).rest == [] && !Parse(conv, s.parser, []).state.failed;
    assert s.streaming != [];
    assert s.signals == [];
    assert s.records + [] == s.records;
  }

  lemma {:induction false} FedWell(conv: Converters, s: State)
    requires Core(conv, s) && s.attached && s.pending == [] && !s.parser.failed
    requires var t := Fed(conv, s);
             && !t.parser.failed && t.received == t.consumed + t.streaming + t.pending && t.pending == []
             && t.streaming + [] == t.streaming
             && Continues(Parse(conv, START, s.received), t.records, Parse(conv, t.parser, t.streaming + []))
             && Parse(conv, t.parser, t.streaming) == Outcome([], t.streaming, t.parser)
    ensures Inv(conv, Fed(conv, s)) && Later(s, Fed(conv, s))
  {
    assert Parse(conv, s.parser, []).rest == [];
  }

  /** A terminal error goes through the parser to the sink, if nothing terminal has before. An
      overflow is remembered in any case. */
  function Errored(s: State, signal: Signal): State {
    var t := s.(overflowed := s.overflowed || signal == Overflow, finalized := true);
    if s.finalized || s.parser.failed then t
    else t.(parser := s.parser.(failed := true), signals := s.signals + [signal])
  }

  lemma {:induction false} ErroredParts(s: State, marked: State, signal: Signal)
    requires marked == s.(overflowed := s.overflowed || signal == Overflow) && !s.finalized
    ensures var t := marked.(finalized := true);
            Errored(s, signal) ==
            if t.parser.failed then t else t.(parser := t.parser.(failed := true), signals := t.signals + [signal])
  {
  }

  /** The sink has heard nothing terminal before, and hears nothing terminal after. */
  lemma {:induction false} NoSecondSignal(conv: Converters, s: State, t: State, signal: Signal)
    requires Core(conv, s) && Core(conv, t) && Errored(s, signal).signals <= t.signals
    ensures !s.finalized && !s.parser.failed ==> t.signals == [signal]
  {
    hide Conserved, Lifecycle;
  }

  /** When the component may report `signal`. */
  ghost predicate MayReport(conv: Converters, s: State, signal: Signal) {
    match signal
    case Overflow => Idle(conv, s) || !s.doneSeen
    case UpstreamError => Idle(conv, s) && Flowing(s)
    case Incomplete => Idle(conv, s) && Flowing(s) && s.doneSeen && s.streaming != [] && s.pending == []
    case _ => false
  }

  lemma {:induction false} ErrorKeeps(conv: Converters, s: State, signal: Signal)
    requires Core(conv, s) && s.attached && MayReport(conv, s, signal)
    ensures Inv(conv, Errored(s, signal)) && Later(s, Errored(s, signal))
  {
    if signal == Incomplete && !s.parser.failed {
      assert s.streaming + s.pending == s.streaming;
    }
  }

  /** OnDone goes through the parser to the sink; through a reset pointer it goes nowhere good. */
  function Done(s: State): State {
    if s.finalized then s
    else if !s.attached then s.(finalized := true, nullCall := true)
    else if s.parser.failed then s.(finalized := true)
    else s.(finalized := true, signals := s.signals + [Completed], afterClose := s.afterClose || s.closed)
  }

  lemma {:induction false} DoneKeeps(conv: Converters, s: State)
    requires Inv(conv, s) && s.doneSeen && s.streaming == [] && s.pending == []
    ensures Inv(conv, Done(s)) && Later(s, Done(s))
  {
    assert s.streaming + s.pending == [];
  }

  lemma {:induction false} CloseKeeps(conv: Converters, s: State)
    requires Inv(conv, s) && (s.finalized || s.userClosed)
    ensures Inv(conv, s.(closed := true)) && Later(s, s.(closed := true))
  {
  }

  lemma {:induction false} UserCloseKeeps(conv: Converters, s: State)
    requires Inv(conv, s)
    ensures var t := s.(userClosed := true, closed := true); Inv(conv, t) && Later(s, t)
  {
  }

  lemma {:induction false} SuspendKeeps(conv: Converters, s: State)
    requires Inv(conv, s)
    ensures Inv(conv, s.(suspendCount := s.suspendCount + 1)) && Later(s, s.(suspendCount := s.suspendCount + 1))
  {
  }

  /** The last hold is released: a Resume frame is now responsible for what was deferred. */
  function Resuming(s: State): State
    requires s.suspendCount > 0
  {
    s.(suspendCount := s.suspendCount - 1, resuming := s.resuming + 1)
  }

  lemma {:induction false} ResumingKeeps(conv: Converters, s: State)
    requires Inv(conv, s) && s.suspendCount == 1
    ensures var t := Resuming(s); Core(conv, t) && Idle(conv, t) && (s.closed ==> Inv(conv, t))
  {
  }

  /** OnDone is taken up by a FlushAndComplete frame. */
  function Flushing(s: State): State { s.(donePending := false, flushing := s.flushing + 1) }

  /** A FlushAndComplete frame ends having settled OnDone one way or another. */
  lemma {:induction false} FlushedKeeps(conv: Converters, s: State)
    requires Inv(conv, s) && s.flushing > 0 && (s.donePending || s.finalized)
    ensures Inv(conv, s.(flushing := s.flushing - 1))
  {
  }

  /** A Resume frame ends: whatever is still deferred, somebody else is responsible for. */
  lemma {:induction false} ResumedKeeps(conv: Converters, s: State)
    requires Inv(conv, s) && s.resuming > 0 && (s.donePending ==> s.suspendCount > 0)
    ensures Inv(conv, s.(resuming := s.resuming - 1))
  {
  }

  lemma {:induction false} ResumedFlushing(conv: Converters, s: State)
    requires Inv(conv, s) && s.resuming > 0 && s.donePending
    ensures var t := Flushing(s).(resuming := s.resuming - 1); Core(conv, t) && Idle(conv, t)
  {
  }

  lemma {:induction false} DeferKeeps(conv: Converters, s: State)
    requires Inv(conv, s) && s.doneSeen && s.suspendCount > 0
    ensures Inv(conv, s.(donePending := true)) && Later(s, s.(donePending := true))
  {
  }

  /** OnDone arrives: deferred while suspended, otherwise a FlushAndComplete frame starts. */
  lemma {:induction false} DoneStarts(conv: Converters, s: State)
    requires Inv(conv, s) && !s.doneSeen
    ensures var t := s.(doneSeen := true, flushing := s.flushing + 1); Core(conv, t) && Idle(conv, t)
  {
  }

  lemma {:induction false} DoneWaits(conv: Converters, s: State, deferred: bool)
    requires Inv(conv, s) && !s.doneSeen && (if deferred then s.suspendCount > 0 else s.closed)
    ensures var t := s.(doneSeen := true, donePending := s.donePending || deferred); Inv(conv, t) && Later(s, t)
  {
  }

  /** The event loop runs the deferred DoClose: the downstream is let go, the chains cleared. */
  function Detached(s: State): State { s.(attached := false, streaming := [], pending := []) }

  lemma {:induction false} DetachKeeps(conv: Converters, s: State)
    requires Inv(conv, s) && s.closed
    ensures Inv(conv, Detached(s))
  {
  }

  /** Everything still in the chains can be read, and nobody stands in the way of saying so. */
  ghost predicate Completes(conv: Converters, s: State) {
    var o := Parse(conv, s.parser, s.streaming + s.pending);
    && s.attached && !s.finalized && !s.parser.failed
    && |s.streaming| + |s.pending| <= MAX_PENDING_DATA && o.rest == [] && !o.state.failed
  }

  lemma {:induction false} FedSignals(conv: Converters, s: State)
    ensures Fed(conv, s).signals == [Completed] ==> s.signals == [Completed]
  {
    hide Feed;
    LastSignal(s.signals, BadHeader);
  }

  lemma {:induction false} LastSignal(signals: seq<Signal>, signal: Signal)
    requires signal != Completed
    ensures signals + [signal] != [Completed]
  {
    assert (signals + [signal])[|signals|] == signal;
  }

  lemma {:induction false} FedNothing(conv: Converters, s: State)
    requires s.streaming == []
    ensures Fed(conv, s) == s
  {
    if !s.parser.failed {
      assert Parse(conv, s.parser, []) == Outcome([], [], s.parser);
      assert s.consumed + [] == s.consumed && s.records + [] == s.records;
    }
  }

  /** A flush that ends in completion had everything it needed. */
  lemma {:induction false} FlushCompletes(conv: Converters, s: State, t: State)
    requires Core(conv, s) && Core(conv, t) && Later(s, t) && s.doneSeen && s.attached
    requires |s.streaming| + |s.pending| <= MAX_PENDING_DATA
    ensures s.signals == [] && t.signals == [Completed] ==> Completes(conv, s)
    ensures !s.afterClose && t.afterClose ==> Completes(conv, s)
  {
    if !s.afterClose && t.afterClose { NothingSaid(conv, s, t); }
    hide Conserved, Truthful;
    if s.signals == [] && t.signals == [Completed] {
      assert !s.finalized;
      CompletionMeans(conv, s, t);
    }
  }

  /** A completion behind a close is the first terminal signal. */
  lemma {:induction false} NothingSaid(conv: Converters, s: State, t: State)
    requires Core(conv, s) && Core(conv, t) && Later(s, t) && !s.afterClose && t.afterClose
    ensures s.signals == [] && t.signals == [Completed] && !s.finalized && !s.parser.failed
  {
    hide Conserved;
  }

  /** Reading what waits does not change whether the stream can complete. */
  lemma {:induction false} CompletesRead(conv: Converters, s: State)
    requires |s.streaming| + |s.pending| <= MAX_PENDING_DATA
    ensures var t := Fed(conv, Spliced(s));
            (Completes(conv, t) <==> Completes(conv, s)) && (Completes(conv, ClosedOutside(t)) <==> Completes(conv, s))
  {
    if !s.parser.failed {
      var all := s.streaming + s.pending;
      var o := Parse(conv, s.parser, all);
      assert Fed(conv, Spliced(s)).streaming + [] == o.rest;
      if !o.state.failed { ParseIdle(conv, s.parser, all); }
    }
  }

  /** What a flush that can complete comes to, if nobody interferes. */
  lemma {:induction false} CompletesFlushes(conv: Converters, s: State)
    requires Completes(conv, s)
    ensures |s.streaming| + |s.pending| <= MAX_PENDING_DATA
    ensures var t := Fed(conv, Spliced(s));
            && t.attached && !t.finalized && !t.parser.failed && t.streaming == [] && t.pending == []
  {
  }

  lemma {:induction false} SplicedIdle(conv: Converters, s: State)
    requires Idle(conv, s) && s.pending == []
    ensures Spliced(s) == s
  {
    assert s.streaming + [] == s.streaming;
  }

  lemma {:induction false} FedKeepsRest(conv: Converters, s: State)
    ensures var t := Fed(conv, s);
            && t.suspendCount == s.suspendCount && t.closed == s.closed && t.attached == s.attached
            && t.pending == s.pending && t.afterClose == s.afterClose && t.finalized == s.finalized
            && t.donePending == s.donePending
  {
    hide Feed;
    if !s.parser.failed { TookKeepsRest(s, Feed(conv, s.parser, s.streaming)); }
    hide Took;
  }

  lemma {:induction false} TookKeepsRest(s: State, o: Outcome)
    requires |o.rest| <= |s.streaming|
    ensures var t := Took(s, o);
            && t.suspendCount == s.suspendCount && t.closed == s.closed && t.attached == s.attached
            && t.pending == s.pending && t.afterClose == s.afterClose && t.finalized == s.finalized
            && t.donePending == s.donePending
  {
  }

  /** A streaming chain with nothing complete in it is read without effect. */
  lemma {:induction false} IdleFed(conv: Converters, s: State)
    requires Idle(conv, s) && s.attached
    ensures !News(conv, s) && Fed(conv, s) == s
  {
    if !s.parser.failed {
      assert s.streaming[..0] == [];
      assert s.consumed + [] == s.consumed && s.records + [] == s.records;
    }
  }

  lemma {:induction false} SameCompletes(conv: Converters, s: State, t: State)
    requires || t == Flushing(s).(resuming := t.resuming)
             || t == s.(suspendCount := t.suspendCount, resuming := t.resuming)
    ensures Completes(conv, t) <==> Completes(conv, s)
  {
  }

  /** A completion later on means that what was left could be read. */
  lemma {:induction false} CompletionMeans(conv: Converters, s: State, t: State)
    requires Core(conv, s) && Core(conv, t) && s.attached && s.signals == [] && !s.finalized
    requires t.received == s.received && t.signals == [Completed]
    ensures !s.parser.failed
    ensures var o := Parse(conv, s.parser, s.streaming + s.pending); o.rest == [] && !o.state.failed
  {
    hide Lifecycle;
  }

  /** No frame of the component is on the stack. */
  ghost predicate AtTop(s: State) { s.flushing == 0 && s.resuming == 0 }

  /** End of stream. Once upstream has said OnDone, the stack is empty, every hold has been
      released and nobody outside closed the stream, the sink has seen exactly one terminal
      signal; and unless a chain overflowed or upstream failed, that signal is completion exactly
      when the reference reads every byte without error. */
  lemma {:induction false} EndOfStream(conv: Converters, s: State)
    requires Inv(conv, s) && AtTop(s) && s.doneSeen && s.suspendCount == 0 && !s.userClosed
    ensures |s.signals| == 1
    ensures s.signals[0] != Overflow && s.signals[0] != UpstreamError ==>
              var reference := Parse(conv, START, s.received);
              (s.signals[0] == Completed <==> reference.rest == [] && !reference.state.failed)
  {
  }

  /** A completion means that everything read has been delivered. */
  lemma {:induction false} CompletedDelivers(conv: Converters, s: State)
    requires Inv(conv, s) && s.attached && s.signals == [Completed]
    ensures s.records == Parse(conv, START, s.received).records
  {
    assert s.streaming + s.pending == [];
    assert Parse(conv, s.parser, []).records == [];
    assert s.records + [] == s.records;
  }

  /** What waits has been received. */
  lemma {:induction false} WaitingReceived(conv: Converters, s: State)
    requires Inv(conv, s) && s.attached
    ensures Waiting(s) <= |s.received|
  {
  }

  /** Order under backpressure. Up to the close, the bytes received are those the parser took,
      then the streaming chain, then the pending chain; both chains respect the limit, so the
      overflow check never wraps; and while nobody suspends the stream, everything the reference
      can read of what was received has been delivered. */
  lemma {:induction false} NothingWithheld(conv: Converters, s: State)
    requires Inv(conv, s) && s.attached && !s.closed && s.suspendCount == 0 && s.signals == []
    ensures s.received == s.consumed + s.streaming
    ensures |s.streaming| <= MAX_PENDING_DATA
    ensures Parse(conv, START, s.received) == Outcome(s.records, s.streaming, s.parser)
  {
    assert s.streaming + s.pending == s.streaming;
    assert s.consumed + s.streaming + [] == s.consumed + s.streaming;
    assert s.records + [] == s.records;
  }

  // ---- The component -----------------------------------------------------------------

  /** Foreign code has done a part of what it will do. */
  predicate Fewer(before: seq<Act>, after: seq<Act>) {
    |after| <= |before| && (ResumeAct !in before ==> ResumeAct !in after) && (Tame(before) ==> Tame(after))
  }

  /** Foreign code that only takes and releases holds. */
  predicate Tame(script: seq<Act>) {
    forall act {:trigger act in script} :: act in script ==> act.SuspendAct? || act.ResumeAct? || act.Turn?
  }

  /** Nobody outside closed the stream or ended it, only an overflow or its end closed it, and no
      error came from upstream. */
  ghost predicate Quietly(a: State, b: State) {
    && b.userClosed == a.userClosed && b.doneSeen == a.doneSeen
    && (b.closed ==> a.closed || b.overflowed || b.doneSeen)
    && (b.signals == [UpstreamError] ==> a.signals == [UpstreamError])
  }

  /** What waits in the two chains. */
  function Waiting(s: State): nat { |s.streaming| + |s.pending| }

  /** Tame code leaves the stream alone and sends nothing. */
  ghost predicate Still(script: seq<Act>, a: State, b: State) {
    Tame(script) ==> Quietly(a, b) && b.received == a.received && Waiting(b) <= Waiting(a)
  }

  /** And no chain overflows, unless the two do not fit into one. */
  ghost predicate Calm(script: seq<Act>, a: State, b: State) {
    Still(script, a, b)
    && (Tame(script) && b.overflowed ==> a.overflowed || Waiting(a) > MAX_PENDING_DATA)
  }

  lemma {:induction false} CalmTrans(script: seq<Act>, left: seq<Act>, a: State, b: State, c: State)
    requires Fewer(script, left) && Calm(script, a, b) && Calm(left, b, c) && (b.overflowed ==> c.overflowed)
    ensures Calm(script, a, c)
  {
    hide Tame;
  }

  lemma {:induction false} CalmDone(script: seq<Act>, s: State)
    requires s.doneSeen
    ensures Calm(script, s, s) && Calm(script, s, Done(s)) && Fewer(script, script)
    ensures s.finalized || !s.attached || !s.parser.failed || Calm(script, s, s.(finalized := true))
  {
    hide Tame;
    assert (s.signals + [Completed])[|s.signals|] == Completed;
  }

  lemma {:induction false} CalmCounts(script: seq<Act>, a: State, b: State)
    requires b == a.(suspendCount := b.suspendCount, resuming := b.resuming)
    ensures Calm(script, a, b) && Fewer(script, script)
  {
    hide Tame;
  }

  /** Calm from the splice on is calm from before it. */
  lemma {:induction false} CalmSplit(script: seq<Act>, a: State, b: State, c: State)
    requires b == Spliced(a) && Calm(script, b, c)
    ensures Calm(script, a, c)
  {
    hide Tame;
  }

  lemma {:induction false} FewerTrans(a: seq<Act>, b: seq<Act>, c: seq<Act>)
    requires Fewer(a, b) && Fewer(b, c)
    ensures Fewer(a, c) && |c| <= |a|
  {
    hide Tame;
  }

  /** Foreign code that closes the stream at its first turn and does nothing else. */
  const CLOSES: seq<Act> := [CloseAct, Turn]

  function ClosedOutside(s: State): State { s.(userClosed := true, closed := true) }

  /** Reading the streaming chain would reach the sink. */
  ghost predicate News(conv: Converters, s: State) {
    var o := Feed(conv, s.parser, s.streaming);
    !s.parser.failed && (o.state.failed || o.records != [])
  }

  class Stream {
    const conv: Converters
    // CramAuth in state Streaming, with the fields it inherits from PipelineComponent.
    var suspendCount: nat
    var donePending: bool
    var closed: bool
    var finalized: bool
    var attached: bool
    var streaming: seq<byte>
    var pending: seq<byte>
    // The parser and the sink.
    var parser: PState
    var records: seq<seq<byte>>
    var signals: seq<Signal>
    // Upstream has said OnDone, so it sends nothing more; and what foreign code will do.
    var doneSeen: bool
    var script: seq<Act>
    ghost var h: History

    ghost function Now(): State reads this {
      State(suspendCount, donePending, closed, finalized, attached, streaming, pending, parser, records, signals,
            h.received, h.consumed, doneSeen, h.userClosed, h.overflowed, h.nullCall, h.afterClose,
            h.flushing, h.resuming)
    }

    ghost predicate Valid() reads this { Inv(conv, Now()) }

    constructor (conv: Converters, script: seq<Act>)
      ensures this.conv == conv && this.script == script && Now() == INITIAL && Valid()
    {
      this.conv, this.script := conv, script;
      suspendCount, donePending, closed, finalized, attached := 0, false, false, false, true;
      streaming, pending, parser, records, signals, doneSeen := [], [], START, [], [], false;
      h := History([], [], false, false, false, false, 0, 0);
      InitialInv(conv);
    }

    // ---- Foreign code ----------------------------------------------------------------

    /** A callback into the sink's owner: it may call anything, any number of times. */
    method Callback()
      requires Valid()
      modifies this
      ensures old(script) == [] ==> Now() == old(Now())
      ensures old(script) == CLOSES ==> script == [] && Now() == ClosedOutside(old(Now()))
      ensures ResumeAct !in old(script) ==> h.afterClose == old(h.afterClose)
      ensures Valid() && Later(old(Now()), Now())
      ensures Fewer(old(script), script) && Calm(old(script), old(Now()), Now())
      decreases |script|, 0
    {
      hide Conserved, Truthful;
      while script != [] && script[0] != Turn
        invariant old(script) == [] ==> script == [] && Now() == old(Now())
        invariant old(script) == CLOSES ==>
                    if script == CLOSES then Now() == old(Now())
                    else script == [Turn] && Now() == ClosedOutside(old(Now()))
        invariant ResumeAct !in old(script) ==> h.afterClose == old(h.afterClose)
        invariant Valid() && Later(old(Now()), Now())
        invariant Fewer(old(script), script) && Calm(old(script), old(Now()), Now())
        decreases |script|
      {
        ghost var before := Now();
        var act := NextAct();
        Perform(act);
        LaterTrans(old(Now()), before, Now());
      }
      if script != [] {
        var turn := NextAct();
      }
    }

    method NextAct() returns (act: Act)
      requires script != []
      modifies this`script
      ensures act == old(script[0]) && script == old(script[1..]) && Now() == old(Now())
      ensures Fewer(old(script), script) && (Tame(old(script)) ==> Tame([act]))
    {
      assert script[0] in script && forall a :: a in script[1..] ==> a in script;
      act := script[0];
      script := script[1..];
    }

    /** One action of foreign code. It releases only holds that exist, and upstream sends
        nothing after OnDone. */
    method Perform(act: Act)
      requires Valid()
      modifies this
      ensures Tame([act]) ==> Calm(old(script), old(Now()), Now())
      ensures act == SuspendAct ==>
                script == old(script) && Now() == old(Now()).(suspendCount := old(suspendCount) + 1)
      ensures act == ResumeAct && old(suspendCount) > 1 ==>
                script == old(script) && Now() == old(Now()).(suspendCount := old(suspendCount) - 1)
      ensures act == ResumeAct && old(suspendCount) == 1 && old(script) == [] ==> suspendCount == 0
      ensures act.Chunk? && !old(doneSeen) && !old(closed) && old(suspendCount) > 0
              && |old(pending)| + |act.bytes| <= MAX_PENDING_DATA ==>
                Now() == Queued(old(Now()), act.bytes)
      ensures act == DoneAct ==> doneSeen
      ensures act == ErrorAct ==> closed
      ensures act == CloseAct ==> script == old(script) && Now() == ClosedOutside(old(Now()))
      ensures act != ResumeAct && ResumeAct !in old(script) ==> h.afterClose == old(h.afterClose)
      ensures Valid() && Later(old(Now()), Now()) && Fewer(old(script), script)
      decreases |script|, 10
    {
      hide Conserved, Truthful;
      assert act in [act];
      match act
      case SuspendAct => Suspend();
      case ResumeAct => if suspendCount > 0 { Resume(); }
      case Chunk(bytes) => if !doneSeen && |bytes| < SIZE_MODULUS { OnData(bytes); }
      case DoneAct => if !doneSeen { OnDone(); }
      case ErrorAct => OnError();
      case CloseAct => Close();
      case Turn =>
    }

    // ---- Towards the parser and the sink ---------------------------------------------

    /** The parser's record loop; `news` says whether the sink hears of it. */
    method FeedParser() returns (news: bool)
      modifies this`h, this`parser, this`streaming, this`records, this`signals
      ensures Now() == Fed(conv, old(Now())) && news == News(conv, old(Now()))
    {
      if parser.failed { return false; }
      ghost var before := Now();
      var o := Feed(conv, parser, streaming);
      TakeOutcome(o);
      assert Fed(conv, before) == Took(before, o);
      news := o.state.failed || o.records != [];
    }

    method TakeOutcome(o: Outcome)
      requires |o.rest| <= |streaming|
      modifies this`h, this`parser, this`streaming, this`records, this`signals
      ensures Now() == Took(old(Now()), o)
    {
      h := h.(consumed := h.consumed + streaming[..|streaming| - |o.rest|]);
      parser, streaming, records := o.state, o.rest, records + o.records;
      if o.state.failed {
        signals := signals + [BadHeader];
      }
    }

    /** downstream->OnData(streaming_chain_). */
    method ParserOnData()
      requires Core(conv, Now()) && attached && pending == []
      modifies this
      ensures old(script) == [] ==> Now() == Fed(conv, old(Now()))
      ensures !News(conv, old(Now())) ==> script == old(script) && Now() == Fed(conv, old(Now()))
      ensures old(script) == CLOSES && News(conv, old(Now())) ==>
                script == [] && Now() == ClosedOutside(Fed(conv, old(Now())))
      ensures ResumeAct !in old(script) ==> h.afterClose == old(h.afterClose)
      ensures old(script) == [] ==> suspendCount == old(suspendCount)
      ensures Valid() && Later(old(Now()), Now())
      ensures Fewer(old(script), script) && Calm(old(script), old(Now()), Now())
      decreases |script|, 1
    {
      hide Conserved, Truthful;
      ghost var before := Now();
      FeedKeeps(conv, before);
      var news := FeedParser();
      ghost var fed := Now();
      if news {
        Callback();
        LaterTrans(before, fed, Now());
      }
    }

    /** The flags and the parser's own one-shot guard in front of sink->OnError. */
    method MarkError(signal: Signal) returns (news: bool)
      modifies this`h, this`finalized, this`parser, this`signals
      ensures news <==> !old(finalized) && !old(parser.failed)
      ensures Now() == Errored(old(Now()), signal)
    {
      ghost var before := Now();
      MarkOverflow(signal == Overflow);
      if finalized { return false; }
      ghost var marked := Now();
      MarkFinalized();
      news := TellSink(signal);
      ErroredParts(before, marked, signal);
    }

    ghost method MarkOverflow(overflow: bool)
      modifies this`h
      ensures Now() == old(Now()).(overflowed := old(h.overflowed) || overflow)
    {
      h := h.(overflowed := h.overflowed || overflow);
    }

    method MarkFinalized()
      modifies this`finalized
      ensures Now() == old(Now()).(finalized := true)
    {
      finalized := true;
    }

    /** DbnParser's OnError: the parser is closed and the sink told, once. */
    method TellSink(signal: Signal) returns (news: bool)
      modifies this`parser, this`signals
      ensures news <==> !old(parser.failed)
      ensures Now() == if old(parser.failed) then old(Now())
                       else old(Now()).(parser := old(parser).(failed := true), signals := old(signals) + [signal])
    {
      if parser.failed { return false; }
      parser := parser.(failed := true);
      signals := signals + [signal];
      return true;
    }

    method EmitError(signal: Signal)
      requires Core(conv, Now()) && attached && MayReport(conv, Now(), signal)
      modifies this
      ensures old(finalized) || old(parser.failed) ==> signals == old(signals)
      ensures !old(finalized) && !old(parser.failed) ==> signals == [signal]
      ensures h.afterClose == old(h.afterClose)
      ensures old(script) == CLOSES && !old(finalized) && !old(parser.failed) ==>
                script == [] && Now() == ClosedOutside(Errored(old(Now()), signal))
      ensures old(script) == [] ==> suspendCount == old(suspendCount)
      ensures Valid() && Later(old(Now()), Now()) && Fewer(old(script), script)
      ensures signal != UpstreamError ==> Still(old(script), old(Now()), Now())
      ensures signal == Incomplete ==> Calm(old(script), old(Now()), Now())
      ensures finalized && (signal == Overflow ==> h.overflowed)
      decreases |script|, 2
    {
      hide Conserved, Truthful;
      ghost var before := Now();
      ErrorKeeps(conv, before, signal);
      var news := MarkError(signal);
      ghost var reported := Now();
      if news {
        Callback();
        LaterTrans(before, reported, Now());
      }
      NoSecondSignal(conv, before, Now(), signal);
    }

    method EmitDone()
      requires Valid() && doneSeen && streaming == [] && pending == []
      modifies this
      ensures old(finalized) || !attached || old(parser.failed) ==> signals == old(signals)
      ensures old(script) == CLOSES && !old(finalized) && attached && !old(parser.failed) ==>
                script == [] && Now() == ClosedOutside(Done(old(Now())))
      ensures old(script) == [] ==> suspendCount == old(suspendCount)
      ensures Valid() && Later(old(Now()), Now()) && finalized
      ensures Fewer(old(script), script) && Calm(old(script), old(Now()), Now())
      ensures h.nullCall == (old(h.nullCall) || (!attached && !old(finalized)))
      ensures !old(finalized) && attached && !old(parser.failed) ==> signals == [Completed]
      ensures h.afterClose == (old(h.afterClose) || (old(closed) && attached && !old(finalized) && !old(parser.failed)))
      decreases |script|, 2
    {
      hide Conserved, Calm;
      ghost var before := Now();
      DoneKeeps(conv, before);
      ghost var acts := script;
      CalmDone(acts, before);
      if finalized { return; }
      finalized := true;
      if !attached {
        h := h.(nullCall := true);
        return;
      }
      if parser.failed { return; }
      signals, h := signals + [Completed], h.(afterClose := h.afterClose || closed);
      ghost var reported := Now();
      assert reported == Done(before);
      Callback();
      LaterTrans(before, reported, Now());
      CalmTrans(acts, acts, before, reported, Now());
    }

    /** Suspendable::Close, called from outside. */
    method Close()
      requires Valid()
      modifies this`closed, this`h
      ensures Valid() && Later(old(Now()), Now()) && Now() == ClosedOutside(old(Now()))
    {
      UserCloseKeeps(conv, Now());
      h := h.(userClosed := true);
      closed := true;
    }

    method RequestClose()
      requires Valid() && (finalized || h.userClosed)
      modifies this`closed
      ensures Valid() && Later(old(Now()), Now()) && closed
    {
      CloseKeeps(conv, Now());
      closed := true;
    }

    // ---- CramAuth's binary path ------------------------------------------------------

    /** The check in SpliceChecked. A refusal ends the stream. */
    method Fits(target: nat, source: nat) returns (ok: bool)
      requires Core(conv, Now()) && attached && (Idle(conv, Now()) || !doneSeen)
      requires target <= MAX_PENDING_DATA && source < SIZE_MODULUS
      modifies this
      ensures !ok ==> signals != [Completed] || old(signals) == [Completed]
      ensures h.afterClose == old(h.afterClose)
      ensures !ok ==> source != 0 && target + source > MAX_PENDING_DATA && signals != []
      ensures old(script) == [] ==> suspendCount == old(suspendCount)
      ensures ok ==> unchanged(this) && target + source <= MAX_PENDING_DATA
      ensures !ok ==> Valid() && h.overflowed && finalized && closed
      ensures Later(old(Now()), Now()) && Fewer(old(script), script) && Still(old(script), old(Now()), Now())
      decreases |script|, 3
    {
      hide Conserved, Truthful;
      WouldOverflowMeaning(target, source, MAX_PENDING_DATA);
      if source == 0 { return true; }
      if WouldOverflow(target, source, MAX_PENDING_DATA) {
        ghost var before := Now();
        EmitError(Overflow);
        ghost var reported := Now();
        RequestClose();
        LaterTrans(before, reported, Now());
        return false;
      }
      return true;
    }

    /** SpliceChecked(streaming_chain_, pending_chain_). */
    method SplicePending() returns (ok: bool)
      requires Core(conv, Now()) && Idle(conv, Now())
      modifies this
      ensures !ok ==>
                |old(streaming)| + |old(pending)| > MAX_PENDING_DATA
                && (signals == [Completed] ==> old(signals) == [Completed])
      ensures h.afterClose == old(h.afterClose)
      ensures old(script) == [] ==> suspendCount == old(suspendCount)
      ensures ok ==> Core(conv, Now()) && Now() == Spliced(old(Now())) && script == old(script)
      ensures !ok ==> Valid() && attached && finalized && h.overflowed
      ensures Later(old(Now()), Now()) && Fewer(old(script), script) && Calm(old(script), old(Now()), Now())
      decreases |script|, 4
    {
      hide Conserved, Truthful;
      if pending == [] {
        assert Now() == Spliced(Now());
        return true;
      }
      ghost var before := Now();
      ok := Fits(|streaming|, |pending|);
      if ok {
        SpliceKeeps(conv, before);
        streaming, pending := streaming + pending, [];
      }
    }

    method ForwardBinaryData(data: seq<byte>)
      requires Core(conv, Now()) && Idle(conv, Now()) && attached && !doneSeen && |data| < SIZE_MODULUS
      modifies this
      ensures ResumeAct !in old(script) ==> h.afterClose == old(h.afterClose)
      ensures h.overflowed || old(h.received) + data <= h.received
      ensures old(script) == [] ==> suspendCount == old(suspendCount)
      ensures Tame(old(script)) ==>
                && Quietly(old(Now()), Now()) && (h.overflowed || h.received == old(h.received) + data)
                && (h.overflowed ==> old(h.overflowed) || Waiting(old(Now())) + |data| > MAX_PENDING_DATA)
      ensures old(script) == [] && Waiting(old(Now())) + |data| <= MAX_PENDING_DATA ==>
                Now() == Fed(conv, Accepted(Spliced(old(Now())), data))
      ensures Valid() && Later(old(Now()), Now()) && Fewer(old(script), script)
      decreases |script|, 5
    {
      hide Conserved, Truthful;
      ghost var before := Now();
      var ok := SplicePending();
      if !ok { return; }
      ghost var spliced := Now();
      ok := Fits(|streaming|, |data|);
      LaterTrans(before, spliced, Now());
      if !ok { return; }
      AcceptKeeps(conv, spliced, data);
      streaming, h := streaming + data, h.(received := h.received + data);
      LaterTrans(before, spliced, Now());
      ghost var accepted := Now();
      ParserOnData();
      LaterTrans(before, accepted, Now());
    }

    /** OnData in state Streaming. */
    method OnData(data: seq<byte>)
      requires Valid() && !doneSeen && |data| < SIZE_MODULUS
      modifies this
      ensures !old(closed) ==> h.overflowed || old(h.received) + data <= h.received
      ensures !old(closed) && old(suspendCount) > 0 && |old(pending)| + |data| <= MAX_PENDING_DATA ==>
                script == old(script) && Now() == Queued(old(Now()), data)
      ensures ResumeAct !in old(script) ==> h.afterClose == old(h.afterClose)
      ensures old(script) == [] ==> suspendCount == old(suspendCount)
      ensures Tame(old(script)) ==>
                && Quietly(old(Now()), Now()) && (h.overflowed || old(closed) || h.received == old(h.received) + data)
                && (h.overflowed ==> old(h.overflowed) || Waiting(old(Now())) + |data| > MAX_PENDING_DATA)
      ensures !old(closed) && old(suspendCount) == 0 && old(script) == []
              && Waiting(old(Now())) + |data| <= MAX_PENDING_DATA ==>
                Now() == Fed(conv, Accepted(Spliced(old(Now())), data))
      ensures Valid() && Later(old(Now()), Now()) && Fewer(old(script), script)
      ensures old(closed) ==> unchanged(this)
      decreases |script|, 8
    {
      hide Conserved, Truthful;
      if closed { return; }
      if suspendCount > 0 {
        ghost var before := Now();
        var ok := Fits(|pending|, |data|);
        if ok {
          QueueKeeps(conv, before, data);
          pending, h := pending + data, h.(received := h.received + data);
        }
      } else {
        ForwardBinaryData(data);
      }
    }

    method ProcessPending()
      requires Core(conv, Now()) && Idle(conv, Now()) && attached
      modifies this
      ensures ResumeAct !in old(script) ==> h.afterClose == old(h.afterClose)
      ensures |old(streaming)| + |old(pending)| > MAX_PENDING_DATA ==> finalized
      ensures old(script) == [] && |old(streaming)| + |old(pending)| <= MAX_PENDING_DATA ==>
                Now() == Fed(conv, Spliced(old(Now())))
      ensures old(script) == CLOSES && |old(streaming)| + |old(pending)| <= MAX_PENDING_DATA ==>
                var t := Fed(conv, Spliced(old(Now())));
                (script == CLOSES && Now() == t) || (script == [] && Now() == ClosedOutside(t))
      ensures old(script) == [] ==> suspendCount == old(suspendCount)
      ensures Valid() && Later(old(Now()), Now())
      ensures Fewer(old(script), script) && Calm(old(script), old(Now()), Now())
      decreases |script|, 5
    {
      hide Conserved, Truthful;
      ghost var before := Now();
      var ok := SplicePending();
      if !ok { return; }
      if streaming == [] {
        EmptyIdle(conv, Now());
        FedNothing(conv, Now());
        return;
      }
      ghost var spliced := Now();
      ParserOnData();
      LaterTrans(before, spliced, Now());
    }

    // ---- Suspendable -----------------------------------------------------------------

    method Suspend()
      requires Valid()
      modifies this`suspendCount
      ensures Valid() && Later(old(Now()), Now()) && suspendCount == old(suspendCount) + 1
    {
      SuspendKeeps(conv, Now());
      suspendCount := suspendCount + 1;
    }

    /** A call through the reset downstream pointer happens exactly here: the last hold is
        released, after DoClose, on a component that still has an OnDone deferred. */
    method Resume()
      requires Valid() && suspendCount > 0
      modifies this
      ensures old(closed) && old(script) == [] && old(suspendCount) == 1 && old(donePending)
              && Completes(conv, old(Now())) ==>
                signals == [Completed]
      ensures old(closed) && old(signals) == [] && signals == [Completed] ==>
          old(suspendCount) == 1 && old(donePending) && Completes(conv, old(Now()))
      ensures old(script) == [] ==>
                h.afterClose == (old(h.afterClose) ||
                  (old(closed) && old(suspendCount) == 1 && old(donePending) && Completes(conv, old(Now()))))
      ensures old(script) == CLOSES && !old(closed) ==>
                (h.afterClose <==> old(suspendCount) == 1 && old(donePending) && Completes(conv, old(Now())))
      ensures old(closed) && h.afterClose && !old(h.afterClose) ==>
                old(suspendCount) == 1 && old(donePending) && Completes(conv, old(Now()))
      ensures old(suspendCount) > 1 ==>
          Now() == old(Now()).(suspendCount := old(suspendCount) - 1) && script == old(script)
      ensures old(script) == [] ==> suspendCount == old(suspendCount) - 1
      ensures Valid() && Later(old(Now()), Now())
      ensures Fewer(old(script), script) && Calm(old(script), old(Now()), Now())
      ensures h.nullCall == (old(h.nullCall) ||
                (old(suspendCount) == 1 && old(donePending) && !old(attached) && !old(finalized)))
      decreases |script|, 8
    {
      hide Conserved, Truthful, Completes, Calm, Tame;
      ghost var before, acts := Now(), script;
      if suspendCount > 1 {
        ReleaseKeeps(conv, before);
        suspendCount := suspendCount - 1;
        CalmCounts(acts, before, Now());
        return;
      }
      ReleaseLast();
      ghost var released := Now();
      CalmCounts(acts, before, released);
      SameCompletes(conv, before, released);
      if !closed {
        DrainAndResume();
        CalmTrans(acts, acts, before, released, Now());
      }
      ghost var drained, left := Now(), script;
      CompleteDeferred(before);
      CalmTrans(acts, left, before, drained, Now());
      FewerTrans(acts, left, script);
    }

    method ReleaseLast()
      requires Valid() && suspendCount == 1
      modifies this`suspendCount, this`h
      ensures Now() == Resuming(old(Now()))
      ensures Core(conv, Now()) && Idle(conv, Now()) && (if closed then Valid() else attached)
    {
      ResumingKeeps(conv, Now());
      suspendCount, h := 0, h.(resuming := h.resuming + 1);
    }

    /** The part of Resume that runs only while the component is open. A callback that at most
        closes the stream does not change whether it can complete. */
    method DrainAndResume()
      requires Core(conv, Now()) && Idle(conv, Now()) && attached && suspendCount == 0 && !closed
      modifies this
      ensures ResumeAct !in old(script) ==> h.afterClose == old(h.afterClose)
      ensures old(script) == [] || old(script) == CLOSES ==>
                && (Completes(conv, Now()) <==> Completes(conv, old(Now())))
                && (Completes(conv, Now()) ==>
                      && script == [] && closed == (old(script) == CLOSES)
                      && suspendCount == 0 && donePending == old(donePending))
      ensures old(script) == [] ==> suspendCount == old(suspendCount)
      ensures Valid() && Later(old(Now()), Now())
      ensures Fewer(old(script), script) && Calm(old(script), old(Now()), Now())
      decreases |script|, 6
    {
      ghost var released := Now();
      FedKeepsRest(conv, Spliced(released));
      if |streaming| + |pending| <= MAX_PENDING_DATA {
        CompletesRead(conv, released);
      } else if Completes(conv, released) {
        CompletesFlushes(conv, released);
      }
      hide Conserved, Truthful, Fed;
      ProcessPending();
      if suspendCount == 0 {
        ghost var processed := Now();
        Callback();                                // upstream->Resume()
        LaterTrans(released, processed, Now());
      }
    }

    /** The Resume frame takes the deferred OnDone up. */
    method StartFlush()
      requires Valid() && h.resuming > 0 && donePending
      modifies this`donePending, this`h
      ensures Core(conv, Now()) && Idle(conv, Now())
      ensures Now() == Flushing(old(Now())).(resuming := old(h.resuming) - 1)
    {
      hide Conserved, Truthful;
      ResumedFlushing(conv, Now());
      donePending, h := false, h.(resuming := h.resuming - 1, flushing := h.flushing + 1);
    }

    /** A Resume frame returns. */
    ghost method EndResume()
      requires Valid() && h.resuming > 0 && (donePending ==> suspendCount > 0)
      modifies this`h
      ensures Valid() && Now() == old(Now()).(resuming := old(h.resuming) - 1)
    {
      hide Conserved, Truthful;
      ResumedKeeps(conv, Now());
      h := h.(resuming := h.resuming - 1);
    }

    /** A FlushAndComplete frame returns. */
    ghost method EndFlush()
      requires Valid() && h.flushing > 0 && (donePending || finalized)
      modifies this`h
      ensures Valid() && Now() == old(Now()).(flushing := old(h.flushing) - 1)
    {
      hide Conserved, Truthful;
      FlushedKeeps(conv, Now());
      h := h.(flushing := h.flushing - 1);
    }

    /** The end of Resume: complete an OnDone that is still deferred, unless suspended again. */
    method CompleteDeferred(ghost before: State)
      requires Valid() && h.resuming > 0 && before.suspendCount == 1
      requires Now() == Resuming(before) || Later(Resuming(before), Now())
      modifies this
      ensures old(script) == [] && old(donePending) && old(suspendCount) == 0 && Completes(conv, old(Now())) ==>
          signals == [Completed]
      ensures old(signals) == [] && signals == [Completed] ==>
          old(donePending) && old(suspendCount) == 0 && Completes(conv, old(Now()))
      ensures !old(closed) || old(finalized) ==> h.afterClose == old(h.afterClose)
      ensures h.afterClose && !old(h.afterClose) ==>
                old(donePending) && old(suspendCount) == 0 && Completes(conv, old(Now()))
      ensures old(script) == [] ==>
                h.afterClose == (old(h.afterClose) ||
                  (old(closed) && old(donePending) && old(suspendCount) == 0 && Completes(conv, old(Now()))))
      ensures old(h.overflowed) ==> h.overflowed
      ensures old(script) == [] ==> suspendCount == old(suspendCount)
      ensures Valid() && Later(before, Now()) && Fewer(old(script), script) && Calm(old(script), old(Now()), Now())
      ensures old(donePending) && old(suspendCount) == 0 && !attached && !old(finalized) ==> h.nullCall
      ensures !(old(donePending) && old(suspendCount) == 0 && !attached && !old(finalized)) ==>
          h.nullCall == old(h.nullCall)
      decreases |script|, 7, 1
    {
      hide Conserved, Truthful, Completes, Tame;
      ghost var processed := Now();
      ResumedLater(before, processed);
      if donePending && suspendCount == 0 {
        TakeUpDone();
        LaterTrans(before, processed.(resuming := processed.resuming - 1), Now());
      } else {
        EndResume();
      }
    }

    /** The frame that does it. */
    method TakeUpDone()
      requires Valid() && h.resuming > 0 && donePending && suspendCount == 0
      modifies this
      ensures old(script) == [] && Completes(conv, old(Now())) ==> signals == [Completed]
      ensures old(signals) == [] && signals == [Completed] ==> Completes(conv, old(Now()))
      ensures !old(closed) ==> h.afterClose == old(h.afterClose)
      ensures h.afterClose && !old(h.afterClose) ==> Completes(conv, old(Now()))
      ensures old(script) == [] ==> h.afterClose == (old(h.afterClose) || (old(closed) && Completes(conv, old(Now()))))
      ensures old(script) == [] ==> suspendCount == 0
      ensures Valid() && Later(old(Now()).(resuming := old(h.resuming) - 1), Now())
      ensures Fewer(old(script), script) && Calm(old(script), old(Now()), Now())
      ensures h.nullCall == (old(h.nullCall) || (!attached && !old(finalized)))
      decreases |script|, 7, 0
    {
      hide Conserved, Truthful, Completes, Tame;
      ghost var processed := Now();
      StartFlush();
      SameCompletes(conv, processed, Now());
      FlushAndComplete();
      EndFlush();
    }

    // ---- End of stream ---------------------------------------------------------------

    /** FlushPendingData(streaming_chain_): true when completion must not happen now. */
    method FlushPendingData() returns (deferred: bool)
      requires Core(conv, Now()) && pending == [] && doneSeen && h.flushing > 0
      modifies this
      ensures old(script) == [] && !deferred ==> Now() == Fed(conv, old(Now()))
      ensures old(script) == [] && old(suspendCount) == 0 ==> deferred == (Fed(conv, old(Now())).streaming != [])
      ensures old(script) == [] && old(suspendCount) == 0 && deferred ==>
          (signals == [Completed] ==> old(signals) == [Completed])
      ensures old(script) == [] ==> suspendCount == old(suspendCount)
      ensures Valid() && Later(old(Now()), Now())
      ensures Fewer(old(script), script) && Calm(old(script), old(Now()), Now())
      ensures deferred ==> (donePending || finalized) && attached
      ensures !deferred ==> streaming == [] && pending == []
      ensures old(streaming) == [] ==> !deferred && unchanged(this)
      ensures ResumeAct !in old(script) ==> h.afterClose == old(h.afterClose)
      ensures Idle(conv, old(Now())) ==>
                h.afterClose == old(h.afterClose) && (!deferred ==> Now() == old(Now()))
      decreases |script|, 5, 0
    {
      hide Conserved, Truthful, Fed, Tame, Calm, News, Feed;
      ghost var before, acts := Now(), script;
      CalmCounts(acts, before, before);
      if streaming == [] {
        FedNothing(conv, before);
        EmptyIdle(conv, before);
        return false;
      }
      assert attached;
      if Idle(conv, before) { IdleFed(conv, before); }
      ParserOnData();
      ghost var fed, left := Now(), script;
      FedSignals(conv, before);
      if suspendCount > 0 {
        DeferDone();
        LaterTrans(before, fed, Now());
        CalmTrans(acts, left, before, fed, Now());
        return true;
      }
      if streaming != [] {
        RefuseRest();
        LaterTrans(before, fed, Now());
        CalmTrans(acts, left, before, fed, Now());
        FewerTrans(acts, left, script);
        return true;
      }
      return false;
    }

    /** DeferOnDone. */
    method DeferDone()
      requires Valid() && doneSeen && suspendCount > 0
      modifies this`donePending
      ensures Valid() && Later(old(Now()), Now()) && donePending && Calm(script, old(Now()), Now())
    {
      DeferKeeps(conv, Now());
      donePending := true;
    }

    /** Leftover bytes that will never be a record. */
    method RefuseRest()
      requires Valid() && doneSeen && streaming != [] && pending == [] && attached
      modifies this
      ensures signals == [Completed] ==> old(signals) == [Completed]
      ensures h.afterClose == old(h.afterClose) && finalized
      ensures old(script) == [] ==> suspendCount == old(suspendCount)
      ensures Valid() && Later(old(Now()), Now())
      ensures Fewer(old(script), script) && Calm(old(script), old(Now()), Now())
      decreases |script|, 3
    {
      hide Conserved, Truthful;
      ghost var before := Now();
      EmitError(Incomplete);
      ghost var reported := Now();
      RequestClose();
      LaterTrans(before, reported, Now());
    }

    method FlushAndComplete()
      requires Core(conv, Now()) && Idle(conv, Now()) && doneSeen && h.flushing > 0
      modifies this
      ensures old(script) == [] && old(suspendCount) == 0 && Completes(conv, old(Now())) ==> signals == [Completed]
      ensures old(signals) == [] && signals == [Completed] ==> Completes(conv, old(Now()))
      ensures !old(closed) && old(pending) == [] ==> h.afterClose == old(h.afterClose)
      ensures h.afterClose && !old(h.afterClose) ==> Completes(conv, old(Now()))
      ensures old(script) == [] && old(suspendCount) == 0 ==>
                h.afterClose == (old(h.afterClose) || (old(closed) && Completes(conv, old(Now()))))
      ensures old(script) == [] ==> suspendCount == old(suspendCount)
      ensures Valid() && Later(old(Now()), Now())
      ensures Fewer(old(script), script) && Calm(old(script), old(Now()), Now())
      ensures donePending || finalized
      ensures h.nullCall == (old(h.nullCall) || (!attached && !old(finalized)))
      decreases |script|, 6
    {
      hide Conserved, Truthful, Completes, Fed, Calm;
      ghost var before, acts := Now(), script;
      if Completes(conv, before) { CompletesFlushes(conv, before); }
      FedKeepsRest(conv, Spliced(before));
      var ok := SplicePending();
      if !ok { return; }
      ghost var spliced := Now();
      if before.pending == [] { SplicedIdle(conv, before); }
      CompleteWithFlush();
      LaterTrans(before, spliced, Now());
      CalmSplit(acts, before, spliced, Now());
      if attached { FlushCompletes(conv, before, Now()); }
    }

    /** With the RequestClose that follows a completion. */
    method CompleteWithFlush()
      requires Core(conv, Now()) && pending == [] && doneSeen && h.flushing > 0
      modifies this
      ensures old(script) == [] && old(suspendCount) == 0 && attached && !old(finalized) ==>
                var t := Fed(conv, old(Now()));
                !t.parser.failed && t.streaming == [] ==>
                  signals == [Completed] && h.afterClose == (old(h.afterClose) || old(closed))
      ensures !old(closed) && (Idle(conv, old(Now())) || (old(script) == [] && old(suspendCount) == 0)) ==>
                h.afterClose == old(h.afterClose)
      ensures !attached ==> signals == old(signals) && h.afterClose == old(h.afterClose)
      ensures old(script) == [] ==> suspendCount == old(suspendCount)
      ensures Valid() && Later(old(Now()), Now())
      ensures Fewer(old(script), script) && Calm(old(script), old(Now()), Now())
      ensures donePending || finalized
      ensures h.nullCall == (old(h.nullCall) || (!attached && !old(finalized)))
      decreases |script|, 5, 1
    {
      hide Conserved, Truthful, Fed, Calm;
      ghost var before, acts := Now(), script;
      FedKeepsRest(conv, before);
      var deferred := FlushPendingData();
      if deferred { return; }
      ghost var flushed, left := Now(), script;
      Finish();
      LaterTrans(before, flushed, Now());
      CalmTrans(acts, left, before, flushed, Now());
      FewerTrans(acts, left, script);
    }

    /** EmitDone and the close behind it. */
    method Finish()
      requires Valid() && doneSeen && streaming == [] && pending == []
      modifies this
      ensures old(finalized) || !attached || old(parser.failed) ==> signals == old(signals)
      ensures old(script) == [] ==> suspendCount == old(suspendCount)
      ensures Valid() && Later(old(Now()), Now()) && finalized
      ensures Fewer(old(script), script) && Calm(old(script), old(Now()), Now())
      ensures h.nullCall == (old(h.nullCall) || (!attached && !old(finalized)))
      ensures !old(finalized) && attached && !old(parser.failed) ==> signals == [Completed]
      ensures h.afterClose == (old(h.afterClose) || (old(closed) && attached && !old(finalized) && !old(parser.failed)))
      decreases |script|, 3
    {
      hide Inv;
      ghost var before := Now();
      EmitDone();
      ghost var done := Now();
      RequestClose();
      LaterTrans(before, done, Now());
    }

    method OnDone()
      requires Valid() && !doneSeen
      modifies this
      ensures old(script) == [] ==> suspendCount == old(suspendCount)
      ensures Tame(old(script)) ==>
                && h.userClosed == old(h.userClosed) && h.received == old(h.received)
                && (h.overflowed ==> old(h.overflowed) || Waiting(old(Now())) > MAX_PENDING_DATA)
      ensures Tame(old(script)) && signals == [UpstreamError] ==> old(signals) == [UpstreamError]
      ensures Valid() && Later(old(Now()), Now()) && Fewer(old(script), script) && doneSeen
      ensures old(closed) ==> unchanged(`records, `signals, `donePending)
      ensures !old(closed) && old(suspendCount) > 0 ==>
                script == old(script) && Now() == old(Now()).(doneSeen := true, donePending := true)
      ensures h.afterClose == old(h.afterClose)
      decreases |script|, 8
    {
      hide Conserved, Truthful;
      ghost var before := Now();
      if closed {
        DoneWaits(conv, before, false);
        doneSeen := true;
        return;
      }
      if suspendCount > 0 {
        DoneWaits(conv, before, true);
        doneSeen, donePending := true, true;
        return;
      }
      DoneStarts(conv, before);
      doneSeen, h := true, h.(flushing := h.flushing + 1);
      ghost var started := Now();
      FlushAndComplete();
      DoneLater(before, started, Now());
      EndFlush();
    }

    /** PropagateError. */
    method OnError()
      requires Valid()
      modifies this
      ensures !old(closed) && !old(finalized) && !old(parser.failed) ==> signals == [UpstreamError]
      ensures !old(closed) ==> closed && finalized
      ensures h.afterClose == old(h.afterClose)
      ensures old(script) == [] ==> suspendCount == old(suspendCount)
      ensures Valid() && Later(old(Now()), Now()) && Fewer(old(script), script)
      ensures old(closed) ==> unchanged(this)
      decreases |script|, 8
    {
      hide Conserved;
      if closed { return; }
      ghost var before := Now();
      EmitError(UpstreamError);
      ghost var reported := Now();
      RequestClose();
      LaterTrans(before, reported, Now());
    }

    // ---- The event loop --------------------------------------------------------------

    /** The deferred DoClose. */
    method RunDeferred()
      requires Valid() && AtTop(Now())
      modifies this`attached, this`streaming, this`pending
      ensures Valid() && AtTop(Now())
      ensures old(closed) ==> !attached && streaming == [] && pending == []
    {
      hide Conserved, Truthful;
      if closed {
        DetachKeeps(conv, Now());
        attached, streaming, pending := false, [], [];
      }
    }

    /** A whole run, from any moment with an empty stack. */
    method Run()
      requires Valid() && AtTop(Now())
      modifies this
      ensures Valid() && AtTop(Now()) && script == []
      ensures old(script) == CLOSES ==> closed && !attached
    {
      hide Conserved, Truthful;
      while script != []
        invariant Valid() && AtTop(Now())
        invariant old(script) == CLOSES ==>
                    script == CLOSES || (script == [Turn] && closed) || (script == [] && closed && !attached)
        decreases |script|
      {
        var act := NextAct();
        if act == Turn {
          RunDeferred();
        } else {
          Perform(act);
        }
      }
    }
  }

  /** The condition in Resume's contract is met by a run: OnDone arrives while suspended, the
      stream is closed from outside, the loop runs DoClose, and the last hold is released. */
  method DeferredDoneOutlivesClose(conv: Converters) returns (s: Stream)
    ensures s.Valid() && s.h.nullCall
  {
    s := new Stream(conv, []);
    s.Suspend();
    s.OnDone();
    s.Close();
    s.RunDeferred();
    s.Resume();
  }

  /** Completion after a close: OnDone arrives while suspended, the stream is closed from outside,
      and before the loop has run DoClose the last hold is released. */
  method CompletionFollowsClose(conv: Converters) returns (s: Stream)
    ensures s.Valid() && s.h.afterClose && s.signals == [Completed]
  {
    s := new Stream(conv, []);
    s.Suspend();
    s.OnDone();
    s.Close();
    assert s.streaming + s.pending == [];
    s.Resume();
  }

  /** The same with the close inside the call that releases the last hold, when Resume has resumed
      upstream and upstream's owner closes the stream. */
  method CompletionFollowsCloseUpstream(conv: Converters) returns (s: Stream)
    ensures s.Valid() && s.h.afterClose && s.signals == [Completed]
  {
    s := new Stream(conv, CLOSES);
    s.Suspend();
    s.OnDone();
    assert s.streaming + s.pending == [];
    s.Resume();
  }

  /** And with the close made by the sink, when it is handed a record that had been waiting. */
  method CompletionFollowsCloseBySink(conv: Converters, r: seq<byte>) returns (s: Stream)
    requires WellFormed(r) && !HasMagic(r) && |r| < SIZE_MODULUS
    ensures s.Valid() && s.h.afterClose && s.signals == [Completed] && s.records == [r]
  {
    s := new Stream(conv, CLOSES);
    s.Suspend();
    s.OnData(r);
    s.OnDone();
    assert s.streaming + s.pending == r && r + [] == r && s.h.received == r;
    GoodRecord(conv, r, []);
    s.Resume();
  }

  /** Bookkeeping of frames around nested calls. */
  lemma {:induction false} ResumedLater(before: State, processed: State)
    requires before.suspendCount == 1 && (processed == Resuming(before) || Later(Resuming(before), processed))
    requires processed.resuming > 0
    ensures Later(before, processed.(resuming := processed.resuming - 1))
  {
  }

  lemma {:induction false} DoneLater(before: State, started: State, settled: State)
    requires !before.doneSeen && started == before.(doneSeen := true, flushing := before.flushing + 1)
        && Later(started, settled)
    requires settled.flushing > 0
    ensures Later(before, settled.(flushing := settled.flushing - 1))
  {
  }

  lemma {:induction false} ReleaseKeeps(conv: Converters, s: State)
    requires Inv(conv, s) && s.suspendCount > 1
    ensures var t := s.(suspendCount := s.suspendCount - 1); Inv(conv, t) && Later(s, t)
  {
  }

  lemma {:induction false} EmptyIdle(conv: Converters, s: State)
    requires Core(conv, s) && s.streaming == [] && s.pending == []
    ensures Inv(conv, s)
  {
  }
}
