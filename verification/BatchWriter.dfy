/** BatchWriter's queue: producers enqueue, one writer coroutine takes everything that waits and
    writes it. The steps of the event loop are enqueue, stop, drain and its timeout, and the two
    points at which the coroutine runs: when it is first resumed and when a write has ended.
    Upstream does not call back from Suspend or Resume. */
module BatchWriter {
  import opened Bytes

  datatype Batch = Batch(records: seq<seq<byte>>)

  /** `high` and `low` are the marks; without an upstream nobody is ever suspended. */
  datatype Config = Config(upstream: bool, high: nat, low: nat)

  /** Where process_queue is. */
  datatype Writer = Idle | Spawned | Writing(batches: seq<Batch>)

  datatype Call = SuspendCall | ResumeCall

  /** One COPY: the batches it was given, and whether it succeeded. A failed one is reported and
      its batches are gone. */
  datatype Write = Write(batches: seq<Batch>, ok: bool)

  /** The fields, the calls made to upstream, and for the statements below what became of the
      batches: accepted, handed to a write that has ended, discarded by a stop. */
  datatype State = State(pending: seq<Batch>, writer: Writer, suspended: bool, draining: bool, stopping: bool,
                         calls: seq<Call>, accepted: seq<Batch>, handed: seq<Write>, discarded: seq<Batch>)

  const INITIAL := State([], Idle, false, false, false, [], [], [], [])

  // ---- The steps ---------------------------------------------------------------------

  function CheckBackpressure(c: Config, s: State): State {
    if c.upstream && |s.pending| > c.high then s.(suspended := true, calls := s.calls + [SuspendCall]) else s
  }

  function ResumeUpstream(c: Config, s: State): State {
    if c.upstream && s.suspended then s.(suspended := false, calls := s.calls + [ResumeCall]) else s
  }

  function CheckResume(c: Config, s: State): State { if |s.pending| < c.low then ResumeUpstream(c, s) else s }

  function Enqueued(c: Config, s: State, b: Batch): State {
    if s.stopping || s.draining then s
    else
      var t := CheckBackpressure(c, s.(pending := s.pending + [b], accepted := s.accepted + [b]));
      if t.writer == Idle then t.(writer := Spawned) else t
  }

  function Stopped(c: Config, s: State): State {
    ResumeUpstream(c, s.(stopping := true, pending := [], discarded := s.discarded + s.pending))
  }

  function DrainBegun(c: Config, s: State): State { ResumeUpstream(c, s.(draining := true)) }

  /** The wait in drain() ran out. What is pending stays, and nobody will write it. */
  function DrainTimedOut(s: State): State { if s.draining && s.writer != Idle then s.(stopping := true) else s }

  /** One turn of the coroutine's loop: take everything, or finish. */
  function Round(s: State): State {
    if s.pending != [] && !s.stopping then s.(writer := Writing(s.pending), pending := []) else s.(writer := Idle)
  }

  function WriterStarted(s: State): State
    requires s.writer.Spawned?
  {
    Round(s)
  }

  /** A write ended, well or badly. */
  function WriteEnded(c: Config, s: State, ok: bool): State
    requires s.writer.Writing?
  {
    Round(CheckResume(c, s.(handed := s.handed + [Write(s.writer.batches, ok)])))
  }

  datatype Op = EnqueueOp(batch: Batch) | StopOp | DrainOp | TimeoutOp | WriterOp(ok: bool)

  /** WriterOp lets the coroutine run to its next wait, `ok` being the outcome of the write it
      waits for, if any; without a coroutine nothing happens. */
  function Apply(c: Config, s: State, op: Op): State {
    match op
    case EnqueueOp(b) => Enqueued(c, s, b)
    case StopOp => Stopped(c, s)
    case DrainOp => DrainBegun(c, s)
    case TimeoutOp => DrainTimedOut(s)
    case WriterOp(ok) =>
      match s.writer
      case Idle => s
      case Spawned => WriterStarted(s)
      case Writing(_) => WriteEnded(c, s, ok)
  }

  function Run(c: Config, s: State, ops: seq<Op>): State
    decreases |ops|
  {
    if ops == [] then s else Run(c, Apply(c, s, ops[0]), ops[1..])
  }

  // ---- The component -----------------------------------------------------------------

  class Queue {
    const config: Config
    var pending: seq<Batch>
    var writing: bool
    var current: Option<seq<Batch>>
    var suspended: bool
    var draining: bool
    var stopping: bool
    var calls: seq<Call>
    ghost var accepted: seq<Batch>
    ghost var handed: seq<Write>
    ghost var discarded: seq<Batch>

    /** `current` is the coroutine's local list while it waits for a write. */
    ghost function Now(): State
      reads this
    {
      State(pending, if !writing then Idle else if current.None? then Spawned else Writing(current.value),
            suspended, draining, stopping, calls, accepted, handed, discarded)
    }

    constructor (config: Config)
      ensures Now() == INITIAL && this.config == config
    {
      this.config := config;
      pending, writing, current, suspended, draining, stopping := [], false, None, false, false, false;
      calls, accepted, handed, discarded := [], [], [], [];
    }

    method ResumeIfSuspended()
      modifies this
      ensures Now() == ResumeUpstream(config, old(Now()))
    {
      if config.upstream && suspended {
        calls := calls + [ResumeCall];
        suspended := false;
      }
    }

    method Enqueue(b: Batch)
      modifies this
      ensures Now() == Enqueued(config, old(Now()), b)
    {
      if stopping || draining { return; }
      pending := pending + [b];
      accepted := accepted + [b];
      if config.upstream && |pending| > config.high {
        calls := calls + [SuspendCall];
        suspended := true;
      }
      if !writing {
        writing := true;
        current := None;
      }
    }

    method RequestStop()
      modifies this
      ensures Now() == Stopped(config, old(Now()))
    {
      stopping := true;
      discarded := discarded + pending;
      pending := [];
      ResumeIfSuspended();
    }

    method DrainBegin()
      modifies this
      ensures Now() == DrainBegun(config, old(Now()))
    {
      draining := true;
      ResumeIfSuspended();
    }

    method DrainTimeout()
      requires draining
      modifies this
      ensures Now() == DrainTimedOut(old(Now()))
    {
      if writing && !stopping { stopping := true; }
    }

    method TakeAll() returns (batches: seq<Batch>)
      modifies `pending
      ensures batches == old(pending) && pending == []
    {
      batches := [];
      while pending != []
        invariant batches + pending == old(pending)
        decreases |pending|
      {
        assert batches + [pending[0]] + pending[1..] == batches + pending;
        batches := batches + [pending[0]];
        pending := pending[1..];
      }
    }

    /** The loop of process_queue up to its next wait. */
    method NextRound()
      requires writing
      modifies this
      ensures Now() == Round(old(Now()))
    {
      if pending != [] && !stopping {
        var batches := TakeAll();
        current := Some(batches);
      } else {
        writing := false;
        current := None;
      }
    }

    method StartWriter()
      requires writing && current.None?
      modifies this
      ensures Now() == WriterStarted(old(Now()))
    {
      NextRound();
    }

    /** co_await write_batch returned or threw; either way the loop goes on without the batches. */
    method EndWrite(ok: bool)
      requires writing && current.Some?
      modifies this
      ensures Now() == WriteEnded(config, old(Now()), ok)
    {
      handed := handed + [Write(current.value, ok)];
      if |pending| < config.low { ResumeIfSuspended(); }
      NextRound();
    }
  }

  // ---- Conservation and wakeups ------------------------------------------------------

  function Flat(writes: seq<Write>): seq<Batch> {
    if writes == [] then [] else Flat(writes[..|writes| - 1]) + writes[|writes| - 1].batches
  }

  /** The batches of the writes that succeeded. */
  function Written(writes: seq<Write>): seq<Batch> {
    if writes == [] then []
    else
      var last := writes[|writes| - 1];
      Written(writes[..|writes| - 1]) + (if last.ok then last.batches else [])
  }

  function Current(w: Writer): seq<Batch> { if w.Writing? then w.batches else [] }

  /** Every accepted batch, in the order of acceptance, is in exactly one place. */
  ghost predicate Conserved(s: State) {
    && s.accepted == Flat(s.handed) + Current(s.writer) + s.discarded + s.pending
    && (s.discarded != [] ==> s.pending == [] && s.stopping)
  }

  /** Work that waits has a writer, unless the queue was told to stop. */
  ghost predicate Awake(s: State) { s.pending != [] && !s.stopping ==> s.writer != Idle }

  /** The flag says what upstream was told last, and Resume is only called to undo a Suspend. */
  ghost predicate Told(c: Config, s: State) {
    && (s.suspended <==> s.calls != [] && s.calls[|s.calls| - 1] == SuspendCall)
    && (forall i :: 0 <= i < |s.calls| && s.calls[i] == ResumeCall ==> i > 0 && s.calls[i - 1] == SuspendCall)
    && (s.stopping || s.draining ==> !s.suspended)
    && (!c.upstream ==> s.calls == [])
  }

  /** A suspended upstream has a writer that will resume it. */
  ghost predicate Resumable(s: State) { s.suspended ==> s.writer != Idle && (s.writer.Spawned? ==> s.pending != []) }

  ghost predicate Inv(c: Config, s: State) { Conserved(s) && Awake(s) && Told(c, s) }

  lemma {:induction false} InitialInv(c: Config)
    ensures Inv(c, INITIAL) && Resumable(INITIAL)
  {
  }

  /** What a step keeps: the invariant, what was handed over and accepted, and that nothing is
      accepted after a stop or drain. */
  ghost predicate Kept(c: Config, s: State, t: State) {
    && Inv(c, t) && (Resumable(s) && c.low > 0 ==> Resumable(t))
    && s.handed <= t.handed && s.accepted <= t.accepted
    && (s.stopping || s.draining ==> t.accepted == s.accepted)
    && (s.stopping ==> t.stopping) && (s.draining ==> t.draining)
  }

  lemma {:induction false} KeptTrans(c: Config, s: State, t: State, u: State)
    requires Kept(c, s, t) && Kept(c, t, u)
    ensures Kept(c, s, u)
  {
    hide Inv, Resumable;
  }

  lemma {:induction false} SameBatches(s: State, t: State)
    requires Conserved(s) && Awake(s)
    requires t == s.(suspended := t.suspended, calls := t.calls, draining := t.draining, stopping := t.stopping)
    requires s.stopping ==> t.stopping
    ensures Conserved(t) && Awake(t)
  {
    hide Flat;
  }

  lemma {:induction false} EnqueueKeeps(c: Config, s: State, b: Batch)
    requires Inv(c, s)
    ensures Kept(c, s, Enqueued(c, s, b))
  {
    hide Flat;
    if !s.stopping && !s.draining {
      Assoc(Flat(s.handed) + Current(s.writer) + s.discarded, s.pending, [b]);
    }
  }

  lemma {:induction false} ResumeKeeps(c: Config, s: State)
    requires Inv(c, s)
    ensures Kept(c, s, ResumeUpstream(c, s)) && !ResumeUpstream(c, s).suspended
  {
    hide Flat, Conserved, Awake;
    SameBatches(s, ResumeUpstream(c, s));
  }

  lemma {:induction false} StopKeeps(c: Config, s: State)
    requires Inv(c, s)
    ensures Kept(c, s, Stopped(c, s))
  {
    hide Flat;
    Assoc(Flat(s.handed) + Current(s.writer), s.discarded, s.pending);
    ResumeKeeps(c, s);
    var t := ResumeUpstream(c, s);
    assert Stopped(c, s) == t.(stopping := true, pending := [], discarded := s.discarded + s.pending);
    assert s.accepted + [] == s.accepted;
  }

  lemma {:induction false} DrainKeeps(c: Config, s: State)
    requires Inv(c, s)
    ensures Kept(c, s, DrainBegun(c, s))
  {
    hide Flat, Conserved, Awake;
    ResumeKeeps(c, s);
    SameBatches(s, DrainBegun(c, s));
  }

  lemma {:induction false} TimeoutKeeps(c: Config, s: State)
    requires Inv(c, s)
    ensures Kept(c, s, DrainTimedOut(s))
  {
    hide Flat, Conserved, Awake;
    SameBatches(s, DrainTimedOut(s));
  }

  lemma {:induction false} HandedAppend(writes: seq<Write>, w: Write)
    ensures Flat(writes + [w]) == Flat(writes) + w.batches
  {
    assert (writes + [w])[..|writes|] == writes;
  }

  lemma {:induction false} RoundConserves(s: State)
    requires Conserved(s) && s.writer == Spawned
    ensures Conserved(Round(s)) && Awake(Round(s))
  {
    hide Flat;
    if s.pending != [] && !s.stopping {
      assert s.discarded == [];
      assert Flat(s.handed) + [] + [] + s.pending == Flat(s.handed) + s.pending + [] + [];
    }
  }

  lemma {:induction false} StartKeeps(c: Config, s: State)
    requires Inv(c, s) && s.writer == Spawned
    ensures Kept(c, s, WriterStarted(s))
  {
    RoundConserves(s);
    hide Flat, Conserved, Awake;
  }

  /** The state between the end of a write and the checks that follow it. */
  function WriteRecorded(s: State, ok: bool): State
    requires s.writer.Writing?
  {
    s.(handed := s.handed + [Write(s.writer.batches, ok)], writer := Spawned)
  }

  lemma {:induction false} EndInv(c: Config, s: State, ok: bool)
    requires Inv(c, s) && s.writer.Writing?
    ensures Inv(c, WriteEnded(c, s, ok))
  {
    HandedConserves(s, ok);
    hide Flat, Conserved, Awake, Told, CheckResume, WriteEnded;
    var u := WriteRecorded(s, ok);
    SameTold(c, s, u);
    CheckResumeTells(c, u);
    var t := CheckResume(c, u);
    SameBatches(u, t);
    RoundConserves(t);
    SameTold(c, t, Round(t));
    EndsAsRound(c, s, ok);
  }

  lemma {:induction false} EndKeeps(c: Config, s: State, ok: bool)
    requires Inv(c, s) && s.writer.Writing?
    ensures Kept(c, s, WriteEnded(c, s, ok))
  {
    hide Told, Conserved, Awake;
    EndInv(c, s, ok);
    SuspendedRuns(c, s);
  }

  lemma {:induction false} SuspendedRuns(c: Config, s: State)
    requires Told(c, s)
    ensures s.suspended ==> !s.stopping && c.upstream
  {
  }

  lemma {:induction false} EndsAsRound(c: Config, s: State, ok: bool)
    requires s.writer.Writing?
    ensures WriteEnded(c, s, ok) == Round(CheckResume(c, WriteRecorded(s, ok)))
  {
  }

  lemma {:induction false} CheckResumeTells(c: Config, s: State)
    requires Told(c, s)
    ensures var t := CheckResume(c, s);
            && Told(c, t) && t == s.(suspended := t.suspended, calls := t.calls)
            && (t.suspended ==> |t.pending| >= c.low && !t.stopping)
  {
  }

  lemma {:induction false} SameTold(c: Config, s: State, t: State)
    requires Told(c, s) && t == s.(pending := t.pending, handed := t.handed, writer := t.writer)
    ensures Told(c, t)
  {
  }

  lemma {:induction false} HandedConserves(s: State, ok: bool)
    requires Conserved(s) && s.writer.Writing?
    ensures Conserved(WriteRecorded(s, ok)) && Awake(WriteRecorded(s, ok))
  {
    hide Flat;
    HandedAppend(s.handed, Write(s.writer.batches, ok));
    assert Flat(s.handed) + s.writer.batches + [] == Flat(s.handed) + s.writer.batches;
  }

  lemma {:induction false} ApplyKeeps(c: Config, s: State, op: Op)
    requires Inv(c, s)
    ensures Kept(c, s, Apply(c, s, op))
  {
    hide Kept, Inv;
    match op
    case EnqueueOp(b) => EnqueueKeeps(c, s, b);
    case StopOp => StopKeeps(c, s);
    case DrainOp => DrainKeeps(c, s);
    case TimeoutOp => TimeoutKeeps(c, s);
    case WriterOp(ok) =>
      match s.writer {
        case Idle => KeptSame(c, s);
        case Spawned => StartKeeps(c, s);
        case Writing(_) => EndKeeps(c, s, ok);
      }
  }

  lemma {:induction false} KeptSame(c: Config, s: State)
    requires Inv(c, s)
    ensures Kept(c, s, s)
  {
    hide Inv, Resumable;
  }

  lemma {:induction false} RunKeeps(c: Config, s: State, ops: seq<Op>)
    requires Inv(c, s)
    ensures Kept(c, s, Run(c, s, ops))
    decreases |ops|
  {
    hide Apply, Inv, Resumable;
    if ops == [] {
      KeptSame(c, s);
    } else {
      var t := Apply(c, s, ops[0]);
      ApplyKeeps(c, s, ops[0]);
      RunKeeps(c, t, ops[1..]);
      KeptTrans(c, s, t, Run(c, t, ops[1..]));
    }
  }

  // ---- What every run does -----------------------------------------------------------

  /** Every accepted batch is, in order, in a write, being written, discarded by a stop, or
      pending; and pending work has a writer unless the queue was stopped. */
  lemma {:induction false} NothingLost(c: Config, ops: seq<Op>)
    ensures var s := Run(c, INITIAL, ops);
            && s.accepted == Flat(s.handed) + Current(s.writer) + s.discarded + s.pending
            && (s.pending != [] && !s.stopping ==> s.writer != Idle)
            && (s.discarded != [] ==> s.pending == [] && s.stopping)
  {
    hide Run, Flat;
    InitialInv(c);
    RunKeeps(c, INITIAL, ops);
  }

  // ---- What is written ---------------------------------------------------------------

  /** Every write has something to write. */
  ghost predicate Solid(s: State) {
    && (s.writer.Writing? ==> s.writer.batches != [])
    && forall i :: 0 <= i < |s.handed| ==> s.handed[i].batches != []
  }

  /** The steps that lose work, each by its guard: a stop or a drain's timeout that finds batches
      waiting, and a write that fails. */
  predicate Lossy(s: State, op: Op) {
    match op
    case EnqueueOp(_) => false
    case StopOp => s.pending != []
    case DrainOp => false
    case TimeoutOp => s.draining && !s.stopping && s.writer != Idle && s.pending != []
    case WriterOp(ok) => s.writer.Writing? && !ok
  }

  predicate Clean(c: Config, s: State, ops: seq<Op>)
    decreases |ops|
  {
    ops == [] || (!Lossy(s, ops[0]) && Clean(c, Apply(c, s, ops[0]), ops[1..]))
  }

  /** Work has been lost: a failed write, a discarded batch, or one nobody will ever write. */
  ghost predicate Lost(s: State) {
    (exists i :: 0 <= i < |s.handed| && !s.handed[i].ok) || s.discarded != [] || (s.stopping && s.pending != [])
  }

  lemma {:induction false} LostExactly(c: Config, s: State, op: Op)
    requires Inv(c, s) && Solid(s)
    ensures Solid(Apply(c, s, op))
    ensures Lost(Apply(c, s, op)) <==> Lost(s) || Lossy(s, op)
  {
    hide Conserved, Told;
    if op.WriterOp? && s.writer.Writing? {
      EndLost(c, s, op.ok);
    } else {
      assert Apply(c, s, op).handed == s.handed;
    }
  }

  lemma {:induction false} EndLost(c: Config, s: State, ok: bool)
    requires Solid(s) && s.writer.Writing?
    ensures Solid(WriteEnded(c, s, ok))
    ensures Lost(WriteEnded(c, s, ok)) <==> Lost(s) || !ok
  {
    var t := WriteEnded(c, s, ok);
    var w := Write(s.writer.batches, ok);
    assert t.handed == s.handed + [w];
    assert t.handed[|s.handed|] == w;
    assert forall i :: 0 <= i < |s.handed| ==> t.handed[i] == s.handed[i];
    assert t.discarded == s.discarded && t.stopping == s.stopping && (t.stopping ==> t.pending == s.pending);
    hide WriteEnded;
  }

  lemma {:induction false} RunLost(c: Config, s: State, ops: seq<Op>)
    requires Inv(c, s) && Solid(s)
    ensures Solid(Run(c, s, ops))
    ensures Lost(Run(c, s, ops)) <==> Lost(s) || !Clean(c, s, ops)
    decreases |ops|
  {
    hide Inv, Apply, Solid, Lost, Lossy;
    if ops != [] {
      ApplyKeeps(c, s, ops[0]);
      LostExactly(c, s, ops[0]);
      RunLost(c, Apply(c, s, ops[0]), ops[1..]);
    }
  }

  lemma {:induction false} WrittenLength(writes: seq<Write>)
    requires forall i :: 0 <= i < |writes| ==> writes[i].batches != []
    ensures |Written(writes)| <= |Flat(writes)|
    ensures if forall i :: 0 <= i < |writes| ==> writes[i].ok then Written(writes) == Flat(writes)
            else |Written(writes)| < |Flat(writes)|
  {
    if writes != [] {
      var front, last := writes[..|writes| - 1], writes[|writes| - 1];
      WrittenLength(front);
      assert forall i :: 0 <= i < |front| ==> front[i] == writes[i];
    }
  }

  lemma {:induction false} WrittenUnlessLost(c: Config, s: State)
    requires Inv(c, s) && Solid(s) && s.writer == Idle
    ensures Written(s.handed) == s.accepted <==> !Lost(s)
  {
    hide Flat, Written, Told;
    WrittenLength(s.handed);
    if !Lost(s) {
      assert s.pending == [];
      assert Flat(s.handed) + [] + [] + [] == Flat(s.handed);
    } else {
      assert |s.accepted| == |Flat(s.handed)| + |s.discarded| + |s.pending|;
    }
  }

  /** Once the writer is idle, the batches written are all the batches accepted, in order, exactly
      when no stop and no timeout of a drain found batches waiting and no write failed. */
  lemma {:induction false} WrittenExactly(c: Config, ops: seq<Op>)
    ensures var s := Run(c, INITIAL, ops);
            s.writer == Idle ==> (Written(s.handed) == s.accepted <==> Clean(c, INITIAL, ops))
  {
    hide Run, Flat, Clean, Written;
    InitialInv(c);
    RunKeeps(c, INITIAL, ops);
    RunLost(c, INITIAL, ops);
    if Run(c, INITIAL, ops).writer == Idle { WrittenUnlessLost(c, Run(c, INITIAL, ops)); }
  }

  /** drain() comes to an end: once draining, two turns of the writer end it, whatever becomes of
      the writes, and then every accepted batch is written exactly when the run was clean. */
  lemma {:induction false} DrainWritesEverything(c: Config, ops: seq<Op>, first: bool, second: bool)
    requires Run(c, INITIAL, ops).draining
    ensures var all := ops + [WriterOp(first), WriterOp(second)];
            var s, t := Run(c, INITIAL, ops), Run(c, INITIAL, all);
            && t.writer == Idle && t.accepted == s.accepted
            && (Written(t.handed) == t.accepted <==> Clean(c, INITIAL, all))
  {
    hide Flat, Clean, Written, Run, Apply;
    var turns := [WriterOp(first), WriterOp(second)];
    var s := Run(c, INITIAL, ops);
    RunSplit(c, INITIAL, ops, turns);
    TwoOps(c, s, WriterOp(first), WriterOp(second));
    Turns(c, s, first, second);
    WrittenExactly(c, ops + turns);
  }

  lemma {:induction false} Turns(c: Config, s: State, first: bool, second: bool)
    ensures var t := Apply(c, Apply(c, s, WriterOp(first)), WriterOp(second));
            t.writer == Idle && t.accepted == s.accepted
  {
    OneTurn(c, s, first);
    OneTurn(c, Apply(c, s, WriterOp(first)), second);
    hide Apply;
  }

  lemma {:induction false} OneTurn(c: Config, s: State, ok: bool)
    ensures var t := Apply(c, s, WriterOp(ok));
            && t.accepted == s.accepted && (t.writer == Idle || (t.writer.Writing? && t.pending == []))
            && (s.writer == Idle || (s.writer.Writing? && s.pending == []) ==> t.writer == Idle)
  {
  }

  /** A write that fails in a drain without stop or timeout: its batch is accepted and gone. */
  lemma {:induction false} DrainLosesFailedWrite(c: Config, a: Batch)
    ensures var s := Run(c, INITIAL, [EnqueueOp(a), WriterOp(true), DrainOp, WriterOp(false)]);
            && s.writer == Idle && s.pending == [] && s.discarded == []
            && s.accepted == [a] && Written(s.handed) == []
  {
    hide Run, Written;
    var s2 := Apply(c, Apply(c, INITIAL, EnqueueOp(a)), WriterOp(true));
    assert s2.writer == Writing([a]) && s2.pending == [];
    FourOps(c, INITIAL, EnqueueOp(a), WriterOp(true), DrainOp, WriterOp(false));
    var s := Run(c, INITIAL, [EnqueueOp(a), WriterOp(true), DrainOp, WriterOp(false)]);
    assert s.handed == [Write([a], false)];
    NothingWritten(Write([a], false));
  }

  lemma {:induction false} NothingWritten(w: Write)
    requires !w.ok
    ensures Written([w]) == []
  {
    assert [w][..0] == [];
  }

  ghost predicate NoStop(ops: seq<Op>) { forall i :: 0 <= i < |ops| ==> ops[i] != StopOp }

  /** After a stop or timeout nothing takes what is pending, except another stop. */
  lemma {:induction false} PendingStays(c: Config, s: State, ops: seq<Op>)
    requires s.stopping && NoStop(ops)
    ensures var t := Run(c, s, ops);
            t.stopping && t.pending == s.pending && t.discarded == s.discarded && t.accepted == s.accepted
    decreases |ops|
  {
    if ops != [] {
      var t := Apply(c, s, ops[0]);
      assert ops[0] != StopOp && forall i :: 0 <= i < |ops| - 1 ==> ops[1..][i] == ops[i + 1];
      assert t.stopping && t.pending == s.pending && t.discarded == s.discarded && t.accepted == s.accepted;
      PendingStays(c, t, ops[1..]);
    }
  }

  /** A drain that times out leaves exactly the batches that were pending then: neither written
      nor discarded, for as long as nobody stops the queue. */
  lemma {:induction false} TimeoutLeavesPending(c: Config, s: State, ops: seq<Op>)
    requires Inv(c, s) && s.draining && !s.stopping && s.writer != Idle && NoStop(ops)
    ensures var t := Run(c, s, [TimeoutOp] + ops);
            && t.pending == s.pending && t.discarded == []
            && (t.writer == Idle ==> t.accepted == Flat(t.handed) + s.pending)
  {
    hide Flat, Told;
    var all := [TimeoutOp] + ops;
    assert all[0] == TimeoutOp && all[1..] == ops;
    RunKeeps(c, s, all);
    PendingStays(c, DrainTimedOut(s), ops);
    var t := Run(c, s, all);
    assert Flat(t.handed) + [] + [] == Flat(t.handed);
  }

  /** A run in which a drain's timeout leaves a batch behind. */
  lemma {:induction false} DrainLeavesBatch(c: Config, a: Batch, b: Batch)
    ensures var first := [EnqueueOp(a), WriterOp(true), EnqueueOp(b), DrainOp];
            var s := Run(c, INITIAL, first + [TimeoutOp, WriterOp(true)]);
            && s.writer == Idle && s.pending == [b] && s.discarded == [] && s.accepted == [a, b]
            && s.handed == [Write([a], true)]
  {
    hide Run;
    var first := [EnqueueOp(a), WriterOp(true), EnqueueOp(b), DrainOp];
    FourOps(c, INITIAL, EnqueueOp(a), WriterOp(true), EnqueueOp(b), DrainOp);
    var s2 := Apply(c, Apply(c, INITIAL, EnqueueOp(a)), WriterOp(true));
    assert s2.writer == Writing([a]) && s2.pending == [] && s2.accepted == [a] && s2.handed == [];
    var s := Run(c, INITIAL, first);
    assert s.writer == Writing([a]) && s.pending == [b] && s.accepted == [a, b] && s.draining;
    RunSplit(c, INITIAL, first, [TimeoutOp, WriterOp(true)]);
    TwoOps(c, s, TimeoutOp, WriterOp(true));
  }

  // ---- Backpressure ------------------------------------------------------------------

  /** No run leaves upstream suspended with an idle writer, exactly when the low-water mark is
      positive (or there is no upstream). */
  lemma {:induction false} IdleIsResumed(c: Config)
    ensures (forall ops :: Run(c, INITIAL, ops).writer == Idle ==> !Run(c, INITIAL, ops).suspended)
        <==> c.low > 0 || !c.upstream
  {
    hide Run;
    InitialInv(c);
    if c.low > 0 || !c.upstream {
      forall ops ensures Run(c, INITIAL, ops).writer == Idle ==> !Run(c, INITIAL, ops).suspended {
        RunKeeps(c, INITIAL, ops);
      }
    } else {
      var stuck := LowZeroSticks(c);
    }
  }

  /** Nothing is accepted any more. */
  ghost predicate Shut(s: State) { s.stopping || s.draining }

  lemma {:induction false} AcceptsNothing(c: Config, s: State, ops: seq<Op>)
    requires Shut(s)
    ensures var t := Run(c, s, ops); Shut(t) && t.accepted == s.accepted && (s.stopping ==> t.stopping)
    decreases |ops|
  {
    if ops != [] { AcceptsNothing(c, Apply(c, s, ops[0]), ops[1..]); }
  }

  /** A stop discards exactly what waits, and whatever follows, nothing waits or is taken up again. */
  lemma {:induction false} StopDiscards(c: Config, ops: seq<Op>, more: seq<Op>)
    ensures var s, t := Run(c, INITIAL, ops), Run(c, INITIAL, ops + ([StopOp] + more));
            t.pending == [] && t.discarded == s.discarded + s.pending && t.accepted == s.accepted
  {
    var s := Run(c, INITIAL, ops);
    RunSplit(c, INITIAL, ops, [StopOp] + more);
    assert ([StopOp] + more)[0] == StopOp && ([StopOp] + more)[1..] == more;
    StaysEmpty(c, Stopped(c, s), more);
    AcceptsNothing(c, Stopped(c, s), more);
  }

  lemma {:induction false} StaysEmpty(c: Config, s: State, ops: seq<Op>)
    requires s.stopping && s.pending == []
    ensures var t := Run(c, s, ops); t.pending == [] && t.discarded == s.discarded
    decreases |ops|
  {
    if ops != [] {
      assert s.discarded + [] == s.discarded;
      StaysEmpty(c, Apply(c, s, ops[0]), ops[1..]);
    }
  }

  /** When upstream is suspended and resumed, step by step: an accepted batch suspends it when more
      than the high mark then wait; the end of a write, well or badly, resumes it when fewer than
      the low mark wait at that moment; a stop and a drain always do; nothing else does. */
  lemma {:induction false} FlagExactly(c: Config, ops: seq<Op>, op: Op)
    requires c.upstream
    ensures var s, t := Run(c, INITIAL, ops), Run(c, INITIAL, ops + [op]);
            match op
            case EnqueueOp(_) =>
              t.suspended <==> s.suspended || (!s.stopping && !s.draining && |s.pending| + 1 > c.high)
            case StopOp => !t.suspended
            case DrainOp => !t.suspended
            case TimeoutOp => t.suspended == s.suspended
            case WriterOp(_) => t.suspended <==> s.suspended && (s.writer.Writing? ==> |s.pending| >= c.low)
  {
    OneMore(c, ops, op);
    hide Run;
  }

  lemma {:induction false} OneMore(c: Config, ops: seq<Op>, op: Op)
    ensures Run(c, INITIAL, ops + [op]) == Apply(c, Run(c, INITIAL, ops), op)
  {
    hide Apply;
    RunSplit(c, INITIAL, ops, [op]);
    assert [op][1..] == [];
  }

  /** And each of these is told upstream at once: a Suspend for every batch that leaves more than
      the high mark waiting, a Resume when the flag falls, no other call. */
  lemma {:induction false} CallsExactly(c: Config, ops: seq<Op>, op: Op)
    ensures var s, t := Run(c, INITIAL, ops), Run(c, INITIAL, ops + [op]);
            t.calls == s.calls +
              (if !c.upstream then []
               else if op.EnqueueOp? && !s.stopping && !s.draining && |s.pending| + 1 > c.high then [SuspendCall]
               else if s.suspended && !t.suspended then [ResumeCall]
               else [])
  {
    OneMore(c, ops, op);
    hide Run;
  }

  function Same(b: Batch, n: nat): seq<Op> { if n == 0 then [] else [EnqueueOp(b)] + Same(b, n - 1) }

  /** Enough batches before the writer first runs suspend upstream; with a low-water mark of zero
      nothing resumes it. */
  lemma {:induction false} LowZeroSticks(c: Config) returns (ops: seq<Op>)
    requires c.upstream && c.low == 0
    ensures var s := Run(c, INITIAL, ops); s.writer == Idle && s.suspended
  {
    var b := Batch([]);
    ops := Same(b, c.high + 1) + [WriterOp(true), WriterOp(true)];
    RunSplit(c, INITIAL, Same(b, c.high + 1), [WriterOp(true), WriterOp(true)]);
    var s := Run(c, INITIAL, Same(b, c.high + 1));
    PilesUp(c, INITIAL, b, c.high + 1);
    assert [WriterOp(true), WriterOp(true)][1..] == [WriterOp(true)] && [WriterOp(true)][1..] == [];
    var t := Apply(c, s, WriterOp(true));
    assert t.writer.Writing? && t.pending == [] && t.suspended;
    assert Run(c, s, [WriterOp(true), WriterOp(true)]) == Apply(c, t, WriterOp(true));
  }

  lemma {:induction false} RunSplit(c: Config, s: State, a: seq<Op>, b: seq<Op>)
    ensures Run(c, s, a + b) == Run(c, Run(c, s, a), b)
    decreases |a|
  {
    hide Apply;
    if a == [] {
      assert a + b == b;
    } else {
      assert (a + b)[0] == a[0] && (a + b)[1..] == a[1..] + b;
      RunSplit(c, Apply(c, s, a[0]), a[1..], b);
    }
  }

  lemma {:induction false} PilesUp(c: Config, s: State, b: Batch, n: nat)
    requires c.upstream && !s.stopping && !s.draining && !s.writer.Writing?
    ensures var t := Run(c, s, Same(b, n));
            && |t.pending| == |s.pending| + n && !t.stopping && !t.writer.Writing?
            && t.draining == false
            && (n > 0 ==> t.writer == Spawned && (t.suspended <==> s.suspended || |t.pending| > c.high))
            && (n == 0 ==> t == s)
    decreases n
  {
    if n > 0 {
      var t := Apply(c, s, EnqueueOp(b));
      assert Same(b, n)[0] == EnqueueOp(b) && Same(b, n)[1..] == Same(b, n - 1);
      PilesUp(c, t, b, n - 1);
    }
  }

  /** Suspends minus resumes, for an upstream that counts. */
  function Holds(calls: seq<Call>): int {
    if calls == [] then 0
    else Holds(calls[..|calls| - 1]) + (if calls[|calls| - 1] == SuspendCall then 1 else -1)
  }

  /** Suspends that follow a suspend. */
  function Doubles(calls: seq<Call>): nat {
    if |calls| < 2 then 0
    else
      Doubles(calls[..|calls| - 1])
      + (if calls[|calls| - 1] == SuspendCall && calls[|calls| - 2] == SuspendCall then 1 else 0)
  }

  /** The steps that suspend a suspended upstream: a batch is accepted above the high-water mark
      with the flag already up. */
  predicate Overrun(c: Config, s: State, op: Op) {
    op.EnqueueOp? && !s.stopping && !s.draining && c.upstream && s.suspended && |s.pending| + 1 > c.high
  }

  function Overruns(c: Config, s: State, ops: seq<Op>): nat
    decreases |ops|
  {
    if ops == [] then 0
    else (if Overrun(c, s, ops[0]) then 1 else 0) + Overruns(c, Apply(c, s, ops[0]), ops[1..])
  }

  lemma {:induction false} HoldsOfCalls(calls: seq<Call>)
    requires forall i :: 0 <= i < |calls| && calls[i] == ResumeCall ==> i > 0 && calls[i - 1] == SuspendCall
    ensures Holds(calls) == Doubles(calls) + (if calls != [] && calls[|calls| - 1] == SuspendCall then 1 else 0)
  {
    if |calls| == 1 {
      assert calls[..0] == [];
    } else if calls != [] {
      HoldsOfCalls(calls[..|calls| - 1]);
    }
  }

  lemma {:induction false} DoubleCall(calls: seq<Call>, call: Call)
    ensures Doubles(calls + [call])
         == Doubles(calls) + (if call == SuspendCall && calls != [] && calls[|calls| - 1] == SuspendCall then 1 else 0)
  {
    assert (calls + [call])[..|calls|] == calls;
  }

  lemma {:induction false} DoublesExactly(c: Config, s: State, op: Op)
    requires Told(c, s)
    ensures Doubles(Apply(c, s, op).calls) == Doubles(s.calls) + (if Overrun(c, s, op) then 1 else 0)
  {
    hide Doubles;
    DoubleCall(s.calls, SuspendCall);
    DoubleCall(s.calls, ResumeCall);
    var calls := Apply(c, s, op).calls;
    assert calls == s.calls || calls == s.calls + [SuspendCall] || calls == s.calls + [ResumeCall];
  }

  lemma {:induction false} RunDoubles(c: Config, s: State, ops: seq<Op>)
    requires Inv(c, s)
    ensures Doubles(Run(c, s, ops).calls) == Doubles(s.calls) + Overruns(c, s, ops)
    decreases |ops|
  {
    hide Apply, Overrun, Conserved, Awake;
    if ops != [] {
      ApplyKeeps(c, s, ops[0]);
      DoublesExactly(c, s, ops[0]);
      RunDoubles(c, Apply(c, s, ops[0]), ops[1..]);
    }
  }

  /** What an upstream that counts its holds is left with after any run: one hold while the flag is
      up, and one for every batch accepted above the mark with the flag already up. With a positive
      low-water mark and an idle writer only the latter are left. */
  lemma {:induction false} HoldsExactly(c: Config, ops: seq<Op>)
    ensures var s := Run(c, INITIAL, ops);
            && Holds(s.calls) == Doubles(s.calls) + (if s.suspended then 1 else 0)
            && Doubles(s.calls) == Overruns(c, INITIAL, ops)
            && (s.writer == Idle && c.low > 0 ==> Holds(s.calls) == Overruns(c, INITIAL, ops))
  {
    hide Run, Doubles, Holds, Overruns;
    InitialInv(c);
    RunKeeps(c, INITIAL, ops);
    RunDoubles(c, INITIAL, ops);
    assert Doubles([]) == 0 by { NoDoubles(); }
    HoldsOfCalls(Run(c, INITIAL, ops).calls);
  }

  lemma {:induction false} NoDoubles()
    ensures Doubles([]) == 0
  {
  }

  /** No run leaves a counting upstream held by an idle writer exactly when there is no upstream:
      whatever the marks, enough batches before the writer first runs suspend it twice. */
  lemma {:induction false} IdleHoldsNothing(c: Config)
    ensures (forall ops :: Run(c, INITIAL, ops).writer == Idle ==> Holds(Run(c, INITIAL, ops).calls) == 0)
        <==> !c.upstream
  {
    hide Run;
    if !c.upstream {
      InitialInv(c);
      forall ops ensures Holds(Run(c, INITIAL, ops).calls) == 0 { RunKeeps(c, INITIAL, ops); }
    } else {
      var ops := CountingUpstreamSticks(c);
    }
  }

  /** Every batch above the high-water mark suspends again but one Resume follows at most: an
      upstream that counts its holds stays held, though the writer is idle. */
  lemma {:induction false} CountingUpstreamSticks(c: Config) returns (ops: seq<Op>)
    requires c.upstream
    ensures var s := Run(c, INITIAL, ops);
            s.writer == Idle && (c.low > 0 ==> !s.suspended) && Holds(s.calls) > 0
  {
    hide Run, Overruns, Same, Holds, Doubles;
    var b := Batch([]);
    var many, turns := Same(b, c.high + 2), [WriterOp(true), WriterOp(true)];
    ops := many + turns;
    InitialInv(c);
    RunKeeps(c, INITIAL, ops);
    RunSplit(c, INITIAL, many, turns);
    OverrunsSplit(c, INITIAL, many, turns);
    PilesUp(c, INITIAL, b, c.high + 2);
    Overfull(c, b);
    Turns(c, Run(c, INITIAL, many), true, true);
    TwoOps(c, Run(c, INITIAL, many), WriterOp(true), WriterOp(true));
    HoldsExactly(c, ops);
  }

  lemma {:induction false} OverrunsSplit(c: Config, s: State, a: seq<Op>, b: seq<Op>)
    ensures Overruns(c, s, a + b) == Overruns(c, s, a) + Overruns(c, Run(c, s, a), b)
    decreases |a|
  {
    hide Apply, Overrun;
    if a == [] {
      assert a + b == b;
    } else {
      assert (a + b)[0] == a[0] && (a + b)[1..] == a[1..] + b;
      OverrunsSplit(c, Apply(c, s, a[0]), a[1..], b);
    }
  }

  /** The last of high + 2 batches is one too many. */
  lemma {:induction false} Overfull(c: Config, b: Batch)
    requires c.upstream
    ensures Overruns(c, INITIAL, Same(b, c.high + 2)) >= 1
  {
    hide Run, Overruns;
    SameSplit(b, c.high + 1);
    OverrunsSplit(c, INITIAL, Same(b, c.high + 1), [EnqueueOp(b)]);
    PilesUp(c, INITIAL, b, c.high + 1);
    OneOverrun(c, Run(c, INITIAL, Same(b, c.high + 1)), EnqueueOp(b));
  }

  lemma {:induction false} OneOverrun(c: Config, s: State, op: Op)
    ensures Overruns(c, s, [op]) == if Overrun(c, s, op) then 1 else 0
  {
    hide Apply, Overrun;
    assert [op][1..] == [];
  }

  lemma {:induction false} SameSplit(b: Batch, n: nat)
    ensures Same(b, n + 1) == Same(b, n) + [EnqueueOp(b)]
  {
    if n > 0 { SameSplit(b, n - 1); }
  }

  lemma {:induction false} TwoOps(c: Config, s: State, o: Op, p: Op)
    ensures Run(c, s, [o, p]) == Apply(c, Apply(c, s, o), p)
  {
    hide Apply;
    assert [o, p][1..] == [p] && [p][1..] == [];
    assert Run(c, Apply(c, s, o), [p]) == Apply(c, Apply(c, s, o), p);
  }

  lemma {:induction false} FourOps(c: Config, s: State, o: Op, p: Op, q: Op, r: Op)
    ensures Run(c, s, [o, p, q, r]) == Apply(c, Apply(c, Apply(c, Apply(c, s, o), p), q), r)
  {
    hide Apply;
    assert [o, p, q, r][1..] == [p, q, r] && [p, q, r][1..] == [q, r] && [q, r][1..] == [r] && [r][1..] == [];
    var s1 := Apply(c, s, o);
    var s2 := Apply(c, s1, p);
    var s3 := Apply(c, s2, q);
    assert Run(c, s3, [r]) == Apply(c, s3, r);
    assert Run(c, s2, [q, r]) == Run(c, s3, [r]);
    assert Run(c, s1, [p, q, r]) == Run(c, s2, [q, r]);
  }
}
