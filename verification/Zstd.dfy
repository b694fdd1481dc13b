/** ZstdDecompressor around an arbitrary streaming decoder. A decoder answers each call as a
    function of everything it was called with before, which is as general as a decoder can be.
    Chains are lists of their non-empty pieces, so every segmentation is covered. Downstream may
    take any part of what it is shown and suspend, but does not resume from inside OnData. */
module Zstd {
  import opened Bytes

  const SEGMENT_SIZE: nat := 64 * 1024
  const MAX_PENDING_INPUT: nat := 256 * 1024 * 1024
  const MAX_BUFFERED_OUTPUT: nat := 256 * 1024 * 1024

  /** One successful call of ZSTD_decompressStream: what it took, what it gave, what it returned. */
  datatype Call = Call(fed: seq<byte>, produced: seq<byte>, result: nat)

  datatype Reply = Failed | Stepped(consumed: nat, produced: seq<byte>, result: nat)

  /** `step` answers a call with this input after these earlier calls; `backlog` bounds how often
      it can go on without taking input. */
  datatype Decoder = Decoder(step: (seq<Call>, seq<byte>) -> Reply, backlog: seq<Call> -> nat)

  /** What zstd promises: it stays within both buffers and always gets on. */
  ghost predicate Sound(d: Decoder) {
    forall trace: seq<Call>, input: seq<byte> :: GoodReply(d, trace, input, d.step(trace, input))
  }

  ghost predicate GoodReply(d: Decoder, trace: seq<Call>, input: seq<byte>, r: Reply) {
    input != [] && r.Stepped? ==>
      && r.consumed <= |input| && |r.produced| <= SEGMENT_SIZE
      && (r.consumed > 0 || d.backlog(trace + [CallOf(input, r)]) < d.backlog(trace))
  }

  function CallOf(input: seq<byte>, r: Reply): Call
    requires r.Stepped?
  {
    Call(input[..Min(r.consumed, |input|)], r.produced, r.result)
  }

  /** All the compressed bytes a trace took in, and all it gave out. */
  function Fed(trace: seq<Call>): seq<byte> {
    if trace == [] then [] else Fed(trace[..|trace| - 1]) + trace[|trace| - 1].fed
  }

  function Out(trace: seq<Call>): seq<byte> {
    if trace == [] then [] else Out(trace[..|trace| - 1]) + trace[|trace| - 1].produced
  }

  /** 0 when the last call finished a frame, and before the first call. */
  function LastResult(trace: seq<Call>): nat { if trace == [] then 0 else trace[|trace| - 1].result }

  /** The decoder really answered like this. */
  ghost predicate Ran(d: Decoder, trace: seq<Call>) {
    trace == [] ||
    var before := trace[..|trace| - 1];
    Ran(d, before) && Possible(d, before, trace[|trace| - 1])
  }

  ghost predicate Possible(d: Decoder, before: seq<Call>, c: Call) {
    exists input: seq<byte> :: Answered(d, before, input, c)
  }

  ghost predicate Answered(d: Decoder, before: seq<Call>, input: seq<byte>, c: Call) {
    input != [] && d.step(before, input).Stepped? && c == CallOf(input, d.step(before, input))
  }

  lemma {:induction false} Appended(d: Decoder, trace: seq<Call>, input: seq<byte>, c: Call)
    requires Ran(d, trace) && Answered(d, trace, input, c)
    ensures Ran(d, trace + [c]) && Fed(trace + [c]) == Fed(trace) + c.fed && Out(trace + [c]) == Out(trace) + c.produced
    ensures LastResult(trace + [c]) == c.result
  {
    assert (trace + [c])[..|trace|] == trace;
  }

  lemma {:induction false} SoundReply(d: Decoder, trace: seq<Call>, input: seq<byte>)
    requires Sound(d)
    ensures GoodReply(d, trace, input, d.step(trace, input))
  {
  }

  lemma {:induction false} FailsHere(d: Decoder, trace: seq<Call>, input: seq<byte>)
    requires input != [] && d.step(trace, input).Failed?
    ensures FailsAfter(d, trace)
  {
  }

  /** A decoder for a format: what it has given out is a prefix of the meaning of what it was fed,
      and all of it when it says that a frame is complete. */
  ghost predicate Decodes(d: Decoder, meaning: seq<byte> -> seq<byte>) {
    forall trace: seq<Call> :: Ran(d, trace) ==>
      Out(trace) <= meaning(Fed(trace)) && (LastResult(trace) == 0 ==> Out(trace) == meaning(Fed(trace)))
  }

  datatype Signal = Completed | DecodeFailed | InputOverflow | OutputOverflow | IncompleteFrame | IncompleteData

  datatype Progress = Complete | Suspended | Error

  /** How downstream answers one OnData: how many bytes it takes and how often it suspends. */
  datatype Reaction = Reaction(take: nat, suspends: nat)

  datatype Op = DataOp(pieces: seq<seq<byte>>) | SuspendOp | ResumeOp | DoneOp | CloseOp

  /** What upstream sends before it says OnDone. */
  function Accepted(ops: seq<Op>): seq<byte> {
    if ops == [] then []
    else
      var before, last := ops[..|ops| - 1], ops[|ops| - 1];
      Accepted(before) + (if last.DataOp? && DoneOp !in before then Concat(last.pieces) else [])
  }

  lemma {:induction false} AcceptedNone()
    ensures Accepted([]) == []
  {
  }

  lemma {:induction false} AcceptedNext(ops: seq<Op>, i: nat)
    requires i < |ops|
    ensures Accepted(ops[..i + 1]) ==
            Accepted(ops[..i]) + (if ops[i].DataOp? && DoneOp !in ops[..i] then Concat(ops[i].pieces) else [])
    ensures DoneOp in ops[..i + 1] <==> DoneOp in ops[..i] || ops[i] == DoneOp
  {
    assert ops[..i + 1][..i] == ops[..i] && ops[..i + 1][i] == ops[i];
    assert ops[..i + 1] == ops[..i] + [ops[i]];
  }

  /** A downstream that never suspends, and one that takes nothing. */
  ghost predicate NeverSuspends(sink: nat -> Reaction) { forall n :: sink(n).suspends == 0 }

  ghost predicate TakesNothing(sink: nat -> Reaction) { forall n :: sink(n).take == 0 }

  /** The decoder may fail at this point. */
  ghost predicate FailsAfter(d: Decoder, trace: seq<Call>) {
    exists input: seq<byte> :: input != [] && d.step(trace, input).Failed?
  }

  predicate Only(signals: seq<Signal>, signal: Signal) { |signals| == 1 && signals[0] == signal }

  predicate IsEnd(signals: seq<Signal>) { |signals| == 1 && signals[0] in {Completed, IncompleteFrame, IncompleteData} }

  predicate DecodeOutcome(signals: seq<Signal>) {
    signals == [] || (|signals| == 1 && signals[0] in {DecodeFailed, OutputOverflow})
  }

  predicate IsFailure(signals: seq<Signal>) {
    |signals| == 1 && signals[0] in {DecodeFailed, OutputOverflow, InputOverflow}
  }

  ghost predicate NonEmpty(pieces: seq<seq<byte>>) { forall i :: 0 <= i < |pieces| ==> pieces[i] != [] }

  class ZstdDecompressor {
    const d: Decoder
    const sink: nat -> Reaction
    var trace: seq<Call>
    var pending: seq<seq<byte>>
    var output: seq<byte>
    var lastResult: nat
    var suspendCount: nat
    var donePending: bool
    var closed: bool
    var finalized: bool
    var attached: bool
    var signals: seq<Signal>
    var calls: nat
    /** Bytes accepted from upstream, bytes downstream has been shown, and bytes it has taken. */
    ghost var received: seq<byte>
    ghost var seen: seq<byte>
    ghost var taken: seq<byte>
    ghost var doneSeen: bool
    /** Output shown behind a terminal signal, and the output left when an error was signalled. */
    ghost var late: nat
    ghost var leftAtError: seq<byte>
    /** Output dropped by DoClose. */
    ghost var dropped: seq<byte>

    /** What downstream has been shown and not taken. */
    ghost function Left(): seq<byte>
      reads this
    {
      if attached then output else dropped
    }

    /** One terminal signal at most, and the flags that go with it. */
    ghost predicate Flags()
      reads this
    {
      |signals| <= 1 && closed == finalized == (signals != []) && (!attached ==> closed && output == [])
    }

    /** Whatever the decoder gave out has been shown to downstream, which took a prefix of it and was
        left the rest; and each error has its cause. */
    ghost predicate Data()
      reads this
    {
      && Sound(d) && Ran(d, trace) && lastResult == LastResult(trace)
      && seen == taken + Left() && |output| <= MAX_BUFFERED_OUTPUT
      && (Only(signals, OutputOverflow) || seen == Out(trace))
      && (IsFailure(signals) ==> |Left()| <= |leftAtError|)
      && (Only(signals, DecodeFailed) ==> FailsAfter(d, trace))
      && (Only(signals, OutputOverflow) ==> |Out(trace)| > MAX_BUFFERED_OUTPUT)
    }

    /** What holds even in the middle of a call. */
    ghost predicate Core()
      reads this
    {
      Flags() && Data()
    }

    /** Every byte accepted was fed to the decoder, once and in order, or is in `rest`. */
    ghost predicate Exact(rest: seq<byte>)
      reads this
    {
      received == Fed(trace) + rest
    }

    /** What the chains hold, and what the terminal signal says about the stream. */
    ghost predicate Stored()
      reads this
    {
      && Core() && NonEmpty(pending) && |Concat(pending)| <= MAX_PENDING_INPUT && Fed(trace) <= received
      && (!attached ==> pending == [])
      && (signals == [] ==> Exact(Concat(pending)))
      && (IsEnd(signals) ==> doneSeen && received == Fed(trace))
      && (Only(signals, Completed) ==> output == [] && Left() == [] && lastResult == 0)
      && (Only(signals, IncompleteFrame) ==> lastResult != 0)
      && (Only(signals, DecodeFailed) ==> |Fed(trace)| < |received|)
      && (Only(signals, InputOverflow) ==> |received| > |Fed(trace)| + MAX_PENDING_INPUT)
      && (Only(signals, IncompleteData) ==> Left() != [] && lastResult == 0)
    }

    /** What holds between calls. Nothing waits in `pending` unless downstream suspended, and an
        OnDone that has not been answered is remembered. */
    ghost predicate Valid()
      reads this
    {
      && Stored()
      && (suspendCount == 0 && !closed ==> pending == [])
      && (donePending ==> doneSeen && suspendCount > 0)
      && (doneSeen && !closed ==> donePending)
      && (donePending ==> !IsEnd(signals))
    }

    constructor (d: Decoder, sink: nat -> Reaction)
      requires Sound(d)
      ensures Valid() && this.d == d && this.sink == sink && received == [] && signals == [] && suspendCount == 0
      ensures !doneSeen && taken == [] && late == 0
    {
      this.d, this.sink := d, sink;
      trace, pending, output, lastResult, suspendCount := [], [], [], 0, 0;
      donePending, closed, finalized, attached, signals, calls := false, false, false, true, [], 0;
      received, seen, taken, doneSeen, late, leftAtError, dropped := [], [], [], false, 0, [], [];
    }

    method EmitErrorAndClose(signal: Signal)
      requires finalized == (signals != []) && (!attached ==> finalized)
      modifies `closed, `finalized, `signals, `leftAtError
      ensures old(Core()) && !IsFailure([signal]) ==> Core()
      ensures closed && finalized && signals == if old(finalized) then old(signals) else [signal]
      ensures leftAtError == if old(finalized) then old(leftAtError) else output
    {
      if !finalized {
        finalized := true;
        leftAtError := output;
        signals := signals + [signal];
      }
      closed := true;
    }

    /** Downstream.OnData on the output chain, which adds to what downstream has been shown; then
        downstream keeps what it takes and may suspend. True tells the caller to stop. */
    method ForwardData() returns (stop: bool)
      requires taken + Left() == seen && (!attached ==> output == [])
      modifies `output, `taken, `calls, `suspendCount, `late
      ensures old(Core()) ==> Core()
      ensures taken + Left() == seen && old(taken) <= taken && |output| <= old(|output|)
      ensures !attached ==> calls == old(calls)
      ensures suspendCount >= old(suspendCount)
      ensures if old(output) == [] then !stop && calls == old(calls) && suspendCount == old(suspendCount)
              else calls == old(calls) + 1 && stop == (suspendCount > 0)
      ensures late == old(late) + (if signals != [] && old(output) != [] then 1 else 0)
      ensures old(output) != [] ==>
                var r := sink(old(calls));
                && taken == old(taken) + old(output)[..Min(r.take, |old(output)|)]
                && output == old(output)[Min(r.take, |old(output)|)..]
                && suspendCount == old(suspendCount) + r.suspends
      ensures NeverSuspends(sink) ==> suspendCount == old(suspendCount)
      ensures TakesNothing(sink) ==> taken == old(taken)
    {
      if output == [] { return false; }
      if signals != [] { late := late + 1; }
      var r := sink(calls);
      calls := calls + 1;
      var k := Min(r.take, |output|);
      Assoc(taken, output[..k], output[k..]);
      assert output[..k] + output[k..] == output;
      taken, output := taken + output[..k], output[k..];
      suspendCount := suspendCount + r.suspends;
      stop := suspendCount > 0;
    }

    /** One call of the decoder: whatever it takes in is fed, whatever it gives out is shown. */
    method DecompressOnce(input: seq<byte>) returns (progress: Progress, consumed: nat)
      requires Core() && signals == [] && input != [] && suspendCount == 0
      modifies `trace, `lastResult, `output, `taken, `seen, `calls, `suspendCount, `closed, `finalized, `signals,
               `late, `leftAtError
      ensures Only(signals, DecodeFailed) ==> consumed == 0
      ensures progress == Error ==> suspendCount == 0 && leftAtError == output
      ensures late == old(late)
      ensures calls >= old(calls) && old(taken) <= taken && old(trace) <= trace
      ensures NeverSuspends(sink) ==> suspendCount == old(suspendCount)
      ensures TakesNothing(sink) ==> taken == old(taken)
      ensures Core() && consumed <= |input| && Fed(trace) == old(Fed(trace)) + input[..consumed]
      ensures progress == Error <==> signals != []
      ensures progress == Suspended <==> suspendCount > 0 && signals == []
      ensures progress == Complete ==> consumed > 0 || d.backlog(trace) < d.backlog(old(trace))
      ensures Only(signals, DecodeFailed) <==> d.step(old(trace), input).Failed?
      ensures Only(signals, OutputOverflow) ==> |output| + |d.step(old(trace), input).produced| > MAX_BUFFERED_OUTPUT
      ensures DecodeOutcome(signals)
    {
      hide Ran, Fed, Out, Sound, FailsAfter, NeverSuspends, TakesNothing;
      SoundReply(d, trace, input);
      var r := d.step(trace, input);
      if r.Failed? {
        FailsHere(d, trace, input);
        EmitErrorAndClose(DecodeFailed);
        assert Fed(trace) + input[..0] == Fed(trace);
        return Error, 0;
      }
      consumed := r.consumed;
      Appended(d, trace, input, CallOf(input, r));
      trace := trace + [CallOf(input, r)];
      lastResult := r.result;
      progress := Complete;
      if |r.produced| > 0 {
        if |r.produced| > MAX_BUFFERED_OUTPUT - |output| {
          assert |Out(trace)| == |taken| + |output| + |r.produced|;
          EmitErrorAndClose(OutputOverflow);
          return Error, consumed;
        }
        var stop := ShowOutput(r.produced);
        if stop { progress := Suspended; }
      } else {
        assert Out(trace) == seen;
      }
    }

    /** What the decoder gave out joins the output, and downstream is shown all of it. */
    method ShowOutput(produced: seq<byte>) returns (stop: bool)
      requires Flags() && signals == [] && suspendCount == 0 && produced != []
      requires Sound(d) && Ran(d, trace) && lastResult == LastResult(trace)
      requires seen == taken + output && Out(trace) == seen + produced
      requires |output| + |produced| <= MAX_BUFFERED_OUTPUT
      modifies `output, `taken, `seen, `calls, `suspendCount, `late
      ensures Core() && stop == (suspendCount > 0) && late == old(late)
      ensures calls > old(calls) && old(taken) <= taken
      ensures NeverSuspends(sink) ==> suspendCount == old(suspendCount)
      ensures TakesNothing(sink) ==> taken == old(taken)
    {
      hide Ran, Fed, Out, Sound, FailsAfter, NeverSuspends, TakesNothing, Min;
      Assoc(taken, output, produced);
      output := output + produced;
      seen := taken + output;
      stop := ForwardData();
    }

    method DecompressPiece(piece: seq<byte>) returns (progress: Progress, pos: nat)
      requires Core() && signals == [] && suspendCount == 0
      modifies `trace, `lastResult, `output, `taken, `seen, `calls, `suspendCount, `closed, `finalized, `signals,
               `late, `leftAtError
      ensures Only(signals, DecodeFailed) ==> pos < |piece|
      ensures progress == Error ==> suspendCount == 0 && leftAtError == output
      ensures late == old(late)
      ensures calls >= old(calls) && old(taken) <= taken && old(trace) <= trace
      ensures NeverSuspends(sink) ==> suspendCount == old(suspendCount)
      ensures TakesNothing(sink) ==> taken == old(taken)
      ensures Core() && pos <= |piece| && Fed(trace) == old(Fed(trace)) + piece[..pos]
      ensures progress == Error <==> signals != []
      ensures progress == Suspended <==> suspendCount > 0 && signals == []
      ensures DecodeOutcome(signals)
      ensures progress == Complete ==> pos == |piece|
    {
      hide Core;
      pos := 0;
      assert Fed(trace) + piece[..0] == Fed(trace);
      while pos < |piece|
        invariant late == old(late)
        invariant calls >= old(calls) && old(taken) <= taken && old(trace) <= trace
        invariant NeverSuspends(sink) ==> suspendCount == old(suspendCount)
        invariant TakesNothing(sink) ==> taken == old(taken)
        invariant pos <= |piece| && Core() && signals == [] && suspendCount == 0
        invariant Fed(trace) == old(Fed(trace)) + piece[..pos]
        decreases |piece| - pos, d.backlog(trace)
      {
        ghost var was := pos;
        var consumed;
        progress, consumed := DecompressOnce(piece[pos..]);
        pos := pos + consumed;
        Assoc(old(Fed(trace)), piece[..was], piece[was..][..consumed]);
        assert piece[..was] + piece[was..][..consumed] == piece[..pos];
        if progress != Complete { return; }
      }
      progress := Complete;
    }

    /** Feeds the chain to the decoder until it is empty or downstream suspends. */
    method DecompressChain(chain: seq<seq<byte>>) returns (progress: Progress, rest: seq<seq<byte>>)
      requires Core() && signals == [] && NonEmpty(chain) && Exact(Concat(chain))
      modifies `trace, `lastResult, `output, `taken, `seen, `calls, `suspendCount, `closed, `finalized, `signals,
               `late, `leftAtError
      ensures Only(signals, DecodeFailed) ==> |Fed(trace)| < |received|
      ensures progress == Error ==> suspendCount == 0 && leftAtError == output
      ensures old(suspendCount) > 0 ==>
          progress == Suspended && rest == chain && output == old(output) && suspendCount == old(suspendCount)
      ensures late == old(late)
      ensures calls >= old(calls) && old(taken) <= taken && old(trace) <= trace
      ensures NeverSuspends(sink) ==> suspendCount == old(suspendCount)
      ensures TakesNothing(sink) ==> taken == old(taken)
      ensures Core() && Fed(trace) <= received && NonEmpty(rest) && |Concat(rest)| <= |Concat(chain)|
      ensures progress == Error <==> signals != []
      ensures progress == Suspended <==> suspendCount > 0 && signals == []
      ensures progress != Error ==> Exact(Concat(rest))
      ensures progress == Complete ==> rest == []
      ensures DecodeOutcome(signals)
      ensures old(suspendCount) > 0 ==> trace == old(trace)
    {
      hide Core;
      rest := chain;
      if suspendCount > 0 { return Suspended, rest; }
      while rest != []
        invariant late == old(late)
        invariant calls >= old(calls) && old(taken) <= taken && old(trace) <= trace
        invariant NeverSuspends(sink) ==> suspendCount == old(suspendCount)
        invariant TakesNothing(sink) ==> taken == old(taken)
        invariant Core() && signals == [] && suspendCount == 0
        invariant NonEmpty(rest) && |Concat(rest)| <= |Concat(chain)| && Exact(Concat(rest))
        decreases |rest|
      {
        var piece, pos := rest[0], 0;
        ghost var fed := Fed(trace);
        progress, pos := DecompressPiece(piece);
        Assoc(fed, piece[..pos], piece[pos..] + Concat(rest[1..]));
        Assoc(piece[..pos], piece[pos..], Concat(rest[1..]));
        assert piece[..pos] + piece[pos..] == piece;
        Consumed(rest, pos);
        rest := if pos == |piece| then rest[1..] else [piece[pos..]] + rest[1..];
        if progress != Complete { return; }
      }
      progress := Complete;
    }

    /** Moves what is left of a partly consumed chain to fresh segments. */
    method CopyToPendingInput(chain: seq<seq<byte>>)
      requires Core() && signals == [] && NonEmpty(chain) && NonEmpty(pending)
      requires |Concat(pending)| <= MAX_PENDING_INPUT && Exact(Concat(pending) + Concat(chain))
      modifies `pending, `closed, `finalized, `signals, `leftAtError
      ensures Core() && NonEmpty(pending) && |Concat(pending)| <= MAX_PENDING_INPUT
      ensures if |old(Concat(pending))| + |Concat(chain)| <= MAX_PENDING_INPUT
          then signals == [] && Exact(Concat(pending))
              else Only(signals, InputOverflow)
    {
      hide Core, Sound, Ran, FailsAfter;
      var source := chain;
      while source != []
        invariant Core() && signals == [] && NonEmpty(source) && NonEmpty(pending)
        invariant |Concat(pending)| <= MAX_PENDING_INPUT && Exact(Concat(pending) + Concat(source))
        invariant |Concat(pending)| + |Concat(source)| == |old(Concat(pending))| + |Concat(chain)|
        decreases |Concat(source)|
      {
        if |Concat(source)| > MAX_PENDING_INPUT - |Concat(pending)| {
          Overflow();
          return;
        }
        var chunk := Min(|source[0]|, SEGMENT_SIZE);
        var segment, rest := source[0][..chunk], source[0][chunk..];
        assert segment + rest == source[0];
        ConcatAppend(pending, [segment]);
        assert Concat([segment]) == segment + Concat([]) == segment;
        Assoc(segment, rest, Concat(source[1..]));
        Assoc(Concat(pending), segment, rest + Concat(source[1..]));
        Consumed(source, chunk);
        Keep(pending + [segment]);
        source := if chunk == |source[0]| then source[1..] else [rest] + source[1..];
      }
      assert Concat(pending) + [] == Concat(pending);
    }

    method Keep(pieces: seq<seq<byte>>)
      requires Core()
      modifies `pending
      ensures Core() && pending == pieces
    {
      pending := pieces;
    }

    method Overflow()
      requires Core() && signals == []
      modifies `closed, `finalized, `signals, `leftAtError
      ensures Core() && Only(signals, InputOverflow)
    {
      EmitErrorAndClose(InputOverflow);
    }

    /** New input joins the input that waits. */
    method Queue(data: seq<seq<byte>>)
      requires Valid() && NonEmpty(data) && !closed && !doneSeen && pending != []
      modifies this
      ensures Valid() && !doneSeen && received == old(received) + Concat(data)
      ensures calls == old(calls) && taken == old(taken) && late == old(late)
      ensures trace == old(trace) && output == old(output) && suspendCount == old(suspendCount)
      ensures if old(|Concat(pending)|) + |Concat(data)| <= MAX_PENDING_INPUT then signals == []
          else Only(signals, InputOverflow)
    {
      hide Sound, Ran, Fed, Out, FailsAfter;
      Assoc(Fed(trace), Concat(pending), Concat(data));
      received := received + Concat(data);
      if |Concat(data)| > MAX_PENDING_INPUT - |Concat(pending)| {
        EmitErrorAndClose(InputOverflow);
        return;
      }
      ConcatAppend(pending, data);
      pending := pending + data;
    }

    /** New input is read at once, and what downstream holds up is kept. */
    method Read(data: seq<seq<byte>>)
      requires Valid() && NonEmpty(data) && !closed && !doneSeen && pending == []
      modifies this
      ensures old(suspendCount) > 0 ==>
                && trace == old(trace) && output == old(output) && suspendCount == old(suspendCount)
                && (if |Concat(data)| <= MAX_PENDING_INPUT then signals == [] else Only(signals, InputOverflow))
      ensures late == old(late)
      ensures Valid() && !doneSeen && received == old(received) + Concat(data)
      ensures calls >= old(calls) && old(taken) <= taken && old(trace) <= trace
      ensures NeverSuspends(sink) ==> suspendCount == old(suspendCount)
      ensures TakesNothing(sink) ==> taken == old(taken)
    {
      hide Core, Stored, Exact;
      ReadyToRead();
      var progress, rest := ReadNow(data);
      if progress != Error { SaveRest(rest); }
    }

    lemma {:induction false} ReadyToRead()
      requires Valid() && !closed && !doneSeen && pending == []
      ensures Core() && signals == [] && Exact([]) && !donePending
    {
      hide Sound, Ran, Fed, Out, FailsAfter;
    }

    method ReadNow(data: seq<seq<byte>>) returns (progress: Progress, rest: seq<seq<byte>>)
      requires Core() && signals == [] && Exact([]) && NonEmpty(data) && pending == []
      modifies `received, `trace, `lastResult, `output, `taken, `seen, `calls, `suspendCount, `closed, `finalized,
          `signals,
               `late, `leftAtError
      ensures calls >= old(calls) && old(taken) <= taken && old(trace) <= trace
      ensures NeverSuspends(sink) ==> suspendCount == old(suspendCount)
      ensures TakesNothing(sink) ==> taken == old(taken)
      ensures late == old(late) && received == old(received) + Concat(data)
      ensures old(suspendCount) > 0 ==>
                trace == old(trace) && output == old(output) && suspendCount == old(suspendCount) && rest == data
                    && progress == Suspended
      ensures progress == Error ==> Stored() && closed
      ensures progress != Error ==>
                Core() && signals == [] && NonEmpty(rest) && Exact(Concat(rest)) && Fed(trace) <= received
      ensures progress == Suspended ==> suspendCount > 0
      ensures progress == Complete ==> rest == []
    {
      hide Sound, Ran, Fed, Out, FailsAfter;
      assert Fed(trace) + [] == Fed(trace);
      received := received + Concat(data);
      progress, rest := DecompressChain(data);
    }

    /** Save any unconsumed input. */
    method SaveRest(rest: seq<seq<byte>>)
      requires Core() && signals == [] && NonEmpty(rest) && pending == [] && Exact(Concat(rest))
          && Fed(trace) <= received
      modifies `pending, `closed, `finalized, `signals, `leftAtError
      ensures Stored() && (closed ==> Only(signals, InputOverflow)) && (rest == [] ==> pending == [] && !closed)
      ensures if |Concat(rest)| <= MAX_PENDING_INPUT then signals == [] else Only(signals, InputOverflow)
    {
      hide Sound, Ran, Fed, Out, FailsAfter;
      assert Concat([]) + Concat(rest) == Concat(rest);
      if rest != [] { CopyToPendingInput(rest); }
    }

    /** Compressed bytes from upstream: all accepted, unless the component is closed. Input only
        waits while downstream is suspended, so reading on right after queueing reads nothing. */
    method OnData(data: seq<seq<byte>>)
      requires Valid() && NonEmpty(data) && !doneSeen
      modifies this
      ensures old(closed) ==> closed
      ensures Valid() && !doneSeen && calls >= old(calls) && old(taken) <= taken && old(trace) <= trace
      ensures NeverSuspends(sink) ==> suspendCount == old(suspendCount)
      ensures TakesNothing(sink) ==> taken == old(taken)
      ensures late == old(late)
      ensures old(suspendCount) > 0 && !old(closed) ==>
                && trace == old(trace) && output == old(output) && suspendCount == old(suspendCount)
                && (if old(|Concat(pending)|) + |Concat(data)| <= MAX_PENDING_INPUT then signals == []
                    else Only(signals, InputOverflow))
      ensures received == if old(closed) then old(received) else old(received) + Concat(data)
      ensures old(closed) ==> trace == old(trace) && seen == old(seen) && signals == old(signals)
    {
      hide Sound, Ran, Fed, Out, FailsAfter;
      if closed { return; }
      if pending != [] {
        Queue(data);
        if !closed { var progress := DrainPending(); }
      } else {
        Read(data);
      }
    }

    /** DecompressChain(pending_input_): the chain is read in place; nothing else looks at it. */
    method DrainPending() returns (progress: Progress)
      requires Stored() && signals == []
      modifies `trace, `lastResult, `pending, `output, `taken, `seen, `calls, `suspendCount, `closed, `finalized,
          `signals,
               `late, `leftAtError
      ensures closed == (signals != [])
      ensures progress == Error ==> old(suspendCount) == 0 && suspendCount == 0 && leftAtError == output
      ensures old(suspendCount) > 0 ==>
          trace == old(trace) && output == old(output) && suspendCount == old(suspendCount)
      ensures late == old(late)
      ensures calls >= old(calls) && old(taken) <= taken && old(trace) <= trace
      ensures NeverSuspends(sink) ==> suspendCount == old(suspendCount)
      ensures TakesNothing(sink) ==> taken == old(taken)
      ensures Stored() && DecodeOutcome(signals)
      ensures progress == Error <==> signals != []
      ensures progress == Suspended <==> suspendCount > 0 && signals == []
      ensures progress == Complete ==> pending == []
    {
      hide Core;
      var rest;
      progress, rest := DecompressChain(pending);
      if progress != Error { Keep(rest); }
      Flagged();
    }

    /** CompleteWithFlush, and the RequestClose its callers add: what is left of the output is
        shown once more, and the stream ends unless downstream suspends. */
    method FlushOutput()
      requires Stored() && doneSeen && !donePending && suspendCount == 0 && lastResult == 0 && (closed || pending == [])
      requires !IsEnd(signals)
      modifies `donePending, `output, `taken, `calls, `suspendCount, `closed, `finalized, `signals,
               `late, `leftAtError
      ensures !old(closed) ==> !IsFailure(signals)
      ensures old(closed) ==> signals == old(signals) && leftAtError == old(leftAtError)
      ensures late == old(late) + (if old(closed) && old(output) != [] then 1 else 0)
      ensures calls >= old(calls) && old(taken) <= taken && old(trace) <= trace
      ensures NeverSuspends(sink) ==> suspendCount == old(suspendCount)
      ensures TakesNothing(sink) ==> taken == old(taken)
      ensures Stored() && donePending == (suspendCount > 0) && (donePending || closed)
      ensures !attached ==> calls == old(calls) && seen == old(seen)
      ensures donePending ==> signals == old(signals)
    {
      hide Core, Exact;
      Flagged();
      if output != [] {
        var stop := ShowLeftover();
        if stop {
          DeferOnDone();
          return;
        }
        if output != [] {
          EndInData();
          return;
        }
      }
      EmitDoneAndClose();
    }

    method ShowLeftover() returns (stop: bool)
      requires Stored() && !IsEnd(signals) && output != []
      modifies `output, `taken, `calls, `suspendCount, `late
      ensures Stored() && stop == (suspendCount > 0) && calls >= old(calls) && old(taken) <= taken
      ensures late == old(late) + (if signals != [] then 1 else 0)
      ensures NeverSuspends(sink) ==> suspendCount == old(suspendCount)
      ensures TakesNothing(sink) ==> taken == old(taken)
    {
      hide Sound, Ran, Fed, Out, FailsAfter;
      stop := ForwardData();
    }

    /** Downstream did not take everything. */
    method EndInData()
      requires Stored() && doneSeen && !donePending && lastResult == 0 && output != [] && (closed || pending == [])
      requires !IsEnd(signals)
      modifies `closed, `finalized, `signals, `leftAtError
      ensures Stored() && closed
      ensures if old(closed) then signals == old(signals) && leftAtError == old(leftAtError)
          else Only(signals, IncompleteData)
    {
      hide Sound, Ran, Fed, Out, FailsAfter;
      assert Fed(trace) + [] == Fed(trace);
      EmitErrorAndClose(IncompleteData);
    }

    /** EmitDone, and RequestClose behind it. */
    method EmitDoneAndClose()
      requires Stored() && doneSeen && output == [] && lastResult == 0 && (closed || pending == [])
      modifies `closed, `finalized, `signals
      ensures Stored() && closed
      ensures if old(closed) then signals == old(signals) else Only(signals, Completed)
    {
      hide Sound, Ran, Fed, Out, FailsAfter;
      assert Fed(trace) + [] == Fed(trace);
      if !finalized {
        finalized := true;
        signals := signals + [Completed];
      }
      closed := true;
    }

    /** Completes an OnDone that nothing holds up any more. */
    method FlushAndComplete()
      requires Stored() && doneSeen && !donePending && suspendCount == 0
      requires !IsEnd(signals)
      modifies this
      ensures !old(closed) && old(pending) == [] ==> !IsFailure(signals)
      ensures old(closed) ==>
                signals == old(signals) && lastResult == old(lastResult) && leftAtError == old(leftAtError)
      ensures late == old(late) + (if old(closed) && old(lastResult) == 0 && old(output) != [] then 1 else 0)
      ensures calls >= old(calls) && old(taken) <= taken && old(trace) <= trace
      ensures NeverSuspends(sink) ==> suspendCount == old(suspendCount)
      ensures TakesNothing(sink) ==> taken == old(taken)
      ensures Valid() && doneSeen && received == old(received) && (donePending || closed)
      ensures attached == old(attached) && (!attached ==> calls == old(calls) && seen == old(seen))
    {
      hide Core, Exact;
      Flagged();
      if !closed && pending != [] {
        var progress := DrainPending();
        if progress == Error { return; }
        if progress == Suspended {
          DeferOnDone();
          return;
        }
      }
      if lastResult != 0 {
        EndInFrame();
        return;
      }
      FlushOutput();
    }

    method DeferOnDone()
      requires Stored()
      modifies `donePending
      ensures Stored() && donePending
    {
      donePending := true;
    }

    lemma {:induction false} Flagged()
      requires Core()
      ensures closed == (signals != []) && (!attached ==> closed && output == [])
    {
    }

    /** The stream ended inside a frame. */
    method EndInFrame()
      requires Stored() && doneSeen && !donePending && suspendCount == 0 && lastResult != 0 && (closed || pending == [])
      requires !IsEnd(signals)
      modifies `closed, `finalized, `signals, `leftAtError
      ensures Stored() && closed && !IsEnd(signals) == old(closed)
      ensures if old(closed) then signals == old(signals) && leftAtError == old(leftAtError)
          else Only(signals, IncompleteFrame)
    {
      hide Sound, Ran, Fed, Out, FailsAfter;
      assert Fed(trace) + [] == Fed(trace);
      EmitErrorAndClose(IncompleteFrame);
    }

    /** End of the compressed stream. Input cannot be pending here unless downstream suspended,
        so the branch that drains it first is dead. */
    method OnDone()
      requires Valid() && !doneSeen
      modifies this
      ensures old(closed) ==> closed
      ensures old(suspendCount) > 0 ==>
          trace == old(trace) && output == old(output) && suspendCount == old(suspendCount) && pending == old(pending)
      ensures late == old(late)
      ensures calls >= old(calls) && old(taken) <= taken && old(trace) <= trace
      ensures NeverSuspends(sink) ==> suspendCount == old(suspendCount)
      ensures TakesNothing(sink) ==> taken == old(taken)
      ensures Valid() && doneSeen && received == old(received)
      ensures old(closed) ==> signals == old(signals)
      ensures old(suspendCount) > 0 && !old(closed) ==> donePending && signals == []
    {
      hide Core, Exact;
      MarkDone();
      if closed { return; }
      if suspendCount > 0 {
        DeferOnDone();
        return;
      }
      if pending != [] {
        assert false;
      }
      if lastResult != 0 {
        EndInFrame();
        return;
      }
      FlushOutput();
    }

    method MarkDone()
      requires Valid() && !doneSeen
      modifies `doneSeen
      ensures Stored() && doneSeen && !donePending && closed == (signals != [])
      ensures suspendCount == 0 && !closed ==> pending == []
    {
      hide Sound, Ran, Fed, Out, FailsAfter;
      doneSeen := true;
    }

    method Suspend()
      requires Valid()
      modifies this
      ensures old(closed) ==> closed
      ensures output == old(output) && pending == old(pending)
      ensures late == old(late)
      ensures calls >= old(calls) && old(taken) <= taken && old(trace) <= trace
      ensures TakesNothing(sink) ==> taken == old(taken)
      ensures Valid() && suspendCount == old(suspendCount) + 1
      ensures received == old(received) && doneSeen == old(doneSeen) && trace == old(trace) && signals == old(signals)
    {
      suspendCount := suspendCount + 1;
    }

    /** Re-delivers what downstream left, then reads on. */
    method ProcessPending()
      requires Stored() && signals == [] && suspendCount == 0
      modifies `trace, `lastResult, `pending, `output, `taken, `seen, `calls, `suspendCount, `closed, `finalized,
          `signals,
               `late, `leftAtError
      ensures signals != [] ==> suspendCount == 0 && leftAtError == output
      ensures late == old(late)
      ensures calls >= old(calls) && old(taken) <= taken && old(trace) <= trace
      ensures NeverSuspends(sink) ==> suspendCount == old(suspendCount)
      ensures TakesNothing(sink) ==> taken == old(taken)
      ensures Stored() && DecodeOutcome(signals)
      ensures suspendCount == 0 && !closed ==> pending == []
      ensures old(output) != [] ==> calls > old(calls)
    {
      hide Sound, Ran, Fed, Out, FailsAfter;
      var stop := ForwardData();
      if stop { return; }
      if pending != [] { var progress := DrainPending(); }
    }

    /** Gives up one hold. Without holds left the waiting input is read on, and a waiting OnDone is
        answered. Downstream is shown output behind an error exactly here: the last hold goes, an
        OnDone is deferred, the drain has failed now or earlier, the decoder had last finished a
        frame, and output was left. */
    method Resume()
      requires Valid() && suspendCount > 0
      modifies this
      ensures old(closed) ==> closed
      ensures late == old(late)
                      + (if old(suspendCount) == 1 && old(donePending) && IsFailure(signals) && lastResult == 0
                            && (if old(closed) then old(output) else leftAtError) != [] then 1 else 0)
      ensures calls >= old(calls) && old(taken) <= taken && old(trace) <= trace
      ensures NeverSuspends(sink) ==> suspendCount == old(suspendCount) - 1
      ensures TakesNothing(sink) ==> taken == old(taken)
      ensures Valid() && received == old(received) && doneSeen == old(doneSeen)
      ensures old(suspendCount) == 1 && !old(closed) && old(output) != [] ==> calls > old(calls)
      ensures old(suspendCount) > 1 ==>
          suspendCount == old(suspendCount) - 1 && trace == old(trace) && seen == old(seen)
      ensures attached == old(attached)
      ensures !attached ==> calls == old(calls) && seen == old(seen) && signals == old(signals)
    {
      hide Sound, Ran, Fed, Out, FailsAfter;
      suspendCount := suspendCount - 1;
      if suspendCount > 0 { return; }
      if !closed { ProcessPending(); }
      if donePending && suspendCount == 0 { AnswerDone(); }
    }

    /** A waiting OnDone is taken up. */
    method AnswerDone()
      requires Stored() && doneSeen && donePending && suspendCount == 0 && (!closed ==> pending == [])
      requires !IsEnd(signals)
      modifies this
      ensures calls >= old(calls) && old(taken) <= taken && old(trace) <= trace
      ensures NeverSuspends(sink) ==> suspendCount == old(suspendCount)
      ensures TakesNothing(sink) ==> taken == old(taken)
      ensures Valid() && doneSeen && received == old(received)
      ensures attached == old(attached) && (!attached ==> calls == old(calls) && seen == old(seen))
      ensures late == old(late) + (if IsFailure(signals) && lastResult == 0 && old(output) != [] then 1 else 0)
      ensures old(closed) ==>
                signals == old(signals) && lastResult == old(lastResult) && leftAtError == old(leftAtError)
      ensures !old(closed) ==> !IsFailure(signals)
    {
      hide Sound, Ran, Fed, Out, FailsAfter;
      donePending := false;
      FlushAndComplete();
    }

    /** The deferred DoClose: the decoder is freed, both chains are cleared and downstream is let go. */
    method DoClose()
      requires Valid() && closed
      modifies `attached, `output, `pending, `dropped
      ensures Valid() && !attached && output == [] && pending == []
    {
      hide Sound, Ran, Fed, Out, FailsAfter;
      dropped := Left();
      attached, output, pending := false, [], [];
    }

    lemma {:induction false} Settled()
      requires Valid()
      ensures doneSeen && suspendCount == 0 ==> |signals| == 1
      ensures closed == (signals != [])
    {
    }

    /** Any schedule; upstream sends nothing after OnDone, nobody resumes what is not held, and the
        event loop runs DoClose when it likes. */
    method Run(ops: seq<Op>)
      requires Valid() && !doneSeen && forall i :: 0 <= i < |ops| && ops[i].DataOp? ==> NonEmpty(ops[i].pieces)
      modifies this
      ensures calls >= old(calls) && old(taken) <= taken && old(trace) <= trace
      ensures TakesNothing(sink) ==> taken == old(taken)
      ensures Valid() && old(received) <= received
      ensures doneSeen && suspendCount == 0 ==> |signals| == 1
      ensures doneSeen <==> DoneOp in ops
      ensures signals == [] ==> received == old(received) + Accepted(ops)
    {
      hide Stored, Accepted;
      AcceptedNone();
      var ended := false;
      Settled();
      assert old(received) + [] == old(received);
      for i := 0 to |ops|
        invariant calls >= old(calls) && old(taken) <= taken && old(trace) <= trace
        invariant TakesNothing(sink) ==> taken == old(taken)
        invariant Valid() && old(received) <= received && ended == doneSeen
        invariant doneSeen <==> DoneOp in ops[..i]
        invariant closed == (signals != []) && (old(closed) ==> closed)
        invariant !closed ==> received == old(received) + Accepted(ops[..i])
      {
        match ops[i] {
          case DataOp(pieces) => if !ended { OnData(pieces); }
          case SuspendOp => Suspend();
          case ResumeOp => if suspendCount > 0 { Resume(); }
          case DoneOp => if !ended { OnDone(); } ended := true;
          case CloseOp => if closed { DoClose(); }
        }
        AcceptedNext(ops, i);
        Settled();
        Assoc(old(received), Accepted(ops[..i]), if ops[i].DataOp? then Concat(ops[i].pieces) else []);
      }
      assert ops[..|ops|] == ops;
      Settled();
    }
  }

  /** Whatever the schedule and however the bytes were cut: what downstream has been shown is a
      prefix of what the compressed bytes mean, and on completion downstream has taken exactly
      the meaning of everything received. */
  lemma {:induction false} Decompresses(z: ZstdDecompressor, meaning: seq<byte> -> seq<byte>)
    requires z.Valid() && Decodes(z.d, meaning)
    ensures z.signals == [] ==>
              z.taken + z.output <= meaning(Fed(z.trace)) && Fed(z.trace) + Concat(z.pending) == z.received
    ensures Only(z.signals, Completed) ==> z.taken == meaning(z.received)
    ensures z.suspendCount == 0 && z.signals == [] ==> Fed(z.trace) == z.received
  {
    assert Ran(z.d, z.trace);
    if z.suspendCount == 0 && z.signals == [] { assert Fed(z.trace) + [] == Fed(z.trace); }
    assert z.taken + [] == z.taken;
  }

  /** Consume(n) inside the first piece. */
  lemma {:induction false} Consumed(chain: seq<seq<byte>>, n: nat)
    requires NonEmpty(chain) && chain != [] && n <= |chain[0]|
    ensures var rest := if n == |chain[0]| then chain[1..] else [chain[0][n..]] + chain[1..];
            NonEmpty(rest) && Concat(rest) == chain[0][n..] + Concat(chain[1..]) && |Concat(rest)| <= |Concat(chain)|
  {
    var rest := [chain[0][n..]] + chain[1..];
    assert rest[0] == chain[0][n..] && rest[1..] == chain[1..];
    if n == |chain[0]| { assert chain[0][n..] + Concat(chain[1..]) == Concat(chain[1..]); }
  }

  // ---- Output behind an error --------------------------------------------------------

  /** A decoder that takes one byte, gives one and finishes a frame, and then fails. */
  function OnceStep(trace: seq<Call>, input: seq<byte>): Reply {
    if trace == [] then Stepped(1, [7], 0) else Failed
  }

  const ONCE := Decoder(OnceStep, (trace: seq<Call>) => 0)

  const HOARDING: nat -> Reaction := n => Reaction(0, 0)

  lemma {:induction false} OnceSound()
    ensures Sound(ONCE)
  {
  }

  lemma {:induction false} OnceTraces(trace: seq<Call>)
    requires Ran(ONCE, trace)
    ensures if trace == [] then Fed(trace) == [] && Out(trace) == []
            else |Fed(trace)| == 1 && Out(trace) == [7] && LastResult(trace) == 0
  {
    if trace != [] {
      var before, last := trace[..|trace| - 1], trace[|trace| - 1];
      var input: seq<byte> :| Answered(ONCE, before, input, last);
      assert before == [];
      assert Fed(before) == [] && Out(before) == [];
    }
  }

  /** With one byte received, nothing has failed and its output is left. */
  lemma {:induction false} OneByteRead(z: ZstdDecompressor)
    requires z.Valid() && z.d == ONCE && z.suspendCount == 0 && |z.received| == 1 && z.taken == [] && !z.doneSeen
    ensures z.signals == [] && z.output == [7] && z.trace != [] && z.pending == [] && !z.closed
  {
    OnceTraces(z.trace);
    assert FailsAfter(ONCE, z.trace) ==> z.trace != [] by {
      if FailsAfter(ONCE, z.trace) { var input: seq<byte> :| input != [] && ONCE.step(z.trace, input).Failed?; }
    }
    hide Sound, Ran, Fed, Out, FailsAfter;
    assert z.signals == [];
    assert z.pending == [] && Fed(z.trace) + [] == Fed(z.trace);
    assert [] + z.output == z.output;
  }

  /** With a second byte received and the stream over, only the failure is left. */
  lemma {:induction false} SecondByteFails(z: ZstdDecompressor)
    requires z.Valid() && z.d == ONCE && z.suspendCount == 0 && |z.received| == 2 && z.taken == [] && z.doneSeen
    requires z.trace != []
    ensures IsFailure(z.signals) && z.lastResult == 0 && z.leftAtError != []
  {
    OnceTraces(z.trace);
    hide Sound, Ran, Fed, Out, FailsAfter;
    assert [] + z.Left() == z.Left();
  }

  /** A run that shows output behind an error: the frame's output is not taken, more input and the
      end of the stream arrive while suspended, and reading on fails. */
  method OutputBehindError() returns (z: ZstdDecompressor)
    ensures z.Valid() && IsFailure(z.signals) && z.late == 1
  {
    hide Sound, Ran, Fed, Out, FailsAfter, OnceStep;
    z := OutputNotTaken();
    z.OnData([[2]]);
    SingleByte(2);
    z.OnDone();
    z.Resume();
    SecondByteFails(z);
  }

  method OutputNotTaken() returns (z: ZstdDecompressor)
    ensures z.Valid() && fresh(z) && z.d == ONCE && z.sink == HOARDING && z.suspendCount == 1 && |z.received| == 1
    ensures z.signals == [] && z.pending == [] && z.output == [7] && z.trace != [] && z.taken == [] && z.late == 0
    ensures !z.doneSeen && !z.closed
  {
    hide Sound, Ran, Fed, Out, FailsAfter, OnceStep;
    OnceSound();
    z := new ZstdDecompressor(ONCE, HOARDING);
    z.OnData([[1]]);
    SingleByte(1);
    OneByteRead(z);
    z.Suspend();
  }

  lemma {:induction false} SingleByte(b: byte)
    ensures Concat([[b]]) == [b]
  {
    assert [[b]][1..] == [];
    assert [b] + Concat([]) == [b];
  }
}
