/** The two halves of CramAuth together: what a chunked dialogue hands to the binary half, piece
    by piece, what the parser makes of the pieces, and what the sink has got in the end. */
module LiveSession {
  import opened Bytes
  import opened DbnFormat
  import opened Handshake
  import Live = LiveStream
  import ChainSpec

  /** What one more chunk adds to the bytes handed over. */
  function Piece(cfg: Config, c: Connection, chunk: seq<byte>): seq<byte> {
    BinaryGrows(cfg, c, chunk);
    DataReceived(cfg, c, chunk).state.binary[|c.state.binary|..]
  }

  function Pieces(cfg: Config, c: Connection, chunks: seq<seq<byte>>): seq<seq<byte>>
    decreases |chunks|
  {
    if chunks == [] then [] else [Piece(cfg, c, chunks[0])] + Pieces(cfg, DataReceived(cfg, c, chunks[0]), chunks[1..])
  }

  /** Bytes handed over are never taken back. */
  lemma {:induction false} BinaryGrows(cfg: Config, c: Connection, data: seq<byte>)
    ensures c.state.binary <= DataReceived(cfg, c, data).state.binary
  {
    TextGrows(cfg, c, data);
  }

  lemma {:induction false} TextGrows(cfg: Config, c: Connection, data: seq<byte>)
    ensures c.state.binary <= Text(cfg, c, data).state.binary
    decreases |data|
  {
    if c.state.phase != Streaming && data != [] && |c.line| < MAX_LINE {
      PushedSame(cfg, c, data[0]);
      hide Pushed;
      TextGrows(cfg, Pushed(cfg, c, data[0]), data[1..]);
    }
  }

  lemma {:induction false} PushedSame(cfg: Config, c: Connection, b: byte)
    ensures Pushed(cfg, c, b).state.binary == c.state.binary
  {
    hide AsText, Trim, LineProcessed;
    if b == NEWLINE { LineSame(cfg, c.state, AsText(Trim((c.line + [b])[..|c.line + [b]| - 1]))); }
  }

  lemma {:induction false} LineSame(cfg: Config, s: State, text: string)
    ensures LineProcessed(cfg, s, text).binary == s.binary
  {
    hide AuthLine, Accepts, Fits, SendPending;
    PendingSame(s.(phase := Phase.Ready));
  }

  lemma {:induction false} PendingSame(s: State)
    ensures SendPending(s).binary == s.binary
  {
    hide SubscriptionLine, Fits;
  }

  /** The pieces are the bytes handed over, in order. */
  lemma {:induction false} PiecesAreBinary(cfg: Config, c: Connection, chunks: seq<seq<byte>>)
    ensures c.state.binary + Concat(Pieces(cfg, c, chunks)) == Chunks(cfg, c, chunks).state.binary
    decreases |chunks|
  {
    hide DataReceived;
    if chunks == [] {
      assert c.state.binary + [] == c.state.binary;
    } else {
      var next := DataReceived(cfg, c, chunks[0]);
      var piece, more := Piece(cfg, c, chunks[0]), Pieces(cfg, next, chunks[1..]);
      BinaryGrows(cfg, c, chunks[0]);
      PiecesAreBinary(cfg, next, chunks[1..]);
      assert ([piece] + more)[0] == piece && ([piece] + more)[1..] == more;
      Assoc(c.state.binary, piece, Concat(more));
    }
  }

  /** However the server's bytes are cut, from the greeting to the last record: the parser behind a
      good dialogue ends as if it had read at once everything after the third line. Nothing of
      the text reaches it, and nothing after it is lost. */
  lemma {:induction false} SessionReads(conv: Converters, cfg: Config, dataset: string, r: Request, greeting: seq<byte>,
                                        cram: seq<byte>, reply: seq<byte>, rest: seq<byte>, chunks: seq<seq<byte>>)
    requires GoodLine(greeting) && GoodLine(cram) && GoodLine(reply)
    requires "cram=" <= AsText(Trim(cram)) && Accepts(AsText(Trim(reply)))
    requires AllFit(Script(cfg, dataset, r, AsText(Trim(cram))[5..]))
    requires Concat(chunks) == LineOf(greeting) + (LineOf(cram) + (LineOf(reply) + rest))
    ensures var pieces := Pieces(cfg, Connection(Started(Subscribed(Initial(dataset), r)), []), chunks);
            var f, p := FeedAll(conv, START, [], pieces), Parse(conv, START, rest);
            && f.state == p.state && f.rest == p.rest && f.records <= p.records
            && (!p.state.failed ==> f == p)
  {
    hide AsText, Trim, Accepts, AuthLine, SubscriptionLine, Chunks, Pieces, LineOf, Parse, FeedAll;
    var c := Connection(Started(Subscribed(Initial(dataset), r)), []);
    assert c.state.binary == [];
    Dialogue(cfg, dataset, r, greeting, cram, reply, rest, chunks);
    PiecesAreBinary(cfg, c, chunks);
    var pieces := Pieces(cfg, c, chunks);
    assert [] + Concat(pieces) == Concat(pieces) == rest;
    StartIdle(conv);
    FeedAllIsParse(conv, START, [], pieces);
  }

  lemma {:induction false} StartIdle(conv: Converters)
    ensures Parse(conv, START, []) == Outcome([], [], START)
  {
  }

  // ---- With the sink behind it -------------------------------------------------------

  lemma {:induction false} TextLength(cfg: Config, c: Connection, data: seq<byte>)
    ensures |Text(cfg, c, data).state.binary| <= |c.state.binary| + |data|
    decreases |data|
  {
    if c.state.phase != Streaming && data != [] && |c.line| < MAX_LINE {
      PushedSame(cfg, c, data[0]);
      hide Pushed;
      TextLength(cfg, Pushed(cfg, c, data[0]), data[1..]);
    }
  }

  lemma {:induction false} ChunksNone(cfg: Config, c: Connection)
    ensures Chunks(cfg, c, []) == c
  {
  }

  lemma {:induction false} NextChunk(cfg: Config, c: Connection, chunks: seq<seq<byte>>, k: nat)
    requires k < |chunks|
    ensures Chunks(cfg, c, chunks[..k + 1]) == DataReceived(cfg, Chunks(cfg, c, chunks[..k]), chunks[k])
  {
    hide DataReceived;
    ChunksAppend(cfg, c, chunks[..k], chunks[k]);
    assert chunks[..k + 1] == chunks[..k] + [chunks[k]];
  }

  lemma {:induction false} ChunksAppend(cfg: Config, c: Connection, chunks: seq<seq<byte>>, chunk: seq<byte>)
    ensures Chunks(cfg, c, chunks + [chunk]) == DataReceived(cfg, Chunks(cfg, c, chunks), chunk)
    decreases |chunks|
  {
    hide DataReceived;
    if chunks == [] {
      assert [] + [chunk] == [chunk] && [chunk][1..] == [];
    } else {
      assert (chunks + [chunk])[0] == chunks[0] && (chunks + [chunk])[1..] == chunks[1..] + [chunk];
      ChunksAppend(cfg, DataReceived(cfg, c, chunks[0]), chunks[1..], chunk);
    }
  }

  /** The stream has everything handed over so far, unless it overflowed, which takes more bytes
      than a chain may hold. */
  ghost predicate Fine(s: Live.Stream, got: seq<byte>)
    reads s
  {
    && s.Valid() && Live.AtTop(s.Now()) && s.attached && !s.h.userClosed && !s.doneSeen && Live.Tame(s.script)
    && s.signals != [Live.UpstreamError]
    && (s.h.overflowed || (!s.closed && s.h.received == got))
    && (s.h.overflowed ==> |got| > Live.MAX_PENDING_DATA)
  }

  /** Somebody takes or releases holds between two pieces. */
  method Between(s: Live.Stream, acts: seq<Live.Act>, ghost got: seq<byte>)
    requires Fine(s, got) && Live.Tame(acts)
    modifies s
    ensures Fine(s, got)
  {
    hide Live.Inv;
    for i := 0 to |acts|
      invariant Fine(s, got)
    {
      Live.WaitingReceived(s.conv, s.Now());
      assert acts[i] in acts && Live.Tame([acts[i]]);
      s.Perform(acts[i]);
    }
  }

  method HandOver(s: Live.Stream, piece: seq<byte>, ghost got: seq<byte>)
    requires Fine(s, got) && |piece| < ChainSpec.SIZE_MODULUS
    modifies s
    ensures Fine(s, got + piece)
  {
    hide Live.Inv;
    Live.WaitingReceived(s.conv, s.Now());
    s.OnData(piece);
  }

  /** One chunk off the socket: the text half takes its part, the rest goes on. */
  method Deliver(auth: CramAuth, s: Live.Stream, chunk: seq<byte>)
    requires auth.Valid() && Fine(s, auth.binary) && |chunk| < ChainSpec.SIZE_MODULUS
    modifies auth, s
    ensures auth.Valid() && auth.Here() == DataReceived(auth.cfg, old(auth.Here()), chunk)
    ensures Fine(s, auth.binary)
  {
    hide Live.Inv, DataReceived;
    ghost var before := auth.Here();
    var had := auth.binary;
    auth.OnData(chunk);
    Handed(auth.cfg, before, chunk);
    var piece := auth.binary[|had|..];
    assert auth.binary == had + piece;
    if piece != [] {
      HandOver(s, piece, had);
    }
  }

  lemma {:induction false} Handed(cfg: Config, c: Connection, chunk: seq<byte>)
    ensures var t := DataReceived(cfg, c, chunk).state.binary;
            c.state.binary <= t && |t| <= |c.state.binary| + |chunk|
  {
    BinaryGrows(cfg, c, chunk);
    TextLength(cfg, c, chunk);
  }

  method Round(auth: CramAuth, s: Live.Stream, acts: seq<Live.Act>, chunk: seq<byte>)
    requires auth.Valid() && Fine(s, auth.binary) && Live.Tame(acts) && |chunk| < ChainSpec.SIZE_MODULUS
    modifies auth, s
    ensures auth.Valid() && auth.Here() == DataReceived(auth.cfg, old(auth.Here()), chunk)
    ensures Fine(s, auth.binary)
  {
    hide Live.Inv, DataReceived, Live.Tame;
    Between(s, acts, auth.binary);
    Deliver(auth, s, chunk);
  }

  /** All chunks. */
  method Converse(auth: CramAuth, s: Live.Stream, chunks: seq<seq<byte>>, between: seq<seq<Live.Act>>)
    requires auth.Valid() && Fine(s, auth.binary)
    requires |between| == |chunks|
    requires forall i :: 0 <= i < |chunks| ==> |chunks[i]| < ChainSpec.SIZE_MODULUS && Live.Tame(between[i])
    modifies auth, s
    ensures auth.Valid() && auth.Here() == Chunks(auth.cfg, old(auth.Here()), chunks) && Fine(s, auth.binary)
  {
    hide DataReceived, Chunks, Live.Tame, Fine, CramAuth.Here, CramAuth.Valid;
    ghost var c := auth.Here();
    ChunksNone(auth.cfg, c);
    for k := 0 to |chunks|
      invariant auth.Valid() && auth.Here() == Chunks(auth.cfg, c, chunks[..k]) && Fine(s, auth.binary)
    {
      Round(auth, s, between[k], chunks[k]);
      NextChunk(auth.cfg, c, chunks, k);
    }
    assert chunks[..|chunks|] == chunks;
  }

  lemma {:induction false} Ended(conv: Converters, s: Live.State)
    requires Live.Inv(conv, s) && Live.AtTop(s) && s.doneSeen && s.suspendCount == 0 && !s.userClosed && s.attached
    requires !s.overflowed && s.signals != [Live.UpstreamError]
    ensures var p := Parse(conv, START, s.received);
            && |s.signals| == 1
            && (s.signals[0] == Live.Completed <==> p.rest == [] && !p.state.failed)
            && (s.signals[0] == Live.Completed ==> s.records == p.records)
  {
    Live.EndOfStream(conv, s);
    assert s.signals == [s.signals[0]];
    if s.signals[0] == Live.Completed { Live.CompletedDelivers(conv, s); }
  }

  /** A whole session: a client that subscribed and started, a server that greets, challenges,
      accepts and then sends `rest`, cut into chunks in any way; between chunks and in the sink's
      callbacks anybody may take and release holds, in any nesting. Nothing overflows unless `rest`
      is longer than a chain may be. If in the end every hold has been released and nothing
      overflowed, the sink has heard exactly one terminal signal; it is
      completion if and only if `rest` reads to its end without error, and then the sink has got
      exactly its records. */
  method WholeSession(conv: Converters, cfg: Config, dataset: string, r: Request, ghost greeting: seq<byte>,
                      ghost cram: seq<byte>, ghost reply: seq<byte>, ghost rest: seq<byte>, chunks: seq<seq<byte>>,
                      between: seq<seq<Live.Act>>, script: seq<Live.Act>) returns (s: Live.Stream)
    requires GoodLine(greeting) && GoodLine(cram) && GoodLine(reply)
    requires "cram=" <= AsText(Trim(cram)) && Accepts(AsText(Trim(reply)))
    requires AllFit(Script(cfg, dataset, r, AsText(Trim(cram))[5..]))
    requires Concat(chunks) == LineOf(greeting) + (LineOf(cram) + (LineOf(reply) + rest))
    requires |between| == |chunks| && Live.Tame(script)
    requires forall i :: 0 <= i < |chunks| ==> |chunks[i]| < ChainSpec.SIZE_MODULUS && Live.Tame(between[i])
    ensures s.Valid() && Live.AtTop(s.Now()) && s.doneSeen && (s.h.overflowed || s.h.received == rest)
    ensures |rest| <= Live.MAX_PENDING_DATA ==> !s.h.overflowed
    ensures s.suspendCount == 0 && !s.h.overflowed ==>
              var p := Parse(conv, START, rest);
              && |s.signals| == 1
              && (s.signals[0] == Live.Completed <==> p.rest == [] && !p.state.failed)
              && (s.signals[0] == Live.Completed ==> s.records == p.records)
  {
    hide Live.Inv, AsText, Trim, Accepts, Script, LineOf, Chunks;
    var auth := new CramAuth(cfg, dataset);
    auth.Subscribe(r);
    auth.StartStreaming();
    s := new Live.Stream(conv, script);
    Converse(auth, s, chunks, between);
    Dialogue(cfg, dataset, r, greeting, cram, reply, rest, chunks);
    Live.WaitingReceived(conv, s.Now());
    s.OnDone();
    if s.suspendCount == 0 && !s.h.overflowed { Ended(conv, s.Now()); }
  }
}
