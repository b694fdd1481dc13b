/** The DBN byte stream as a format on flat bytes: an optional metadata block, then records
    whose first byte gives their length in 4-byte units. `Parse` is the reference reading of a
    whole byte string; the lemmas say it can be done in pieces. */
module DbnFormat {
  import opened Bytes

  const HEADER_SIZE: nat := 16                        // sizeof(RecordHeader)
  const DBN_HEADER_SIZE: nat := 8                     // "DBN", version, frame size
  const MAX_METADATA_SIZE: nat := 256 * 1024 * 1024
  const MAX_RECORD_SIZE: nat := 64 * 1024

  /** The v1/v2 to v3 converters: does a record type need one, and the bytes it produces. */
  datatype Converters = Converters(needed: byte -> bool, convert: (byte, seq<byte>) -> seq<byte>)

  /** What the parser remembers between calls. `failed` is the finalized flag. */
  datatype PState = PState(metadataParsed: bool, version: byte, failed: bool)

  const START := PState(false, 3, false)

  /** Outcome of reading a byte string: the records, the bytes left over, the state after. */
  datatype Outcome = Outcome(records: seq<seq<byte>>, rest: seq<byte>, state: PState)

  /** RecordHeader::Size: the length byte counts 4-byte units. */
  function RecordSize(b: seq<byte>): (n: nat)
    requires b != []
    ensures n <= 1020 < MAX_RECORD_SIZE
  {
    b[0] as int * 4
  }

  function LittleEndian32(b: seq<byte>): nat
    requires |b| >= 4
  {
    b[0] as int + 0x100 * b[1] as int + 0x1_0000 * b[2] as int + 0x100_0000 * b[3] as int
  }

  predicate HasMagic(b: seq<byte>)
    requires |b| >= DBN_HEADER_SIZE
  {
    b[0] == 'D' as int as byte && b[1] == 'B' as int as byte && b[2] == 'N' as int as byte
  }

  datatype Gate = Wait | Bad | Ready(skip: nat, version: byte)

  /** What the first bytes of the stream call for. */
  function Metadata(b: seq<byte>): (g: Gate)
    ensures g.Ready? ==> g.skip <= |b|
  {
    if |b| < DBN_HEADER_SIZE then Wait
    else if !HasMagic(b) then Ready(0, 3)
    else
      var frame := LittleEndian32(b[4..]);
      if frame > MAX_METADATA_SIZE then Bad
      else if |b| < DBN_HEADER_SIZE + frame then Wait
      else Ready(DBN_HEADER_SIZE + frame, b[3])
  }

  datatype Next = NeedMore | Invalid | Record(size: nat)

  /** What the bytes at the front of the record stream call for. */
  function NextRecord(version: byte, b: seq<byte>): (n: Next)
    ensures n.Record? ==> HEADER_SIZE <= n.size <= |b|
  {
    if |b| < HEADER_SIZE then NeedMore
    else if RecordSize(b) < HEADER_SIZE then Invalid
    else if |b| < RecordSize(b) then NeedMore
    else if version > 3 then Invalid
    else Record(RecordSize(b))
  }

  /** The record as delivered: converted when an old version needs it, the same bytes otherwise. */
  function Deliver(conv: Converters, version: byte, r: seq<byte>): seq<byte>
    requires |r| >= 2
  {
    if version != 3 && conv.needed(r[1]) then conv.convert(version, r) else r
  }

  datatype Read = Read(records: seq<seq<byte>>, rest: seq<byte>, bad: bool)

  function Records(conv: Converters, version: byte, b: seq<byte>): (o: Read)
    ensures |o.rest| <= |b|
    decreases |b|
  {
    match NextRecord(version, b)
    case NeedMore => Read([], b, false)
    case Invalid => Read([], b, true)
    case Record(n) =>
      var o := Records(conv, version, b[n..]);
      o.(records := [Deliver(conv, version, b[..n])] + o.records)
  }

  /** The reference reading: everything that can be read, up to the first bad header. */
  function Parse(conv: Converters, s: PState, b: seq<byte>): (o: Outcome)
    ensures |o.rest| <= |b|
  {
    if s.failed then Outcome([], b, s)
    else if s.metadataParsed then
      var o := Records(conv, s.version, b);
      Outcome(o.records, o.rest, s.(failed := o.bad))
    else
      match Metadata(b)
      case Wait => Outcome([], b, s)
      case Bad => Outcome([], b, s.(failed := true))
      case Ready(skip, version) =>
        var o := Records(conv, version, b[skip..]);
        Outcome(o.records, o.rest, PState(true, version, o.bad))
  }

  /** What one OnData call delivers: a bad header costs the whole batch. */
  function Feed(conv: Converters, s: PState, b: seq<byte>): (o: Outcome)
    ensures |o.rest| <= |b|
  {
    var o := Parse(conv, s, b);
    if o.state.failed then o.(records := []) else o
  }

  // ---- What the gate reads -----------------------------------------------------------

  /** The first eight bytes of a stream with `n` bytes of metadata: "DBN", the version, and the
      number, least significant byte first. */
  function MetadataHeader(version: byte, n: nat): (h: seq<byte>)
    ensures |h| == DBN_HEADER_SIZE
  {
    [68, 66, 78, version] + LittleEndian(n, 4)
  }

  lemma {:induction false} FrameSize(version: byte, n: nat, more: seq<byte>)
    requires n < 0x1_0000_0000
    ensures var b := MetadataHeader(version, n) + more; HasMagic(b) && b[3] == version && LittleEndian32(b[4..]) == n
  {
    var b := MetadataHeader(version, n) + more;
    var le := LittleEndian(n, 4);
    assert b[4..] == le + more;
    assert le[1..] == LittleEndian(n / 256, 3) && le[1..][1..] == LittleEndian(n / 256 / 256, 2);
    assert le[1..][1..][1..] == LittleEndian(n / 256 / 256 / 256, 1);
  }

  /** The first eight bytes are enough for the gate. */
  lemma {:induction false} HeaderDecides(b: seq<byte>)
    requires |b| >= DBN_HEADER_SIZE
    ensures var h := b[..DBN_HEADER_SIZE];
            HasMagic(h) == HasMagic(b) && h[3] == b[3] && LittleEndian32(h[4..]) == LittleEndian32(b[4..])
  {
  }

  /** A stream with metadata within the limit: the gate skips exactly that, and takes the version
      from it. */
  lemma {:induction false} MetadataSkipped(version: byte, body: seq<byte>, rest: seq<byte>)
    requires |body| <= MAX_METADATA_SIZE
    ensures Metadata(MetadataHeader(version, |body|) + body + rest) == Ready(DBN_HEADER_SIZE + |body|, version)
  {
    Assoc(MetadataHeader(version, |body|), body, rest);
    FrameSize(version, |body|, body + rest);
  }

  /** Until all of it has arrived the gate waits. */
  lemma {:induction false} MetadataAwaited(version: byte, body: seq<byte>, k: nat)
    requires |body| <= MAX_METADATA_SIZE && k < DBN_HEADER_SIZE + |body|
    ensures Metadata((MetadataHeader(version, |body|) + body)[..k]) == Wait
  {
    if k >= DBN_HEADER_SIZE {
      var h := MetadataHeader(version, |body|);
      assert (h + body)[..k] == h + body[..k - DBN_HEADER_SIZE];
      FrameSize(version, |body|, body[..k - DBN_HEADER_SIZE]);
    }
  }

  /** A number above the limit is refused at once. */
  lemma {:induction false} MetadataRefused(version: byte, n: nat, more: seq<byte>)
    requires MAX_METADATA_SIZE < n < 0x1_0000_0000
    ensures Metadata(MetadataHeader(version, n) + more) == Bad
  {
    FrameSize(version, n, more);
  }

  /** A stream that does not start with "DBN" has no metadata, and its records are of version 3. */
  lemma {:induction false} NoMetadata(b: seq<byte>)
    requires |b| >= DBN_HEADER_SIZE && b[..3] != [68, 66, 78]
    ensures Metadata(b) == Ready(0, 3)
  {
    assert b[..3] == [b[0], b[1], b[2]];
  }

  /** So a whole stream reads as its records, in the version its metadata says. */
  lemma {:induction false} StreamVersion(conv: Converters, version: byte, body: seq<byte>, b: seq<byte>)
    requires |body| <= MAX_METADATA_SIZE
    ensures var o := Records(conv, version, b);
            Parse(conv, START, MetadataHeader(version, |body|) + body + b) ==
              Outcome(o.records, o.rest, PState(true, version, o.bad))
  {
    MetadataSkipped(version, body, b);
    var h := MetadataHeader(version, |body|) + body;
    assert (h + b)[DBN_HEADER_SIZE + |body|..] == b;
  }

  // ---- Reading in pieces -------------------------------------------------------------

  /** Bytes that arrive later do not change a decision already made. */
  lemma {:induction false} NextGrows(version: byte, a: seq<byte>, b: seq<byte>)
    requires !NextRecord(version, a).NeedMore?
    ensures NextRecord(version, a + b) == NextRecord(version, a)
    ensures NextRecord(version, a).Record? ==>
              var n := NextRecord(version, a).size; (a + b)[..n] == a[..n] && (a + b)[n..] == a[n..] + b
  {
  }

  lemma {:induction false} RecordsSplit(conv: Converters, version: byte, a: seq<byte>, b: seq<byte>)
    requires !Records(conv, version, a).bad
    ensures var p := Records(conv, version, a); var q := Records(conv, version, p.rest + b);
            Records(conv, version, a + b) == q.(records := p.records + q.records)
    decreases |a|
  {
    match NextRecord(version, a)
    case NeedMore =>
      assert [] + Records(conv, version, a + b).records == Records(conv, version, a + b).records;
    case Record(n) =>
      NextGrows(version, a, b);
      RecordsSplit(conv, version, a[n..], b);
      Prepend(Deliver(conv, version, a[..n]), Records(conv, version, a[n..]).records,
              Records(conv, version, Records(conv, version, a).rest + b).records);
  }

  lemma {:induction false} Prepend(x: seq<byte>, r: seq<seq<byte>>, t: seq<seq<byte>>)
    ensures [x] + (r + t) == ([x] + r) + t
  {
  }

  lemma {:induction false} RecordsBad(conv: Converters, version: byte, a: seq<byte>, b: seq<byte>)
    requires Records(conv, version, a).bad
    ensures var o := Records(conv, version, a); Records(conv, version, a + b) == o.(rest := o.rest + b)
    decreases |a|
  {
    NextGrows(version, a, b);
    if NextRecord(version, a).Record? {
      RecordsBad(conv, version, a[NextRecord(version, a).size..], b);
    }
  }

  lemma {:induction false} MetadataGrows(a: seq<byte>, b: seq<byte>)
    requires !Metadata(a).Wait?
    ensures Metadata(a + b) == Metadata(a)
  {
    assert (a + b)[4..][..4] == a[4..][..4];
    assert LittleEndian32((a + b)[4..]) == LittleEndian32(a[4..]);
  }

  /** Reading a + b is reading a, then reading what a left followed by b. */
  lemma {:induction false} ParseSplit(conv: Converters, s: PState, a: seq<byte>, b: seq<byte>)
    requires !Parse(conv, s, a).state.failed
    ensures var p := Parse(conv, s, a); var q := Parse(conv, p.state, p.rest + b);
            Parse(conv, s, a + b) == Outcome(p.records + q.records, q.rest, q.state)
  {
    if s.metadataParsed {
      RecordsSplit(conv, s.version, a, b);
    } else {
      match Metadata(a)
      case Wait =>
        assert Parse(conv, s, a) == Outcome([], a, s);
      case Ready(skip, version) =>
        MetadataGrows(a, b);
        assert (a + b)[skip..] == a[skip..] + b;
        RecordsSplit(conv, version, a[skip..], b);
    }
  }

  /** A bad header stays bad, and hides everything after it. */
  lemma {:induction false} ParseBad(conv: Converters, s: PState, a: seq<byte>, b: seq<byte>)
    requires Parse(conv, s, a).state.failed
    ensures var o := Parse(conv, s, a); Parse(conv, s, a + b) == o.(rest := o.rest + b)
  {
    if s.failed {
    } else if s.metadataParsed {
      RecordsBad(conv, s.version, a, b);
    } else {
      MetadataGrows(a, b);
      if Metadata(a).Ready? {
        var skip := Metadata(a).skip;
        assert (a + b)[skip..] == a[skip..] + b;
        RecordsBad(conv, Metadata(a).version, a[skip..], b);
      }
    }
  }

  /** What is left over is a suffix, and reading the used-up part alone gives the same records
      with nothing left and no error. */
  lemma {:induction false} RecordsUsed(conv: Converters, version: byte, b: seq<byte>)
    ensures var o := Records(conv, version, b); var k := |b| - |o.rest|;
            b[k..] == o.rest && Records(conv, version, b[..k]) == Read(o.records, [], false)
    decreases |b|
  {
    var o := Records(conv, version, b);
    var k := |b| - |o.rest|;
    if NextRecord(version, b).Record? {
      var n := NextRecord(version, b).size;
      RecordsUsed(conv, version, b[n..]);
      TakeInTwo(b, n, k);
      assert NextRecord(version, b[..k]) == Record(n);
    }
  }

  lemma {:induction false} TakeInTwo(b: seq<byte>, n: nat, k: nat)
    requires n <= k <= |b|
    ensures b[..k][..n] == b[..n] && b[..k][n..] == b[n..][..k - n] && b[k..] == b[n..][k - n..]
  {
  }

  /** Reading is finished: reading what was left over again finds nothing. */
  lemma {:induction false} ParseIdle(conv: Converters, s: PState, b: seq<byte>)
    requires !Parse(conv, s, b).state.failed
    ensures var o := Parse(conv, s, b); Parse(conv, o.state, o.rest) == Outcome([], o.rest, o.state)
  {
    ParseSplit(conv, s, b, []);
    var o := Parse(conv, s, b);
    assert b + [] == b && o.rest + [] == o.rest;
    var q := Parse(conv, o.state, o.rest);
    assert o.records + q.records == o.records;
    assert |o.records + q.records| == |o.records| + |q.records|;
  }

  /** `whole` is the records already in hand followed by the reading `o`. */
  ghost predicate Continues(whole: Outcome, got: seq<seq<byte>>, o: Outcome) {
    whole == o.(records := got + o.records)
  }

  /** Two readings that agree up to records already in hand still agree when the same bytes
      arrive at both. */
  lemma {:induction false} ContinuesGrows(conv: Converters, s: PState, a: seq<byte>, got: seq<seq<byte>>, t: PState,
                                          c: seq<byte>, b: seq<byte>)
    requires Continues(Parse(conv, s, a), got, Parse(conv, t, c))
    ensures Continues(Parse(conv, s, a + b), got, Parse(conv, t, c + b))
  {
    var p, q := Parse(conv, s, a), Parse(conv, t, c);
    if p.state.failed {
      ParseBad(conv, s, a, b);
      ParseBad(conv, t, c, b);
    } else {
      ParseSplit(conv, s, a, b);
      ParseSplit(conv, t, c, b);
      var r := Parse(conv, p.state, p.rest + b);
      Assoc(got, q.records, r.records);
    }
  }

  /** Reading the front part `c` of `c + d` moves its records into hand. */
  lemma {:induction false} ContinuesRead(conv: Converters, whole: Outcome, got: seq<seq<byte>>, s: PState, c: seq<byte>,
                                         d: seq<byte>)
    requires Continues(whole, got, Parse(conv, s, c + d)) && !Parse(conv, s, c).state.failed
    ensures var o := Parse(conv, s, c); Continues(whole, got + o.records, Parse(conv, o.state, o.rest + d))
  {
    ParseSplit(conv, s, c, d);
    var o := Parse(conv, s, c);
    var r := Parse(conv, o.state, o.rest + d);
    Assoc(got, o.records, r.records);
  }

  // ---- Records are the bytes of the stream -------------------------------------------

  const RAW := Converters(r => false, (v, r) => r)

  /** Without conversion, the records followed by what is left are exactly the input. */
  lemma {:induction false} RecordsConcat(version: byte, b: seq<byte>)
    ensures var o := Records(RAW, version, b); Concat(o.records) + o.rest == b
    decreases |b|
  {
    if NextRecord(version, b).Record? {
      var n := NextRecord(version, b).size;
      RecordsConcat(version, b[n..]);
      var o := Records(RAW, version, b[n..]);
      assert ([b[..n]] + o.records)[0] == b[..n] && ([b[..n]] + o.records)[1..] == o.records;
      Assoc(b[..n], Concat(o.records), o.rest);
    } else {
      assert Concat([]) + b == b;
    }
  }

  /** The record a version's bytes become: converted if the version is older than 3 and the
      record's type calls for it, the same bytes otherwise. */
  ghost predicate ConvertedTo(conv: Converters, version: byte, raw: seq<byte>, r: seq<byte>) {
    && |raw| >= HEADER_SIZE
    && (version < 3 && conv.needed(raw[1]) ==> r == conv.convert(version, raw))
    && (version >= 3 || !conv.needed(raw[1]) ==> r == raw)
  }

  /** Conversion acts on each record by itself and never moves a boundary. */
  lemma {:induction false} RecordsConverted(conv: Converters, version: byte, b: seq<byte>)
    ensures var o := Records(conv, version, b); var raw := Records(RAW, version, b);
            && o.rest == raw.rest && o.bad == raw.bad && |o.records| == |raw.records|
            && forall i :: 0 <= i < |o.records| ==> ConvertedTo(conv, version, raw.records[i], o.records[i])
    decreases |b|
  {
    if NextRecord(version, b).Record? {
      var n := NextRecord(version, b).size;
      RecordsConverted(conv, version, b[n..]);
    }
  }

  /** The same of a reading from any state: boundaries, errors and what is left do not depend on
      the converters, and each record is converted as its version, the one in force after the
      gate, calls for. */
  lemma {:induction false} ParseConverted(conv: Converters, s: PState, b: seq<byte>)
    ensures var o := Parse(conv, s, b); var raw := Parse(RAW, s, b);
            && o.rest == raw.rest && o.state == raw.state && |o.records| == |raw.records|
            && forall i :: 0 <= i < |o.records| ==> ConvertedTo(conv, o.state.version, raw.records[i], o.records[i])
  {
    if !s.failed {
      if s.metadataParsed {
        RecordsConverted(conv, s.version, b);
      } else if Metadata(b).Ready? {
        RecordsConverted(conv, Metadata(b).version, b[Metadata(b).skip..]);
      }
    }
  }

  /** A version-3 stream read without error is its metadata, then the delivered records, then
      the unread tail: no byte lost, added or moved. */
  lemma {:induction false} StreamIsItsRecords(conv: Converters, b: seq<byte>)
    requires var o := Parse(conv, START, b); o.state.metadataParsed && o.state.version == 3
    ensures var o := Parse(conv, START, b);
            && Metadata(b).Ready? && b == b[..Metadata(b).skip] + Concat(o.records) + o.rest
  {
    var skip := Metadata(b).skip;
    VersionThreeRecords(conv, b[skip..]);
    assert b == b[..skip] + b[skip..];
    Assoc(b[..skip], Concat(Records(conv, 3, b[skip..]).records), Records(conv, 3, b[skip..]).rest);
  }

  lemma {:induction false} VersionThreeRecords(conv: Converters, b: seq<byte>)
    ensures var o := Records(conv, 3, b); Concat(o.records) + o.rest == b
  {
    var o, raw := Records(conv, 3, b), Records(RAW, 3, b);
    RecordsConcat(3, b);
    RecordsConverted(conv, 3, b);
    assert o.records == raw.records;
  }

  // ---- What a record is --------------------------------------------------------------

  /** A record: its first byte is its length in 4-byte units, and there is room for the header. */
  predicate WellFormed(r: seq<byte>) { |r| >= HEADER_SIZE && |r| == 4 * r[0] as int }

  /** A whole record in front is read, converted, and nothing else of what follows is touched. */
  lemma {:induction false} RecordRead(conv: Converters, version: byte, r: seq<byte>, t: seq<byte>)
    requires version <= 3 && WellFormed(r)
    ensures var o := Records(conv, version, r + t); var more := Records(conv, version, t);
            && o.records != [] && ConvertedTo(conv, version, r, o.records[0])
            && o == more.(records := [o.records[0]] + more.records)
  {
    assert (r + t)[..|r|] == r && (r + t)[|r|..] == t;
  }

  /** A part of a record waits. */
  lemma {:induction false} RecordAwaited(conv: Converters, version: byte, r: seq<byte>, k: nat)
    requires WellFormed(r) && k < |r|
    ensures Records(conv, version, r[..k]) == Read([], r[..k], false)
  {
  }

  /** A header that gives less than its own length is refused. */
  lemma {:induction false} RecordRefused(conv: Converters, version: byte, b: seq<byte>)
    requires |b| >= HEADER_SIZE && b[0] < 4
    ensures Records(conv, version, b) == Read([], b, true)
  {
  }

  /** And so is a whole record of a version above 3. */
  lemma {:induction false} VersionRefused(conv: Converters, version: byte, r: seq<byte>, t: seq<byte>)
    requires version > 3 && WellFormed(r)
    ensures Records(conv, version, r + t) == Read([], r + t, true)
  {
  }

  /** Round trip. Any metadata, then any records, then part of one more: exactly these records are
      delivered, each converted as the version calls for, and the part is left. */
  lemma {:induction false} StreamRoundTrip(conv: Converters, version: byte, body: seq<byte>, records: seq<seq<byte>>,
                                           last: seq<byte>, k: nat)
    requires version <= 3 && |body| <= MAX_METADATA_SIZE && WellFormed(last) && k < |last|
    requires forall i :: 0 <= i < |records| ==> WellFormed(records[i])
    ensures var o := Parse(conv, START, MetadataHeader(version, |body|) + body + (Concat(records) + last[..k]));
            && o.rest == last[..k] && o.state == PState(true, version, false) && |o.records| == |records|
            && forall i :: 0 <= i < |records| ==> ConvertedTo(conv, version, records[i], o.records[i])
  {
    StreamVersion(conv, version, body, Concat(records) + last[..k]);
    AllRead(conv, version, records, last, k);
  }

  lemma {:induction false} AllRead(conv: Converters, version: byte, records: seq<seq<byte>>, last: seq<byte>, k: nat)
    requires version <= 3 && WellFormed(last) && k < |last|
    requires forall i :: 0 <= i < |records| ==> WellFormed(records[i])
    ensures var o := Records(conv, version, Concat(records) + last[..k]);
            && o.rest == last[..k] && !o.bad && |o.records| == |records|
            && forall i :: 0 <= i < |records| ==> ConvertedTo(conv, version, records[i], o.records[i])
    decreases |records|
  {
    hide Records, ConvertedTo, WellFormed;
    if records == [] {
      assert [] + last[..k] == last[..k];
      RecordAwaited(conv, version, last, k);
    } else {
      var t := Concat(records[1..]) + last[..k];
      Assoc(records[0], Concat(records[1..]), last[..k]);
      RecordRead(conv, version, records[0], t);
      AllRead(conv, version, records[1..], last, k);
      var o, more := Records(conv, version, records[0] + t), Records(conv, version, t);
      forall i | 0 <= i < |records| ensures ConvertedTo(conv, version, records[i], o.records[i]) {
        if i > 0 { assert o.records[i] == more.records[i - 1] && records[i] == records[1..][i - 1]; }
      }
    }
  }

  // ---- Independence from segmentation ------------------------------------------------

  /** The parser fed chunk by chunk; what a call leaves is put in front of the next chunk. */
  function FeedAll(conv: Converters, s: PState, tail: seq<byte>, chunks: seq<seq<byte>>): Outcome
    decreases |chunks|
  {
    if chunks == [] then Outcome([], tail, s)
    else
      var o := Feed(conv, s, tail + chunks[0]);
      var f := FeedAll(conv, o.state, o.rest, chunks[1..]);
      f.(records := o.records + f.records)
  }

  lemma {:induction false} FeedAllFailed(conv: Converters, s: PState, tail: seq<byte>, chunks: seq<seq<byte>>)
    requires s.failed
    ensures FeedAll(conv, s, tail, chunks) == Outcome([], tail + Concat(chunks), s)
    decreases |chunks|
  {
    if chunks == [] {
      assert tail + Concat(chunks) == tail;
    } else {
      FeedAllFailed(conv, s, tail + chunks[0], chunks[1..]);
      assert (tail + chunks[0]) + Concat(chunks[1..]) == tail + Concat(chunks);
    }
  }

  /** The state and the tail never depend on how the stream was cut. The records do not either
      when the stream is well formed; when it is not, those delivered are a prefix of the
      reference, because the batch under construction is lost. */
  lemma {:induction false} FeedAllIsParse(conv: Converters, s: PState, tail: seq<byte>, chunks: seq<seq<byte>>)
    requires !s.failed && Parse(conv, s, tail) == Outcome([], tail, s)
    ensures var p := Parse(conv, s, tail + Concat(chunks)); var f := FeedAll(conv, s, tail, chunks);
            && f.rest == p.rest && f.state == p.state && f.records <= p.records
            && (!p.state.failed ==> f.records == p.records)
    decreases |chunks|
  {
    if chunks == [] {
      assert tail + Concat(chunks) == tail;
    } else {
      var a, rest := tail + chunks[0], Concat(chunks[1..]);
      assert tail + Concat(chunks) == a + rest;
      var o := Parse(conv, s, a);
      if o.state.failed {
        ParseBad(conv, s, a, rest);
        FeedAllFailed(conv, o.state, o.rest, chunks[1..]);
      } else {
        ParseIdle(conv, s, a);
        ParseSplit(conv, s, a, rest);
        FeedAllIsParse(conv, o.state, o.rest, chunks[1..]);
      }
    }
  }

  /** From the start of a stream: any two ways of cutting the same well-formed bytes deliver the
      same records and leave the same tail. */
  lemma {:induction false} SegmentationIndependent(conv: Converters, chunks: seq<seq<byte>>, chunks': seq<seq<byte>>)
    requires Concat(chunks) == Concat(chunks') && !Parse(conv, START, Concat(chunks)).state.failed
    ensures FeedAll(conv, START, [], chunks) == FeedAll(conv, START, [], chunks') == Parse(conv, START, Concat(chunks))
  {
    assert [] + Concat(chunks) == Concat(chunks);
    FeedAllIsParse(conv, START, [], chunks);
    FeedAllIsParse(conv, START, [], chunks');
  }

  /** Exactly what a malformed stream delivers: the records completed before the chunk in which
      the bad header became visible, and none of those that arrived with it. */
  lemma {:induction false} MalformedDelivery(conv: Converters, before: seq<seq<byte>>, chunk: seq<byte>,
                                             after: seq<seq<byte>>)
    requires !Parse(conv, START, Concat(before)).state.failed
    requires Parse(conv, START, Concat(before) + chunk).state.failed
    ensures FeedAll(conv, START, [], before + [chunk] + after).records == Parse(conv, START, Concat(before)).records
  {
    FeedAllPrefix(conv, START, [], before, [chunk] + after);
    assert before + [chunk] + after == before + ([chunk] + after);
    assert [] + Concat(before) == Concat(before);
    FeedAllIsParse(conv, START, [], before);
    var f := FeedAll(conv, START, [], before);
    ParseSplit(conv, START, Concat(before), chunk);
    var o := Feed(conv, f.state, f.rest + chunk);
    assert ([chunk] + after)[1..] == after;
    FeedAllFailed(conv, o.state, o.rest, after);
    assert f.records + ([] + []) == f.records;
  }

  lemma {:induction false} FeedAllPrefix(conv: Converters, s: PState, tail: seq<byte>, a: seq<seq<byte>>,
                                         b: seq<seq<byte>>)
    ensures var f := FeedAll(conv, s, tail, a); var g := FeedAll(conv, f.state, f.rest, b);
            FeedAll(conv, s, tail, a + b) == g.(records := f.records + g.records)
    decreases |a|
  {
    if a == [] {
      assert a + b == b;
      assert [] + FeedAll(conv, s, tail, b).records == FeedAll(conv, s, tail, b).records;
    } else {
      var o := Feed(conv, s, tail + a[0]);
      FeedAllPrefix(conv, o.state, o.rest, a[1..], b);
      assert (a + b)[0] == a[0] && (a + b)[1..] == a[1..] + b;
      var f := FeedAll(conv, o.state, o.rest, a[1..]);
      var g := FeedAll(conv, f.state, f.rest, b);
      Assoc(o.records, f.records, g.records);
    }
  }

  /** Where segmentation does show: a good record `r` followed by a bad header `z` is delivered
      when they arrive apart and lost when they arrive together. */
  lemma {:induction false} BatchLost(conv: Converters, r: seq<byte>, z: seq<byte>)
    requires WellFormed(r) && !HasMagic(r) && |z| >= HEADER_SIZE && z[0] < 4
    ensures FeedAll(conv, START, [], [r, z]).records == [r]
    ensures FeedAll(conv, START, [], [r + z]).records == []
  {
    GoodRecord(conv, r, []);
    GoodRecord(conv, r, z);
    assert r + [] == r;
    RecordRefused(conv, 3, z);
    assert Records(conv, 3, []) == Read([], [], false);
    MalformedDelivery(conv, [r], z, []);
    MalformedDelivery(conv, [], r + z, []);
    assert [r] + [z] + [] == [r, z] && [] + [r + z] + [] == [r + z];
    assert [r][1..] == [] && Concat([r]) == r + Concat([]) && r + [] == r && [] + (r + z) == r + z;
  }

  lemma {:induction false} GoodRecord(conv: Converters, r: seq<byte>, t: seq<byte>)
    requires WellFormed(r) && !HasMagic(r)
    ensures var o := Records(conv, 3, t);
            Parse(conv, START, r + t) == Outcome([r] + o.records, o.rest, PState(true, 3, o.bad))
  {
    assert (r + t)[0..] == r + t && (r + t)[..3] == r[..3];
    RecordRead(conv, 3, r, t);
  }

  /** `goal` is the reading of `b` behind the records already in hand. */
  ghost predicate Reaches(conv: Converters, version: byte, b: seq<byte>, got: seq<seq<byte>>, goal: Read) {
    var o := Records(conv, version, b); goal == o.(records := got + o.records)
  }

  /** One turn of the record loop: the front record moves into hand. */
  lemma {:induction false} RecordsStep(conv: Converters, version: byte, b: seq<byte>, got: seq<seq<byte>>, goal: Read)
    requires NextRecord(version, b).Record? && Reaches(conv, version, b, got, goal)
    ensures var n := NextRecord(version, b).size;
            Reaches(conv, version, b[n..], got + [Deliver(conv, version, b[..n])], goal)
  {
    var n := NextRecord(version, b).size;
    Assoc(got, [Deliver(conv, version, b[..n])], Records(conv, version, b[n..]).records);
  }

  lemma {:induction false} ReachesStart(conv: Converters, version: byte, b: seq<byte>)
    ensures Reaches(conv, version, b, [], Records(conv, version, b))
  {
    var o := Records(conv, version, b);
    assert [] + o.records == o.records;
  }

  lemma {:induction false} ReachesEnd(conv: Converters, version: byte, b: seq<byte>, got: seq<seq<byte>>, goal: Read)
    requires Reaches(conv, version, b, got, goal) && !NextRecord(version, b).Record?
    ensures goal == Read(got, b, NextRecord(version, b).Invalid?)
  {
    assert got + [] == got;
  }

  /** What a reading leaves is a suffix of the input. */
  lemma {:induction false} ParseSuffix(conv: Converters, s: PState, b: seq<byte>)
    ensures var o := Parse(conv, s, b); b[..|b| - |o.rest|] + o.rest == b
  {
    hide Records, Metadata;
    var o := Parse(conv, s, b);
    if !s.failed && s.metadataParsed {
      RecordsUsed(conv, s.version, b);
      assert b[0..] == b;
      TailJoins(b, 0, o.rest);
    } else if !s.failed && Metadata(b).Ready? {
      var skip := Metadata(b).skip;
      RecordsUsed(conv, Metadata(b).version, b[skip..]);
      TailJoins(b, skip, o.rest);
    }
  }

  lemma {:induction false} TailJoins(b: seq<byte>, skip: nat, rest: seq<byte>)
    requires skip + |rest| <= |b| && b[skip..][|b| - skip - |rest|..] == rest
    ensures b[..|b| - |rest|] + rest == b
  {
    assert b[skip..][|b| - skip - |rest|..] == b[|b| - |rest|..];
  }
}
