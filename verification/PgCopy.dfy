/** PostgreSQL binary COPY: ByteBuffer, the column encoders, Mapper, and the flush loop of
    write_batch; and a decoder written from the "Binary Format" section of the PostgreSQL COPY
    documentation. */
module PgCopy {
  import opened Bytes
  import TradingDate

  newtype int16 = x: int | -0x8000 <= x < 0x8000
  newtype int32 = x: int | -0x8000_0000 <= x < 0x8000_0000
  newtype int64 = x: int | -0x8000_0000_0000_0000 <= x < 0x8000_0000_0000_0000
  newtype uint64 = x: int | 0 <= x < 0x1_0000_0000_0000_0000

  // ---- Bytes of numbers --------------------------------------------------------------

  /** The low `n` bytes of a number, most significant first. */
  function BigEndian(u: nat, n: nat): (s: seq<byte>)
    ensures |s| == n
  {
    if n == 0 then [] else BigEndian(u / 256, n - 1) + [(u % 256) as byte]
  }

  /** The number with these bytes, most significant first. */
  function Unsigned(s: seq<byte>): nat {
    if s == [] then 0 else 256 * Unsigned(s[..|s| - 1]) + s[|s| - 1] as nat
  }

  function Power(n: nat): (p: nat)
    ensures p > 0
  {
    if n == 0 then 1 else 256 * Power(n - 1)
  }

  /** __builtin_bswap: the bytes in the opposite order. */
  function Swap(u: nat, n: nat): nat { Unsigned(LittleEndian(u, n)) }

  lemma {:induction false} UnsignedBigEndian(u: nat, n: nat)
    requires u < Power(n)
    ensures Unsigned(BigEndian(u, n)) == u
  {
    if n > 0 {
      UnsignedBigEndian(u / 256, n - 1);
      assert BigEndian(u, n)[..n - 1] == BigEndian(u / 256, n - 1);
    }
  }

  /** On a little-endian machine the memory image of the swapped number is big-endian. */
  lemma {:induction false} SwapStoresBigEndian(u: nat, n: nat)
    ensures LittleEndian(Swap(u, n), n) == BigEndian(u, n)
  {
    StoresReversed(u, n);
    StoredUnsigned(LittleEndian(u, n));
    assert LittleEndian(Swap(u, n), n) == BigEndian(u, n);
  }

  lemma {:induction false} StoresReversed(u: nat, n: nat)
    ensures forall i :: 0 <= i < n ==> BigEndian(u, n)[i] == LittleEndian(u, n)[n - 1 - i]
  {
    if n > 0 { StoresReversed(u / 256, n - 1); }
  }

  lemma {:induction false} StoredUnsigned(s: seq<byte>)
    ensures forall i :: 0 <= i < |s| ==> LittleEndian(Unsigned(s), |s|)[i] == s[|s| - 1 - i]
  {
    if s != [] {
      var front := s[..|s| - 1];
      StoredUnsigned(front);
      assert Unsigned(s) % 256 == s[|s| - 1] as nat && Unsigned(s) / 256 == Unsigned(front);
    }
  }

  /** Two's complement of `v` in a word of `m` values, and back. */
  function Wrap(v: int, m: nat): (u: nat)
    requires m > 0
    ensures u < m
  {
    v % m
  }

  function Signed(u: nat, m: nat): int { if u < m / 2 then u else u - m }

  const M16: nat := 0x1_0000
  const M32: nat := 0x1_0000_0000
  const M64: nat := 0x1_0000_0000_0000_0000

  function Bytes16(v: int): (s: seq<byte>)
    ensures |s| == 2
  {
    BigEndian(Wrap(v, M16), 2)
  }

  function Bytes32(v: int): (s: seq<byte>)
    ensures |s| == 4
  {
    BigEndian(Wrap(v, M32), 4)
  }

  function Bytes64(v: int): (s: seq<byte>)
    ensures |s| == 8
  {
    BigEndian(Wrap(v, M64), 8)
  }

  lemma {:induction false} Powers()
    ensures Power(2) == M16 && Power(4) == M32 && Power(8) == M64
  {
    assert Power(1) == 256 && Power(3) == 256 * Power(2) && Power(5) == 256 * Power(4);
    assert Power(6) == 256 * Power(5) && Power(7) == 256 * Power(6);
  }

  /** Reading a number back gives it modulo the word. */
  lemma {:induction false} ReadBack(v: int)
    ensures Unsigned(Bytes16(v)) == Wrap(v, M16)
    ensures Unsigned(Bytes32(v)) == Wrap(v, M32)
    ensures Unsigned(Bytes64(v)) == Wrap(v, M64)
  {
    hide BigEndian, Unsigned, Wrap, Power;
    Powers();
    UnsignedBigEndian(Wrap(v, M16), 2);
    UnsignedBigEndian(Wrap(v, M32), 4);
    UnsignedBigEndian(Wrap(v, M64), 8);
  }

  lemma {:induction false} SignedWrap(v: int, m: nat)
    requires m in {M16, M32, M64}
    ensures Signed(Wrap(v, m), m) == v <==> -(m as int) <= 2 * v < m
  {
    if m == M16 { Signed16(v); } else if m == M32 { Signed32(v); } else { Signed64(v); }
  }

  lemma {:induction false} Signed16(v: int)
    ensures Signed(Wrap(v, M16), M16) == v <==> -0x1_0000 <= 2 * v < 0x1_0000
  {
    assert Wrap(v, M16) == v % 0x1_0000;
  }

  lemma {:induction false} Signed32(v: int)
    ensures Signed(Wrap(v, M32), M32) == v <==> -0x1_0000_0000 <= 2 * v < 0x1_0000_0000
  {
    assert Wrap(v, M32) == v % 0x1_0000_0000;
  }

  lemma {:induction false} Signed64(v: int)
    ensures Signed(Wrap(v, M64), M64) == v <==> -0x1_0000_0000_0000_0000 <= 2 * v < 0x1_0000_0000_0000_0000
  {
    assert Wrap(v, M64) == v % 0x1_0000_0000_0000_0000;
  }

  // ---- Rows and their bytes ----------------------------------------------------------

  datatype Kind = Int64 | Int32 | Int16 | Char | Timestamp | Text | Bool | Float64

  /** A column value as the program has it: a timestamp is nanoseconds since 1970, a double is its
      bits. */
  datatype Value = I64(i64: int64) | I32(i32: int32) | I16(i16: int16) | Ch(ch: byte) | Ts(ns: int64)
                 | Tx(text: seq<byte>) | Bl(b: bool) | F64(bits: uint64)
  {
    function Kind(): Kind {
      match this
      case I64(_) => Int64
      case I32(_) => Int32
      case I16(_) => Int16
      case Ch(_) => Char
      case Ts(_) => Timestamp
      case Tx(_) => Text
      case Bl(_) => Bool
      case F64(_) => Float64
    }
  }

  type Row = seq<Value>

  ghost predicate Conforms(row: Row, schema: seq<Kind>) {
    |row| == |schema| && forall i :: 0 <= i < |row| ==> row[i].Kind() == schema[i]
  }

  const PG_EPOCH_OFFSET_USEC: int := 946_684_800_000_000

  /** C++ division truncates towards zero. */
  function Truncated(a: int, b: int): int
    requires b > 0
  {
    if a >= 0 then a / b else -(-a / b)
  }

  function Microseconds(ns: int64): int { Truncated(ns as int, 1000) - PG_EPOCH_OFFSET_USEC }

  function Payload(v: Value): seq<byte> {
    match v
    case I64(n) => Bytes64(n as int)
    case I32(n) => Bytes32(n as int)
    case I16(n) => Bytes16(n as int)
    case Ch(c) => [c]
    case Ts(ns) => Bytes64(Microseconds(ns))
    case Tx(t) => t
    case Bl(b) => [if b then 1 else 0]
    case F64(bits) => Bytes64(bits as int)
  }

  /** The length, as a 32-bit integer, and the payload. */
  function Field(v: Value): seq<byte> { Bytes32(|Payload(v)|) + Payload(v) }

  function Fields(row: Row): seq<byte> { if row == [] then [] else Field(row[0]) + Fields(row[1..]) }

  function EncodedRow(row: Row): (s: seq<byte>)
    ensures |s| >= 2
  {
    Bytes16(|row|) + Fields(row)
  }

  function EncodedRows(rows: seq<Row>): seq<byte> {
    if rows == [] then [] else EncodedRow(rows[0]) + EncodedRows(rows[1..])
  }

  const SIGNATURE: seq<byte> := [80, 71, 67, 79, 80, 89, 10, 255, 13, 10, 0]

  function Header(): (s: seq<byte>)
    ensures |s| == 19
  {
    SIGNATURE + Bytes32(0) + Bytes32(0)
  }

  function Trailer(): (s: seq<byte>)
    ensures |s| == 2
  {
    Bytes16(-1)
  }

  /** A whole COPY: header, rows, trailer. */
  function CopyFile(rows: seq<Row>): seq<byte> { Header() + (EncodedRows(rows) + Trailer()) }

  // ---- ByteBuffer and Mapper ---------------------------------------------------------

  class ByteBuffer {
    var data: seq<byte>

    constructor ()
      ensures data == []
    {
      data := [];
    }

    /** Swap to network order, then append the bytes as they lie in memory. */
    method PutInt16(v: int)
      modifies this
      ensures data == old(data) + Bytes16(v)
    {
      SwapStoresBigEndian(Wrap(v, M16), 2);
      data := data + LittleEndian(Swap(Wrap(v, M16), 2), 2);
    }

    method PutInt32(v: int)
      modifies this
      ensures data == old(data) + Bytes32(v)
    {
      SwapStoresBigEndian(Wrap(v, M32), 4);
      data := data + LittleEndian(Swap(Wrap(v, M32), 4), 4);
    }

    method PutInt64(v: int)
      modifies this
      ensures data == old(data) + Bytes64(v)
    {
      SwapStoresBigEndian(Wrap(v, M64), 8);
      data := data + LittleEndian(Swap(Wrap(v, M64), 8), 8);
    }

    method PutByte(b: byte)
      modifies this
      ensures data == old(data) + [b]
    {
      data := data + [b];
    }

    method PutBytes(s: seq<byte>)
      modifies this
      ensures data == old(data) + s
    {
      data := data + s;
    }

    method Clear()
      modifies this
      ensures data == []
    {
      data := [];
    }
  }

  /** The encoder of the value's column type. */
  method EncodeField(v: Value, buf: ByteBuffer)
    modifies buf
    ensures buf.data == old(buf.data) + Field(v)
  {
    hide Bytes16, Bytes32, Bytes64;
    match v {
      case I64(n) => buf.PutInt32(8); buf.PutInt64(n as int);
      case I32(n) => buf.PutInt32(4); buf.PutInt32(n as int);
      case I16(n) => buf.PutInt32(2); buf.PutInt16(n as int);
      case Ch(c) => buf.PutInt32(1); buf.PutByte(c);
      case Ts(ns) => buf.PutInt32(8); buf.PutInt64(Truncated(ns as int, 1000) - PG_EPOCH_OFFSET_USEC);
      case Tx(t) => buf.PutInt32(|t|); buf.PutBytes(t);
      case Bl(b) => buf.PutInt32(1); buf.PutByte(if b then 1 else 0);
      case F64(bits) => buf.PutInt32(8); buf.PutInt64(bits as int);
    }
    Assoc(old(buf.data), Bytes32(|Payload(v)|), Payload(v));
  }

  method EncodeRow(row: Row, buf: ByteBuffer)
    modifies buf
    ensures buf.data == old(buf.data) + EncodedRow(row)
  {
    hide Field;
    buf.PutInt16(|row|);
    Assoc(old(buf.data), Bytes16(|row|), Fields(row));
    for i := 0 to |row|
      invariant buf.data + Fields(row[i..]) == old(buf.data) + EncodedRow(row)
    {
      assert row[i..][0] == row[i] && row[i..][1..] == row[i + 1..];
      Assoc(buf.data, Field(row[i]), Fields(row[i + 1..]));
      EncodeField(row[i], buf);
    }
    assert buf.data + Fields(row[|row|..]) == buf.data;
  }

  method WriteCopyHeader(buf: ByteBuffer)
    modifies buf
    ensures buf.data == old(buf.data) + Header()
  {
    hide Bytes32;
    buf.PutBytes(SIGNATURE);
    buf.PutInt32(0);
    buf.PutInt32(0);
  }

  method WriteCopyTrailer(buf: ByteBuffer)
    modifies buf
    ensures buf.data == old(buf.data) + Trailer()
  {
    buf.PutInt16(-1);
  }

  // ---- A decoder for the format ------------------------------------------------------

  /** What the database gets: a time in microseconds since 2000-01-01. */
  datatype Datum = Null | Whole(n: int) | OneByte(b: byte) | Time(usec: int) | Bytes(text: seq<byte>)
                 | Truth(truth: bool) | Double(bits: nat)

  function DecodePayload(kind: Kind, body: seq<byte>): Option<Datum> {
    var u := Unsigned(body);
    match kind
    case Int64 => if |body| == 8 then Some(Whole(Signed(u, M64))) else None
    case Int32 => if |body| == 4 then Some(Whole(Signed(u, M32))) else None
    case Int16 => if |body| == 2 then Some(Whole(Signed(u, M16))) else None
    case Char => if |body| == 1 then Some(OneByte(body[0])) else None
    case Timestamp => if |body| == 8 then Some(Time(Signed(u, M64))) else None
    case Text => Some(Bytes(body))
    case Bool => if |body| == 1 then Some(Truth(body[0] != 0)) else None
    case Float64 => if |body| == 8 then Some(Double(u)) else None
  }

  /** A decoded part and the bytes after it. */
  datatype Read<T> = Bad | Good(value: T, rest: seq<byte>)

  function DecodeField(kind: Kind, s: seq<byte>): (r: Read<Datum>)
    ensures r.Good? ==> |r.rest| < |s|
  {
    if |s| < 4 then Bad
    else
      var length := Signed(Unsigned(s[..4]), M32);
      if length == -1 then Good(Null, s[4..])
      else if length < 0 || length > |s| - 4 then Bad
      else
        var datum := DecodePayload(kind, s[4..4 + length]);
        if datum.None? then Bad else Good(datum.value, s[4 + length..])
  }

  function DecodeFields(schema: seq<Kind>, s: seq<byte>): (r: Read<seq<Datum>>)
    ensures r.Good? ==> |r.rest| <= |s|
  {
    if schema == [] then Good([], s)
    else
      var first := DecodeField(schema[0], s);
      if first.Bad? then Bad
      else
        var others := DecodeFields(schema[1..], first.rest);
        if others.Bad? then Bad else Good([first.value] + others.value, others.rest)
  }

  /** Tuples up to the trailer, with nothing after it. */
  function DecodeRows(schema: seq<Kind>, s: seq<byte>): Option<seq<seq<Datum>>>
    decreases |s|
  {
    if |s| < 2 then None
    else
      var count := Signed(Unsigned(s[..2]), M16);
      if count == -1 then (if |s| == 2 then Some([]) else None)
      else if count != |schema| then None
      else
        var row := DecodeFields(schema, s[2..]);
        if row.Bad? then None
        else
          var others := DecodeRows(schema, row.rest);
          if others.None? then None else Some([row.value] + others.value)
  }

  /** Signature, flags without a critical one, a header extension to skip, tuples. */
  function Decode(schema: seq<Kind>, s: seq<byte>): Option<seq<seq<Datum>>> {
    if |s| < 19 || s[..11] != SIGNATURE || Unsigned(s[11..15]) >= 0x1_0000 then None
    else
      var extension := Signed(Unsigned(s[15..19]), M32);
      if extension < 0 || extension > |s| - 19 then None else DecodeRows(schema, s[19 + extension..])
  }

  // ---- What survives -----------------------------------------------------------------

  /** What a value is meant to become. */
  function Meaning(v: Value): Datum {
    match v
    case I64(n) => Whole(n as int)
    case I32(n) => Whole(n as int)
    case I16(n) => Whole(n as int)
    case Ch(c) => OneByte(c)
    case Ts(ns) => Time(Microseconds(ns))
    case Tx(t) => Bytes(t)
    case Bl(b) => Truth(b)
    case F64(bits) => Double(bits as nat)
  }

  function Meanings(row: Row): (r: seq<Datum>)
    ensures |r| == |row|
  {
    if row == [] then [] else [Meaning(row[0])] + Meanings(row[1..])
  }

  function AllMeanings(rows: seq<Row>): seq<seq<Datum>> {
    if rows == [] then [] else [Meanings(rows[0])] + AllMeanings(rows[1..])
  }

  const DAY_USEC: int := 86_400_000_000

  /** The first moment of 2000-01-01, in microseconds since 1970. */
  function Year2000(): int { TradingDate.DayNumber(TradingDate.Date(2000, 1, 1)) * DAY_USEC }

  /** The epoch of stored times is the civil date 2000-01-01. */
  lemma {:induction false} EpochIsYear2000()
    ensures PG_EPOCH_OFFSET_USEC == Year2000()
    ensures TradingDate.Civil(PG_EPOCH_OFFSET_USEC / DAY_USEC) == TradingDate.Date(2000, 1, 1)
    ensures PG_EPOCH_OFFSET_USEC % DAY_USEC == 0
  {
    assert TradingDate.DayNumber(TradingDate.Date(2000, 1, 1)) == 10957;
    TradingDate.Bijection(TradingDate.Date(2000, 1, 1), 0);
  }

  /** The time stored is the time given, cut towards 1970 to a whole microsecond and counted from
      2000-01-01. */
  lemma {:induction false} TimestampMeaning(ns: int64)
    ensures var kept := (Microseconds(ns) + Year2000()) * 1000;
            if ns >= 0 then kept <= ns as int < kept + 1000 else kept - 1000 < ns as int <= kept
    ensures -(M64 as int) <= 2 * Microseconds(ns) < M64
  {
    hide Year2000;
    EpochIsYear2000();
  }

  predicate ShortText(v: Value) { v.Tx? ==> |v.text| < 0x8000_0000 }

  lemma {:induction false} PayloadBack(v: Value)
    ensures DecodePayload(v.Kind(), Payload(v)) == Some(Meaning(v))
  {
    hide Bytes16, Bytes32, Bytes64, Unsigned, Wrap, Signed;
    match v {
      case I64(n) => ReadBack(n as int); SignedWrap(n as int, M64);
      case I32(n) => ReadBack(n as int); SignedWrap(n as int, M32);
      case I16(n) => ReadBack(n as int); SignedWrap(n as int, M16);
      case Ch(c) =>
      case Ts(ns) =>
        TimestampMeaning(ns);
        ReadBack(Microseconds(ns));
        SignedWrap(Microseconds(ns), M64);
      case Tx(t) =>
      case Bl(b) =>
      case F64(bits) => ReadBack(bits as int); BitsKept(bits);
    }
  }

  lemma {:induction false} BitsKept(bits: uint64)
    ensures Wrap(bits as int, M64) == bits as nat
  {
  }

  lemma {:induction false} SplitParts(a: seq<byte>, b: seq<byte>, rest: seq<byte>)
    ensures var s := (a + b) + rest;
            s[..|a|] == a && s[|a|..] == b + rest && s[|a|..|a| + |b|] == b && s[|a| + |b|..] == rest
  {
  }

  /** A field is read back exactly when it is not a text of 2^31 bytes or more, whose length
      does not fit the length word. */
  lemma {:induction false} FieldBack(v: Value, rest: seq<byte>)
    ensures ShortText(v) ==> DecodeField(v.Kind(), Field(v) + rest) == Good(Meaning(v), rest)
    ensures !ShortText(v) ==> var r := DecodeField(v.Kind(), Field(v) + rest); r.Bad? || r.value != Meaning(v)
  {
    hide Bytes32, Unsigned, Wrap, Signed, Payload, DecodePayload;
    var size := |Payload(v)|;
    SplitParts(Bytes32(size), Payload(v), rest);
    ReadBack(size);
    SignedWrap(size, M32);
    PayloadBack(v);
    PayloadSize(v);
    if !ShortText(v) { LongText(v, Field(v) + rest); }
  }

  lemma {:induction false} PayloadSize(v: Value)
    ensures v.Tx? || |Payload(v)| <= 8
    ensures v.Tx? ==> Payload(v) == v.text
  {
  }

  lemma {:induction false} LongText(v: Value, s: seq<byte>)
    requires v.Tx? && |s| >= 4 && Signed(Unsigned(s[..4]), M32) != |v.text|
    ensures var r := DecodeField(Text, s); r.Bad? || r.value != Bytes(v.text)
  {
    hide Unsigned, Signed;
  }

  lemma {:induction false} SameList<T>(a: T, x: seq<T>, b: T, y: seq<T>)
    ensures [a] + x == [b] + y <==> a == b && x == y
  {
    assert ([a] + x)[0] == a && ([a] + x)[1..] == x;
    assert ([b] + y)[0] == b && ([b] + y)[1..] == y;
  }

  ghost predicate AllShort(row: Row) { forall i :: 0 <= i < |row| ==> ShortText(row[i]) }

  lemma {:induction false} FieldsBack(schema: seq<Kind>, row: Row, rest: seq<byte>)
    requires Conforms(row, schema)
    ensures var r := DecodeFields(schema, Fields(row) + rest);
            if AllShort(row) then r == Good(Meanings(row), rest) else r.Bad? || r.value != Meanings(row)
  {
    hide Field, Meaning, DecodeField;
    if row == [] {
      assert [] + rest == rest;
    } else {
      var others := Fields(row[1..]) + rest;
      Assoc(Field(row[0]), Fields(row[1..]), rest);
      FieldBack(row[0], others);
      FieldsBack(schema[1..], row[1..], rest);
      assert AllShort(row) <==> ShortText(row[0]) && AllShort(row[1..]) by {
        assert forall i :: 1 <= i < |row| ==> row[i] == row[1..][i - 1];
      }
      var first := DecodeField(schema[0], Field(row[0]) + others);
      if first.Good? {
        var tail := DecodeFields(schema[1..], first.rest);
        if tail.Good? { SameList(first.value, tail.value, Meaning(row[0]), Meanings(row[1..])); }
      }
    }
  }

  /** The rows that survive: texts below 2^31 bytes, and columns that fit a 16-bit count. */
  ghost predicate Storable(row: Row) { |row| < 0x8000 && AllShort(row) }

  lemma {:induction false} RowBack(schema: seq<Kind>, row: Row, rest: seq<byte>)
    requires Conforms(row, schema) && |row| < 0x8000
    ensures var s := EncodedRow(row) + rest; var r := DecodeFields(schema, s[2..]);
            && Signed(Unsigned(s[..2]), M16) == |schema|
            && if AllShort(row) then r == Good(Meanings(row), rest) else r.Bad? || r.value != Meanings(row)
  {
    hide Fields, Meanings, DecodeFields, AllShort, Bytes16, Unsigned, Signed, Wrap;
    SplitParts(Bytes16(|row|), Fields(row), rest);
    ReadBack(|row|);
    SignedWrap(|row|, M16);
    FieldsBack(schema, row, rest);
  }

  lemma {:induction false} WideRow(schema: seq<Kind>, row: Row, rest: seq<byte>)
    requires Conforms(row, schema) && |row| >= 0x8000
    ensures DecodeRows(schema, EncodedRow(row) + rest) in {None, Some([])}
  {
    hide Fields, DecodeFields, AllShort, Bytes16, Unsigned, Signed, Wrap;
    SplitParts(Bytes16(|row|), Fields(row), rest);
    ReadBack(|row|);
    SignedWrap(|row|, M16);
  }

  /** The tuples decode to the rows exactly when every row is storable. */
  lemma {:induction false} RowsBack(schema: seq<Kind>, rows: seq<Row>)
    requires forall i :: 0 <= i < |rows| ==> Conforms(rows[i], schema)
    ensures DecodeRows(schema, EncodedRows(rows) + Trailer()) == Some(AllMeanings(rows))
        <==> forall i :: 0 <= i < |rows| ==> Storable(rows[i])
  {
    hide EncodedRow, Meanings, DecodeFields, AllShort, Unsigned, Signed, Conforms, Trailer;
    if rows == [] {
      TrailerEnds(schema);
      assert [] + Trailer() == Trailer();
    } else {
      var others := EncodedRows(rows[1..]) + Trailer();
      Assoc(EncodedRow(rows[0]), EncodedRows(rows[1..]), Trailer());
      assert forall i :: 1 <= i < |rows| ==> rows[i] == rows[1..][i - 1];
      RowsBack(schema, rows[1..]);
      if |rows[0]| >= 0x8000 {
        WideRow(schema, rows[0], others);
      } else {
        NotTrailer(schema, rows[0]);
        RowBack(schema, rows[0], others);
        var first := DecodeFields(schema, (EncodedRow(rows[0]) + others)[2..]);
        if first.Good? {
          var tail := DecodeRows(schema, first.rest);
          if tail.Some? { SameList(first.value, tail.value, Meanings(rows[0]), AllMeanings(rows[1..])); }
        }
      }
    }
  }

  lemma {:induction false} NotTrailer(schema: seq<Kind>, row: Row)
    requires Conforms(row, schema)
    ensures |schema| == |row|
  {
  }

  lemma {:induction false} TrailerEnds(schema: seq<Kind>)
    ensures DecodeRows(schema, Trailer()) == Some([])
  {
    hide Unsigned, Signed, Wrap, Bytes16;
    ReadBack(-1);
    SignedWrap(-1, M16);
    assert Trailer()[..2] == Trailer();
  }

  /** A COPY of any rows of a table decodes to what the rows mean exactly when every row is
      storable. */
  lemma {:induction false} CopyRoundTrip(schema: seq<Kind>, rows: seq<Row>)
    requires forall i :: 0 <= i < |rows| ==> Conforms(rows[i], schema)
    ensures Decode(schema, CopyFile(rows)) == Some(AllMeanings(rows))
        <==> forall i :: 0 <= i < |rows| ==> Storable(rows[i])
  {
    hide EncodedRows, Storable, Unsigned, Signed, Conforms, Trailer, DecodeRows, Wrap, Bytes32, AllMeanings;
    var tuples := EncodedRows(rows) + Trailer();
    HeaderParts(tuples);
    ReadBack(0);
    SignedWrap(0, M32);
    ZeroWrap();
    RowsBack(schema, rows);
  }

  lemma {:induction false} ZeroWrap()
    ensures Wrap(0, M32) == 0
  {
  }

  lemma {:induction false} HeaderParts(tuples: seq<byte>)
    ensures var s := Header() + tuples;
            s[..11] == SIGNATURE && s[11..15] == Bytes32(0) && s[15..19] == Bytes32(0) && s[19..] == tuples
  {
    hide Bytes32;
    assert |SIGNATURE| == 11;
  }

  // ---- The flush loop ----------------------------------------------------------------

  const FLUSH_THRESHOLD: nat := 1024 * 1024

  function AllRows(batches: seq<seq<Row>>): seq<Row> {
    if batches == [] then [] else batches[0] + AllRows(batches[1..])
  }

  lemma {:induction false} EncodedAppend(a: seq<Row>, b: seq<Row>)
    ensures EncodedRows(a + b) == EncodedRows(a) + EncodedRows(b)
  {
    hide EncodedRow;
    if a == [] {
      assert a + b == b;
    } else {
      assert (a + b)[0] == a[0] && (a + b)[1..] == a[1..] + b;
      EncodedAppend(a[1..], b);
      Assoc(EncodedRow(a[0]), EncodedRows(a[1..]), EncodedRows(b));
    }
  }

  lemma {:induction false} OneRow(row: Row)
    ensures EncodedRows([row]) == EncodedRow(row)
  {
    hide EncodedRow;
    assert [row][1..] == [] && EncodedRow(row) + [] == EncodedRow(row);
  }

  /** Every chunk sent is a whole number of rows, and only the last may be below the threshold. */
  ghost predicate GoodChunks(chunks: seq<seq<byte>>) {
    forall i :: 0 <= i < |chunks| ==> |chunks[i]| >= FLUSH_THRESHOLD
  }

  /** One row goes into the buffer, and a full buffer goes out. */
  method BufferRow(row: Row, buf: ByteBuffer, sent: seq<seq<byte>>) returns (now: seq<seq<byte>>)
    requires |buf.data| < FLUSH_THRESHOLD && GoodChunks(sent)
    modifies buf
    ensures |buf.data| < FLUSH_THRESHOLD && GoodChunks(now)
    ensures Concat(now) + buf.data == (Concat(sent) + old(buf.data)) + EncodedRow(row)
    ensures forall i :: |sent| <= i < |now| ==> |now[i]| < FLUSH_THRESHOLD + |EncodedRow(row)|
    ensures sent <= now
  {
    hide EncodedRow;
    EncodeRow(row, buf);
    Assoc(Concat(sent), old(buf.data), EncodedRow(row));
    now := sent;
    if |buf.data| >= FLUSH_THRESHOLD {
      ConcatAppend(sent, [buf.data]);
      assert Concat([buf.data]) == buf.data + Concat([]) == buf.data;
      now := sent + [buf.data];
      buf.Clear();
      assert Concat(now) + [] == Concat(now);
    }
  }

  /** However the rows are cut into chunks, what is sent is the encoded rows. */
  method WriteBatch(batches: seq<seq<Row>>) returns (sent: seq<seq<byte>>)
    ensures Concat(sent) == EncodedRows(AllRows(batches))
    ensures forall i :: 0 <= i < |sent| ==> sent[i] != [] && (i < |sent| - 1 ==> |sent[i]| >= FLUSH_THRESHOLD)
  {
    hide EncodedRow, EncodedRows;
    var buf := new ByteBuffer();
    sent := [];
    ghost var done: seq<Row> := [];
    assert EncodedRows([]) == [] by { NoRows(); }
    assert AllRows(batches[0..]) == done + AllRows(batches[0..]);
    for n := 0 to |batches|
      invariant |buf.data| < FLUSH_THRESHOLD && GoodChunks(sent)
      invariant Concat(sent) + buf.data == EncodedRows(done)
      invariant AllRows(batches) == done + AllRows(batches[n..])
    {
      var batch := batches[n];
      ghost var before := done;
      assert batches[n..][1..] == batches[n + 1..];
      assert batch[..0] == [] && before + [] == before;
      for k := 0 to |batch|
        invariant |buf.data| < FLUSH_THRESHOLD && GoodChunks(sent)
        invariant done == before + batch[..k] && Concat(sent) + buf.data == EncodedRows(done)
      {
        sent := BufferRow(batch[k], buf, sent);
        OneRow(batch[k]);
        EncodedAppend(done, [batch[k]]);
        assert batch[..k + 1] == batch[..k] + [batch[k]];
        Assoc(before, batch[..k], [batch[k]]);
        done := done + [batch[k]];
      }
      assert batch[..|batch|] == batch;
      Assoc(before, batch, AllRows(batches[n + 1..]));
    }
    assert batches[|batches|..] == [] && done + [] == done;
    if |buf.data| > 0 {
      ConcatAppend(sent, [buf.data]);
      assert Concat([buf.data]) == buf.data + Concat([]) == buf.data;
      sent := sent + [buf.data];
    } else {
      assert Concat(sent) + [] == Concat(sent);
    }
  }

  lemma {:induction false} NoRows()
    ensures EncodedRows([]) == []
  {
  }
}
