/** The text StoreProgress writes for a list of completed byte ranges, and ParseRanges, which
    reads it back. */
module RangeText {
  import opened Bytes
  import opened Decimal

  const UINT64_MODULUS: nat := 0x1_0000_0000_0000_0000

  newtype uint64 = n: int | 0 <= n < UINT64_MODULUS

  datatype Range = Range(start: uint64, end: uint64)

  // ---- Printing ----------------------------------------------------------------------

  /** An opening bracket, the digits `a`, a comma, the digits `b` and a closing bracket. */
  function Pieces(a: string, b: string): string { "[" + a + "," + b + "]" }

  function RangeString(r: Range): string { Pieces(Print(r.start as nat), Print(r.end as nat)) }

  /** The ranges from index `i` on, each after the first preceded by a comma. */
  function Body(ranges: seq<Range>, i: nat): string
    requires i <= |ranges|
    decreases |ranges| - i
  {
    if i == |ranges| then "" else (if i > 0 then "," else "") + RangeString(ranges[i]) + Body(ranges, i + 1)
  }

  lemma {:induction false} BodySplit(text: string, ranges: seq<Range>, i: nat)
    requires i < |ranges|
    ensures var head := if i > 0 then text + "," else text;
            text + Body(ranges, i) == (head + RangeString(ranges[i])) + Body(ranges, i + 1)
  {
    var t, rest := RangeString(ranges[i]), Body(ranges, i + 1);
    if i > 0 {
      Assoc(text, "," + t, rest);
      Assoc(text, ",", t);
    } else {
      assert "" + t == t;
      Assoc(text, t, rest);
    }
  }

  method PrintRanges(ranges: seq<Range>) returns (text: string)
    ensures text == "[" + Body(ranges, 0) + "]"
  {
    text := "[";
    var i := 0;
    while i < |ranges|
      invariant i <= |ranges|
      invariant text + Body(ranges, i) == "[" + Body(ranges, 0)
    {
      BodySplit(text, ranges, i);
      if i > 0 { text := text + ","; }
      text := text + RangeString(ranges[i]);
      i := i + 1;
    }
    assert text + "" == text;
    text := text + "]";
  }

  // ---- std::string and std::stoull ---------------------------------------------------

  /** std::string::find: the first position of `c` at or after `pos`, or |s| for npos. */
  function Find(s: string, c: char, pos: nat): (i: nat)
    ensures pos <= |s| ==> pos <= i <= |s|
    ensures pos <= i < |s| ==> s[i] == c
    ensures forall k :: pos <= k < i && k < |s| ==> s[k] != c
    decreases |s| - pos
  {
    if pos >= |s| then |s| else if s[pos] == c then pos else Find(s, c, pos + 1)
  }

  /** std::string::substr(pos, count), where a count below zero has wrapped to a huge one. */
  function Substr(s: string, pos: nat, count: int): string
    requires pos <= |s|
  {
    if count < 0 || pos + count > |s| then s[pos..] else s[pos..pos + count]
  }

  predicate IsSpace(c: char) { c == ' ' || '\t' <= c <= '\r' }

  function SkipSpace(s: string): string {
    if s != [] && IsSpace(s[0]) then SkipSpace(s[1..]) else s
  }

  /** The longest prefix of digits. */
  function DigitPrefix(s: string): (d: string)
    ensures AllDigits(d) && d <= s
    ensures |d| < |s| ==> !IsDigit(s[|d|])
  {
    if s != [] && IsDigit(s[0]) then [s[0]] + DigitPrefix(s[1..]) else []
  }

  /** std::stoull, base 10: leading space, an optional sign, digits, anything. It throws when
      there is no digit or the digits exceed 64 bits; a minus sign negates modulo 2^64. */
  function Stoull(s: string): Option<uint64> {
    var t := SkipSpace(s);
    var negative := t != [] && t[0] == '-';
    var u := if t != [] && (t[0] == '-' || t[0] == '+') then t[1..] else t;
    var d := DigitPrefix(u);
    if d == [] || Value(d) >= UINT64_MODULUS then None
    else Some((if negative then (UINT64_MODULUS - Value(d)) % UINT64_MODULUS else Value(d)) as uint64)
  }

  lemma {:induction false} DigitPrefixAll(d: string, rest: string)
    requires AllDigits(d) && (rest == [] || !IsDigit(rest[0]))
    ensures DigitPrefix(d + rest) == d
  {
    if d == [] {
      assert d + rest == rest;
    } else {
      assert (d + rest)[0] == d[0] && (d + rest)[1..] == d[1..] + rest;
      assert AllDigits(d[1..]);
      DigitPrefixAll(d[1..], rest);
    }
  }

  /** stoull reads back what fmt printed. */
  lemma {:induction false} StoullPrint(n: uint64)
    ensures Stoull(Print(n as nat)) == Some(n)
  {
    var s := Print(n as nat);
    assert IsDigit(s[0]);
    assert SkipSpace(s) == s;
    DigitPrefixAll(s, "");
    assert s + "" == s;
    PrintValue(n as nat);
  }

  lemma {:induction false} SkipSpaces(ws: string, s: string)
    requires (forall i :: 0 <= i < |ws| ==> IsSpace(ws[i])) && (s == "" || !IsSpace(s[0]))
    ensures SkipSpace(ws + s) == s
  {
    if ws == "" {
      assert ws + s == s;
    } else {
      assert (ws + s)[0] == ws[0] && (ws + s)[1..] == ws[1..] + s;
      SkipSpaces(ws[1..], s);
    }
  }

  /** What stoull reads: after spaces and a sign the digits up to the first other character, negated
      modulo 2^64 behind a minus sign; nothing if they exceed 64 bits. */
  lemma {:induction false} StoullMeaning(ws: string, sign: string, d: string, rest: string)
    requires (forall i :: 0 <= i < |ws| ==> IsSpace(ws[i])) && sign in {"", "+", "-"}
    requires AllDigits(d) && d != "" && (rest == "" || !IsDigit(rest[0]))
    ensures Stoull(ws + (sign + (d + rest))) ==
            if Value(d) >= UINT64_MODULUS then None
            else Some((if sign == "-" && Value(d) > 0 then UINT64_MODULUS - Value(d) else Value(d)) as uint64)
  {
    hide SkipSpace, DigitPrefix, Value;
    var t := sign + (d + rest);
    assert IsDigit(d[0]);
    assert t[0] == if sign == "" then d[0] else sign[0];
    SkipSpaces(ws, t);
    DigitPrefixAll(d, rest);
    if sign == "" { assert t == d + rest; } else { assert t[1..] == d + rest; }
  }

  /** And it throws when no digit follows. */
  lemma {:induction false} StoullThrows(ws: string, sign: string, rest: string)
    requires (forall i :: 0 <= i < |ws| ==> IsSpace(ws[i])) && sign in {"", "+", "-"}
    requires rest == "" || !IsDigit(rest[0])
    requires sign == "" && rest != "" ==> !IsSpace(rest[0]) && rest[0] != '+' && rest[0] != '-'
    ensures Stoull(ws + (sign + rest)) == None
  {
    var t := sign + rest;
    SkipSpaces(ws, t);
    if sign == "" { assert t == rest; } else { assert t[1..] == rest; }
  }

  // ---- Parsing -----------------------------------------------------------------------

  /** What the parser finds at an opening bracket. */
  datatype Pair = NoPair | Malformed | Got(range: Range, next: nat)

  function ReadPair(str: string, pos: nat): (p: Pair)
    requires pos < |str|
    ensures p.Got? ==> pos < p.next <= |str|
  {
    var comma := Find(str, ',', pos);
    var end := Find(str, ']', pos);
    if comma < |str| && end < |str| then
      var first := Stoull(Substr(str, pos + 1, comma - pos - 1));
      var second := Stoull(Substr(str, comma + 1, end - comma - 1));
      if first.Some? && second.Some? then Got(Range(first.value, second.value), end + 1) else Malformed
    else NoPair
  }

  /** ParseRanges from position `pos` with `acc` read so far. A number that does not parse
      throws everything away; a bracket with nothing to close it ends the text. */
  function ParseFrom(str: string, pos: nat, acc: seq<Range>): seq<Range>
    decreases |str| - pos
  {
    if pos >= |str| then acc
    else if str[pos] == '[' then
      match ReadPair(str, pos)
      case NoPair => acc
      case Malformed => []
      case Got(range, next) => ParseFrom(str, next, acc + [range])
    else ParseFrom(str, pos + 1, acc)
  }

  function Parsed(str: string): seq<Range> {
    if |str| < 2 || str[0] != '[' then [] else ParseFrom(str, 1, [])
  }

  /** Terminates on every string: each round moves past the bracket it stopped at. */
  method ParseRanges(str: string) returns (ranges: seq<Range>)
    ensures ranges == Parsed(str)
  {
    ranges := [];
    if |str| < 2 || str[0] != '[' { return; }
    var pos: nat := 1;
    while pos < |str|
      invariant 1 <= pos <= |str|
      invariant ParseFrom(str, pos, ranges) == ParseFrom(str, 1, [])
      decreases |str| - pos
    {
      if str[pos] == '[' {
        var pair := ReadPair(str, pos);
        match pair
        case NoPair => return;
        case Malformed => return [];
        case Got(range, next) =>
          ranges := ranges + [range];
          pos := next;
      } else {
        pos := pos + 1;
      }
    }
  }

  // ---- Round trip --------------------------------------------------------------------

  lemma {:induction false} FindIs(s: string, c: char, pos: nat, i: nat)
    requires pos <= i < |s| && s[i] == c && forall k :: pos <= k < i ==> s[k] != c
    ensures Find(s, c, pos) == i
  {
  }

  /** The text `t` stands in `str` at `pos`. */
  ghost predicate At(str: string, pos: nat, t: string) {
    pos + |t| <= |str| && str[pos..pos + |t|] == t
  }

  lemma {:induction false} AtPart(str: string, pos: nat, t: string, i: nat, u: string, rest: string)
    requires At(str, pos, t) && i + |u| <= |t| && t[i..] == u + rest
    ensures At(str, pos + i, u) && Substr(str, pos + i, |u|) == u
  {
    forall k | pos + i <= k < pos + i + |u| ensures str[k] == u[k - pos - i] {
      assert u[k - pos - i] == t[i..][k - pos - i];
    }
    assert str[pos + i..pos + i + |u|] == u;
  }

  lemma {:induction false} PiecesTail(a: string, b: string)
    ensures Pieces(a, b)[1..] == a + ("," + b + "]")
    ensures Pieces(a, b)[2 + |a|..] == b + "]"
    ensures Pieces(a, b)[0] == '[' && Pieces(a, b)[1 + |a|] == ',' && Pieces(a, b)[2 + |a| + |b|] == ']'
  {
  }

  lemma {:induction false} PunctuationAt(str: string, pos: nat, a: string, b: string)
    requires AllDigits(a) && AllDigits(b) && At(str, pos, Pieces(a, b))
    ensures Find(str, ',', pos) == pos + 1 + |a|
    ensures Find(str, ']', pos) == pos + 2 + |a| + |b|
    ensures Substr(str, pos + 1, |a|) == a && Substr(str, pos + 2 + |a|, |b|) == b
  {
    PiecesTail(a, b);
    AtPart(str, pos, Pieces(a, b), 1, a, "," + b + "]");
    AtPart(str, pos, Pieces(a, b), 2 + |a|, b, "]");
    FindIs(str, ',', pos, pos + 1 + |a|);
    FindIs(str, ']', pos, pos + 2 + |a| + |b|);
  }

  /** At a printed range the parser reads its two numbers and stops right after it. */
  lemma {:induction false} ReadPieces(str: string, pos: nat, a: string, b: string, r: Range)
    requires AllDigits(a) && AllDigits(b) && At(str, pos, Pieces(a, b))
    requires Stoull(a) == Some(r.start) && Stoull(b) == Some(r.end)
    ensures ReadPair(str, pos) == Got(r, pos + |Pieces(a, b)|) && str[pos] == '['
  {
    hide ReadPair, Stoull, Find;
    PunctuationAt(str, pos, a, b);
    ReadNumbers(str, pos, pos + 1 + |a|, pos + 2 + |a| + |b|, a, b, r);
  }

  lemma {:induction false} ReadNumbers(str: string, pos: nat, comma: nat, end: nat, a: string, b: string, r: Range)
    requires pos < comma < end < |str| && Find(str, ',', pos) == comma && Find(str, ']', pos) == end
    requires Substr(str, pos + 1, comma - pos - 1) == a && Substr(str, comma + 1, end - comma - 1) == b
    requires Stoull(a) == Some(r.start) && Stoull(b) == Some(r.end)
    ensures ReadPair(str, pos) == Got(r, end + 1)
  {
    hide Stoull, Find, Substr;
  }

  lemma {:induction false} SplitAt(str: string, pos: nat, head: string, rest: string)
    requires pos <= |str| && str[pos..] == head + rest
    ensures At(str, pos, head) && str[pos + |head|..] == rest
  {
    assert |str| - pos == |head| + |rest|;
    forall k | pos <= k < pos + |head| ensures str[k] == head[k - pos] {
      assert str[k] == str[pos..][k - pos];
    }
    assert str[pos + |head|..] == str[pos..][|head|..];
  }

  lemma {:induction false} ParseStep(str: string, p: nat, q: nat, r: Range, acc: seq<Range>)
    requires p < |str| && str[p] == '[' && ReadPair(str, p) == Got(r, q)
    ensures ParseFrom(str, p, acc) == ParseFrom(str, q, acc + [r])
  {
  }

  lemma {:induction false} ParseEnd(str: string, pos: nat, acc: seq<Range>)
    requires pos + 1 == |str| && str[pos] != '['
    ensures ParseFrom(str, pos, acc) == acc
  {
  }

  lemma {:induction false} BodyStep(ranges: seq<Range>, i: nat, tail: string)
    requires i < |ranges|
    ensures var sep := if i > 0 then "," else "";
            Body(ranges, i) + tail == sep + (RangeString(ranges[i]) + (Body(ranges, i + 1) + tail))
  {
    var sep := if i > 0 then "," else "";
    var t, rest := RangeString(ranges[i]), Body(ranges, i + 1);
    Assoc(sep + t, rest, tail);
    Assoc(sep, t, rest + tail);
  }

  lemma {:induction false} SkipComma(str: string, pos: nat, ranges: seq<Range>, i: nat, tail: string) returns (p: nat)
    requires i < |ranges| && pos <= |str| && str[pos..] == Body(ranges, i) + tail
    ensures p <= |str| && str[p..] == RangeString(ranges[i]) + (Body(ranges, i + 1) + tail)
    ensures ParseFrom(str, pos, ranges[..i]) == ParseFrom(str, p, ranges[..i])
  {
    hide RangeString, ReadPair;
    var more := RangeString(ranges[i]) + (Body(ranges, i + 1) + tail);
    BodyStep(ranges, i, tail);
    if i == 0 {
      assert "" + more == more;
      p := pos;
    } else {
      SplitAt(str, pos, ",", more);
      assert str[pos] == ',';
      p := pos + 1;
    }
  }

  lemma {:induction false} ParseElement(str: string, p: nat, r: Range, rest: string, acc: seq<Range>) returns (q: nat)
    requires p <= |str| && str[p..] == RangeString(r) + rest
    ensures q <= |str| && str[q..] == rest && ParseFrom(str, p, acc) == ParseFrom(str, q, acc + [r])
  {
    hide ParseFrom, ReadPair, Stoull, Pieces, Print;
    var a, b := Print(r.start as nat), Print(r.end as nat);
    StoullPrint(r.start);
    StoullPrint(r.end);
    SplitAt(str, p, RangeString(r), rest);
    ReadPieces(str, p, a, b, r);
    q := p + |RangeString(r)|;
    ParseStep(str, p, q, r, acc);
  }

  /** Parsing the rest of the printed list adds the rest of the list, and goes on behind it. */
  lemma {:induction false} ParseBody(str: string, pos: nat, ranges: seq<Range>, i: nat, tail: string) returns (q: nat)
    requires i <= |ranges| && pos <= |str| && str[pos..] == Body(ranges, i) + tail
    ensures q <= |str| && str[q..] == tail && ParseFrom(str, pos, ranges[..i]) == ParseFrom(str, q, ranges)
    decreases |ranges| - i
  {
    hide ParseFrom, RangeString;
    if i == |ranges| {
      assert "" + tail == tail;
      assert ranges[..i] == ranges;
      q := pos;
    } else {
      var p := SkipComma(str, pos, ranges, i, tail);
      var r := ParseElement(str, p, ranges[i], Body(ranges, i + 1) + tail, ranges[..i]);
      assert ranges[..i] + [ranges[i]] == ranges[..i + 1];
      q := ParseBody(str, r, ranges, i + 1, tail);
    }
  }

  /** A printed list with anything behind it: the list is read, and then what is behind it. */
  lemma {:induction false} ParseList(ranges: seq<Range>, tail: string) returns (q: nat)
    requires tail != ""
    ensures var str := "[" + (Body(ranges, 0) + tail);
            q <= |str| && str[q..] == tail && Parsed(str) == ParseFrom(str, q, ranges)
  {
    var str := "[" + (Body(ranges, 0) + tail);
    assert str[1..] == Body(ranges, 0) + tail;
    assert ranges[..0] == [];
    q := ParseBody(str, 1, ranges, 0, tail);
  }

  /** Whatever list of ranges is stored, the same list is loaded. */
  lemma {:induction false} RoundTrip(ranges: seq<Range>)
    ensures Parsed("[" + Body(ranges, 0) + "]") == ranges
  {
    var str := "[" + Body(ranges, 0) + "]";
    Assoc("[", Body(ranges, 0), "]");
    var q := ParseList(ranges, "]");
    assert str[q] == str[q..][0] && q + 1 == |str|;
    ParseEnd(str, q, ranges);
  }

  /** A text cut off inside its next range keeps the ranges before it. */
  lemma {:induction false} CutOff(ranges: seq<Range>, part: string)
    requires ']' !in part
    ensures Parsed("[" + (Body(ranges, 0) + ("[" + part))) == ranges
  {
    var tail := "[" + part;
    var str := "[" + (Body(ranges, 0) + tail);
    var q := ParseList(ranges, tail);
    hide Body;
    assert str[q] == str[q..][0] == '[';
    forall k | q <= k < |str| ensures str[k] != ']' {
      assert str[k] == tail[k - q];
      if k > q { assert tail[k - q] == part[k - q - 1] && part[k - q - 1] in part; }
    }
    assert Find(str, ']', q) == |str|;
  }

  /** A range whose numbers do not parse costs the whole list. */
  lemma {:induction false} BadNumber(ranges: seq<Range>, a: string, b: string, more: string)
    requires ',' !in a && ']' !in a && ']' !in b && (Stoull(a) == None || Stoull(b) == None)
    ensures Parsed("[" + (Body(ranges, 0) + (Pieces(a, b) + more))) == []
  {
    var tail := Pieces(a, b) + more;
    var str := "[" + (Body(ranges, 0) + tail);
    var q := ParseList(ranges, tail);
    SplitAt(str, q, Pieces(a, b), more);
    BadPair(str, q, a, b);
  }

  lemma {:induction false} BadPair(str: string, q: nat, a: string, b: string)
    requires ',' !in a && ']' !in a && ']' !in b && (Stoull(a) == None || Stoull(b) == None)
    requires At(str, q, Pieces(a, b))
    ensures str[q] == '[' && ReadPair(str, q) == Malformed
  {
    hide Stoull, ReadPair, Find, Substr;
    var comma, end := q + 1 + |a|, q + 2 + |a| + |b|;
    PiecesTail(a, b);
    AtPart(str, q, Pieces(a, b), 1, a, "," + b + "]");
    AtPart(str, q, Pieces(a, b), 2 + |a|, b, "]");
    assert str[q] == Pieces(a, b)[0] && str[comma] == Pieces(a, b)[1 + |a|] && str[end] == Pieces(a, b)[2 + |a| + |b|];
    hide Pieces;
    FirstPart(str, q, a);
    SecondPart(str, comma, end, a, b, q);
    FindIs(str, ',', q, comma);
    FindIs(str, ']', q, end);
    BadNumbers(str, q, comma, end, a, b);
  }

  lemma {:induction false} FirstPart(str: string, q: nat, a: string)
    requires At(str, q + 1, a) && str[q] == '[' && ',' !in a && ']' !in a
    ensures forall k :: q <= k <= q + |a| ==> str[k] != ',' && str[k] != ']'
  {
    forall k | q < k <= q + |a| ensures str[k] in a { assert str[k] == str[q + 1..q + 1 + |a|][k - q - 1]; }
  }

  lemma {:induction false} SecondPart(str: string, comma: nat, end: nat, a: string, b: string, q: nat)
    requires comma == q + 1 + |a| && end == comma + 1 + |b| && end < |str| && At(str, comma + 1, b) && str[comma] == ','
    requires ']' !in b && forall k :: q <= k < comma ==> str[k] != ']'
    ensures forall k :: q <= k < end ==> str[k] != ']'
  {
    forall k | comma < k < end ensures str[k] in b { assert str[k] == str[comma + 1..comma + 1 + |b|][k - comma - 1]; }
  }

  lemma {:induction false} BadNumbers(str: string, pos: nat, comma: nat, end: nat, a: string, b: string)
    requires pos < comma < end < |str| && Find(str, ',', pos) == comma && Find(str, ']', pos) == end
    requires Substr(str, pos + 1, comma - pos - 1) == a && Substr(str, comma + 1, end - comma - 1) == b
    requires Stoull(a) == None || Stoull(b) == None
    ensures ReadPair(str, pos) == Malformed
  {
    hide Stoull, Find, Substr;
  }
}
