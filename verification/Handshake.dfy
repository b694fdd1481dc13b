/** CramAuth's text half: the line protocol that authenticates, subscribes and switches the
    connection to binary. Callbacks do not call back in here, and what happens to the bytes after
    the switch is the LiveStream module's subject: `binary` is what the binary half is given. */
module Handshake {
  import opened Bytes
  import Decimal

  const MAX_LINE: nat := 8 * 1024
  const SEGMENT_SIZE: nat := 64 * 1024
  const UINT32_MODULUS: nat := 0x1_0000_0000
  const NEWLINE: byte := 10
  const RETURN: byte := 13

  datatype Phase = WaitingGreeting | WaitingChallenge | Authenticating | Ready | Streaming {
    function Rank(): nat {
      match this
      case WaitingGreeting => 0
      case WaitingChallenge => 1
      case Authenticating => 2
      case Ready => 3
      case Streaming => 4
    }
  }

  datatype Failure = LineBufferOverflow | InvalidChallenge | AuthFailed | LineTooLarge
                   | ConnectionClosed | UpstreamFailed

  datatype Request = Request(symbols: string, schema: string, stypeIn: string, start: string, snapshot: bool)

  /** The API key and the hash, SHA-256 in hexadecimal, about which nothing is assumed. */
  datatype Config = Config(apiKey: string, hash: string -> string)

  /** The component's fields, what it did to its neighbours (`written`, `errors`, `binary`) and,
      for the statements below, what it was asked (`challenge`, `authDataset`, `requests`). */
  datatype State = State(phase: Phase, dataset: string, request: Option<Request>, sent: bool,
                         startRequested: bool, counter: nat, closed: bool, finalized: bool,
                         written: seq<string>, errors: seq<Failure>, binary: seq<byte>,
                         challenge: string, authDataset: string, requests: seq<Request>)

  /** With the text line that is still incomplete. */
  datatype Connection = Connection(state: State, line: seq<byte>)

  function Initial(dataset: string): State {
    State(WaitingGreeting, dataset, None, false, false, 0, false, false, [], [], [], "", "", [])
  }

  // ---- The lines sent ----------------------------------------------------------------

  datatype Pair = Pair(key: string, value: string)

  /** Texts with bars between them. */
  function Join(fields: seq<string>): string {
    if fields == [] then "" else if |fields| == 1 then fields[0] else fields[0] + "|" + Join(fields[1..])
  }

  function Texts(pairs: seq<Pair>): seq<string> {
    if pairs == [] then [] else [pairs[0].key + "=" + pairs[0].value] + Texts(pairs[1..])
  }

  /** key=value between bars. */
  function Line(pairs: seq<Pair>): string { Join(Texts(pairs)) }

  function AuthLine(cfg: Config, challenge: string, dataset: string): string {
    var digest := cfg.hash(challenge + "|" + cfg.apiKey);
    var response := if |cfg.apiKey| >= 5 then digest + "-" + cfg.apiKey[|cfg.apiKey| - 5..] else digest;
    Line(AuthPairs(response, dataset))
  }

  function AuthPairs(response: string, dataset: string): seq<Pair> {
    [Pair("auth", response), Pair("dataset", dataset), Pair("encoding", "dbn"), Pair("ts_out", "0"),
     Pair("client", "dbn-pipe/0.1")]
  }

  function SubscriptionLine(r: Request, id: nat): string {
    Line(SubscriptionPairs(r, id))
  }

  function SubscriptionPairs(r: Request, id: nat): seq<Pair> {
    [Pair("schema", r.schema), Pair("stype_in", r.stypeIn)]
    + (if r.start == "" then [] else [Pair("start", r.start)])
    + [Pair("id", Decimal.Print(id)), Pair("symbols", r.symbols),
       Pair("snapshot", if r.snapshot then "1" else "0"), Pair("is_last", "1")]
  }

  const START_LINE := "start_session"

  predicate Fits(line: string) { |line| + 1 <= SEGMENT_SIZE }

  // ---- Reading the auth response -----------------------------------------------------

  function Find(s: string, c: char): (i: nat)
    ensures i <= |s| && (i < |s| ==> s[i] == c) && c !in s[..i]
  {
    if s == "" || s[0] == c then 0 else 1 + Find(s[1..], c)
  }

  /** The fields between bars; nothing after a final bar is a field. */
  function Fields(s: string): seq<string>
    decreases |s|
  {
    if s == "" then []
    else if Find(s, '|') == |s| then [s]
    else [s[..Find(s, '|')]] + Fields(s[Find(s, '|') + 1..])
  }

  /** The value of a field that reads key=value for this key. */
  function ValueFor(field: string, key: string): Option<string> {
    var eq := Find(field, '=');
    if eq < |field| && field[..eq] == key then Some(field[eq + 1..]) else None
  }

  /** The value of the last field with this key. */
  function LastValue(fields: seq<string>, key: string): Option<string> {
    if fields == [] then None
    else if ValueFor(fields[|fields| - 1], key).Some? then ValueFor(fields[|fields| - 1], key)
    else LastValue(fields[..|fields| - 1], key)
  }

  /** The server accepts unless the line starts with err= or its last success field is not 1. */
  predicate Accepts(line: string) {
    !("err=" <= line) && LastValue(Fields(line), "success") in {None, Some("1")}
  }

  lemma {:induction false} LastValueFirst(field: string, rest: seq<string>, key: string)
    ensures LastValue([field] + rest, key)
         == if LastValue(rest, key).Some? then LastValue(rest, key) else ValueFor(field, key)
  {
    hide ValueFor;
    var all := [field] + rest;
    if rest == [] {
      assert all[..0] == [];
    } else {
      assert all[..|all| - 1] == [field] + rest[..|rest| - 1];
      LastValueFirst(field, rest[..|rest| - 1], key);
    }
  }

  function Override(earlier: Option<string>, later: Option<string>): Option<string> {
    if later.Some? then later else earlier
  }

  /** The loop over the bars finds the last field with the key, and whether its value is `good`. */
  method ScanFields(line: string, key: string, good: string) returns (found: bool, success: bool)
    ensures found == LastValue(Fields(line), key).Some?
    ensures success == (LastValue(Fields(line), key) == Some(good))
  {
    hide Fields, LastValue;
    found, success := false, false;
    var remaining := line;
    ghost var latest: Option<string> := None;
    while remaining != ""
      invariant LastValue(Fields(line), key) == Override(latest, LastValue(Fields(remaining), key))
      invariant found == latest.Some? && success == (latest == Some(good))
      decreases |remaining|
    {
      var bar := Find(remaining, '|');
      var kv := remaining[..bar];
      FieldsStep(remaining);
      remaining := if bar < |remaining| then remaining[bar + 1..] else "";
      LastValueFirst(kv, Fields(remaining), key);
      latest := Override(latest, ValueFor(kv, key));
      var eq := Find(kv, '=');
      if eq < |kv| && kv[..eq] == key { found, success := true, kv[eq + 1..] == good; }
    }
    NoFields(key);
  }

  lemma {:induction false} NoFields(key: string)
    ensures LastValue(Fields(""), key) == None
  {
  }

  method CheckResponse(line: string) returns (ok: bool)
    ensures ok == Accepts(line)
  {
    if "err=" <= line { return false; }
    var found, success := ScanFields(line, "success", "1");
    return !found || success;
  }

  lemma {:induction false} FieldsStep(s: string)
    requires s != ""
    ensures var bar := Find(s, '|');
            Fields(s) == [s[..bar]] + Fields(if bar < |s| then s[bar + 1..] else "")
  {
    if Find(s, '|') == |s| { assert s[..|s|] == s; }
  }

  // ---- Lines of fields ---------------------------------------------------------------

  ghost predicate BarFree(fields: seq<string>) { forall i :: 0 <= i < |fields| ==> '|' !in fields[i] }

  lemma {:induction false} FindEnd(s: string, c: char)
    requires c !in s
    ensures Find(s, c) == |s|
  {
    if s != "" { FindEnd(s[1..], c); }
  }

  lemma {:induction false} FindIn(s: string, c: char, rest: string)
    requires c !in s
    ensures Find(s + [c] + rest, c) == |s|
  {
    if s == "" {
      assert (s + [c] + rest)[0] == c;
    } else {
      assert (s + [c] + rest)[0] == s[0] && (s + [c] + rest)[1..] == s[1..] + [c] + rest;
      FindIn(s[1..], c, rest);
    }
  }

  lemma {:induction false} FieldsOfFirst(first: string, rest: string)
    requires '|' !in first
    ensures Fields(first + "|" + rest) == [first] + Fields(rest)
  {
    var line := first + "|" + rest;
    FindIn(first, '|', rest);
    FieldsStep(line);
    assert line[..|first|] == first && line[|first| + 1..] == rest;
  }

  lemma {:induction false} FieldsOfLast(text: string)
    requires '|' !in text
    ensures Fields(text) == if text == "" then [] else [text]
  {
    FindEnd(text, '|');
  }

  /** Reading a joined line gives the texts back, but for an empty one at the end. */
  lemma {:induction false} FieldsOfJoin(fields: seq<string>)
    requires BarFree(fields)
    ensures Fields(Join(fields)) ==
            if fields != [] && fields[|fields| - 1] == "" then fields[..|fields| - 1] else fields
    decreases |fields|
  {
    hide Fields;
    if |fields| == 1 {
      FieldsOfLast(fields[0]);
      assert fields == [fields[0]];
    } else if fields != [] {
      FieldsOfJoin(fields[1..]);
      FieldsOfFirst(fields[0], Join(fields[1..]));
      WithoutLast(fields);
    } else {
      FieldsOfLast("");
    }
  }

  lemma {:induction false} WithoutLast(fields: seq<string>)
    requires |fields| > 1
    ensures [fields[0]] + fields[1..] == fields
    ensures [fields[0]] + fields[1..][..|fields[1..]| - 1] == fields[..|fields| - 1]
    ensures fields[1..][|fields[1..]| - 1] == fields[|fields| - 1]
  {
  }

  /** Every line is a join of texts without bars. */
  lemma {:induction false} EveryLine(line: string) returns (fields: seq<string>)
    ensures fields != [] && BarFree(fields) && Join(fields) == line
    decreases |line|
  {
    var bar := Find(line, '|');
    if bar == |line| {
      fields := [line];
      assert line[..|line|] == line;
    } else {
      var rest := EveryLine(line[bar + 1..]);
      fields := [line[..bar]] + rest;
      assert fields[1..] == rest;
      assert line == line[..bar] + "|" + line[bar + 1..];
    }
  }

  /** key=value for a key without = in it. */
  lemma {:induction false} ValueForKey(key: string, value: string)
    requires '=' !in key
    ensures ValueFor(key + "=" + value, key) == Some(value)
  {
    FindIn(key, '=', value);
    var f := key + "=" + value;
    assert f[..|key|] == key && f[|key| + 1..] == value;
  }

  lemma {:induction false} ValueForOther(key: string, value: string, other: string)
    requires '=' !in key && other != key
    ensures ValueFor(key + "=" + value, other) == None
  {
    FindIn(key, '=', value);
    assert (key + "=" + value)[..|key|] == key;
  }

  lemma {:induction false} PrefixFound(field: string, eq: nat)
    requires eq < |field| && field[eq] == '='
    ensures field[..eq] + "=" <= field
  {
    assert field[..eq + 1] == field[..eq] + "=";
  }

  lemma {:induction false} ValueForPrefix(field: string, key: string)
    requires '=' !in key
    ensures ValueFor(field, key) == if key + "=" <= field then Some(field[|key| + 1..]) else None
  {
    if key + "=" <= field {
      assert field == key + "=" + field[|key| + 1..];
      ValueForKey(key, field[|key| + 1..]);
    } else {
      var eq := Find(field, '=');
      if eq < |field| && field[..eq] == key { PrefixFound(field, eq); }
    }
  }

  /** Which lines are accepted, in plain terms: those that do not start with err=, and in which no
      text between bars starts with success=, or the last one that does is success=1. */
  lemma {:induction false} AcceptsExactly(fields: seq<string>)
    requires BarFree(fields)
    ensures "err=" <= Join(fields) ==> !Accepts(Join(fields))
    ensures !("err=" <= Join(fields)) ==>
              (Accepts(Join(fields)) <==>
                || (forall i :: 0 <= i < |fields| ==> !("success=" <= fields[i]))
                || (exists i :: 0 <= i < |fields| && fields[i] == "success=1"
                                && forall j :: i < j < |fields| ==> !("success=" <= fields[j])))
  {
    FieldsOfJoin(fields);
    LastSuccess(fields);
    if fields != [] && fields[|fields| - 1] == "" { ValueForPrefix("", "success"); }
  }

  lemma {:induction false} LastSuccess(fields: seq<string>)
    ensures LastValue(fields, "success") == None <==> forall i :: 0 <= i < |fields| ==> !("success=" <= fields[i])
    ensures LastValue(fields, "success") == Some("1") <==>
              exists i :: 0 <= i < |fields| && fields[i] == "success=1"
                          && forall j :: i < j < |fields| ==> !("success=" <= fields[j])
    decreases |fields|
  {
    if fields != [] {
      var last: nat := |fields| - 1;
      var f, front := fields[last], fields[..last];
      assert "success" + "=" == "success=";
      ValueForPrefix(f, "success");
      LastSuccess(front);
      if "success=" <= f {
        assert f[8..] == "1" <==> f == "success=1" by { assert f == "success=" + f[8..]; }
      } else {
        assert forall i :: 0 <= i < last ==> fields[i] == front[i];
        if i :| 0 <= i < last && front[i] == "success=1" && forall j :: i < j < last ==> !("success=" <= front[j]) {
          assert fields[i] == "success=1";
        }
      }
    }
  }

  // ---- What the server reads in the client's lines -----------------------------------

  /** The value a line gives a key. */
  function Reads(line: string, key: string): Option<string> { LastValue(Fields(line), key) }

  ghost predicate Readable(pairs: seq<Pair>) {
    && (forall i :: 0 <= i < |pairs| ==> '=' !in pairs[i].key && '|' !in pairs[i].key && '|' !in pairs[i].value)
    && (forall i, j :: 0 <= i < j < |pairs| ==> pairs[i].key != pairs[j].key)
  }

  lemma {:induction false} TextsAt(pairs: seq<Pair>)
    ensures |Texts(pairs)| == |pairs|
    ensures forall i :: 0 <= i < |pairs| ==> Texts(pairs)[i] == pairs[i].key + "=" + pairs[i].value
  {
    if pairs != [] { TextsAt(pairs[1..]); }
  }

  lemma {:induction false} TextsFields(pairs: seq<Pair>)
    requires Readable(pairs)
    ensures Fields(Line(pairs)) == Texts(pairs)
  {
    hide Fields, Join;
    var texts := Texts(pairs);
    TextsAt(pairs);
    FieldsOfJoin(texts);
  }

  /** A line of different keys is read back key by key. */
  lemma {:induction false} PairsBack(pairs: seq<Pair>)
    requires Readable(pairs)
    ensures forall i :: 0 <= i < |pairs| ==> Reads(Line(pairs), pairs[i].key) == Some(pairs[i].value)
    ensures forall key :: (forall i :: 0 <= i < |pairs| ==> pairs[i].key != key) ==>
              Reads(Line(pairs), key) == None
  {
    hide Fields, Join, Texts, LastValue, Readable;
    var texts := Texts(pairs);
    TextsAt(pairs);
    TextsFields(pairs);
    assert texts[..|pairs|] == texts;
    forall i | 0 <= i < |pairs| ensures Reads(Join(texts), pairs[i].key) == Some(pairs[i].value) {
      LastPair(pairs, texts, pairs[i].key, |pairs|);
    }
    forall key | forall i :: 0 <= i < |pairs| ==> pairs[i].key != key ensures Reads(Join(texts), key) == None {
      LastPair(pairs, texts, key, |pairs|);
    }
  }

  lemma {:induction false} LastPair(pairs: seq<Pair>, texts: seq<string>, key: string, n: nat)
    requires Readable(pairs) && |texts| == |pairs| && n <= |pairs|
    requires forall i :: 0 <= i < |pairs| ==> texts[i] == pairs[i].key + "=" + pairs[i].value
    ensures forall i :: 0 <= i < n && pairs[i].key == key ==> LastValue(texts[..n], key) == Some(pairs[i].value)
    ensures (forall i :: 0 <= i < n ==> pairs[i].key != key) ==> LastValue(texts[..n], key) == None
  {
    if n > 0 {
      var last: nat := n - 1;
      LastPair(pairs, texts, key, last);
      assert texts[..n][..last] == texts[..last] && texts[..n][last] == texts[last];
      if pairs[last].key == key {
        ValueForKey(key, pairs[last].value);
      } else {
        ValueForOther(pairs[last].key, pairs[last].value, key);
      }
    }
  }

  /** Where a key stands in the lines sent. */
  function Place(key: string): nat {
    if key == "auth" then 0 else if key == "dataset" then 1 else if key == "encoding" then 2
    else if key == "ts_out" then 3 else if key == "client" then 4
    else if key == "schema" then 5 else if key == "stype_in" then 6 else if key == "start" then 7
    else if key == "id" then 8 else if key == "symbols" then 9 else if key == "snapshot" then 10 else 11
  }

  lemma {:induction false} Places()
    ensures Place("auth") == 0 && Place("dataset") == 1 && Place("encoding") == 2 && Place("ts_out") == 3
    ensures Place("client") == 4 && Place("schema") == 5 && Place("stype_in") == 6 && Place("start") == 7
    ensures Place("id") == 8 && Place("symbols") == 9 && Place("snapshot") == 10 && Place("is_last") == 11
  {
  }

  /** Keys that stand in their places are different. */
  lemma {:induction false} PlacedReadable(pairs: seq<Pair>)
    requires forall i, j :: 0 <= i < j < |pairs| ==> Place(pairs[i].key) < Place(pairs[j].key)
    requires forall i :: 0 <= i < |pairs| ==> '=' !in pairs[i].key && '|' !in pairs[i].key && '|' !in pairs[i].value
    ensures Readable(pairs)
  {
    hide Place;
    forall i, j | 0 <= i < j < |pairs| ensures pairs[i].key != pairs[j].key {
      assert Place(pairs[i].key) < Place(pairs[j].key);
    }
  }

  /** The server reads in the auth line the digest of the challenge, a bar and the key, with the
      key's last five characters if it has them, and the dataset. */
  lemma {:induction false} AuthRead(cfg: Config, challenge: string, dataset: string)
    requires '|' !in cfg.apiKey && '|' !in dataset && '|' !in cfg.hash(challenge + "|" + cfg.apiKey)
    ensures var line, digest := AuthLine(cfg, challenge, dataset), cfg.hash(challenge + "|" + cfg.apiKey);
            && (|cfg.apiKey| >= 5 ==>
                  Reads(line, "auth") == Some(digest + "-" + cfg.apiKey[|cfg.apiKey| - 5..]))
            && (|cfg.apiKey| < 5 ==> Reads(line, "auth") == Some(digest))
            && Reads(line, "dataset") == Some(dataset) && Reads(line, "encoding") == Some("dbn")
            && Reads(line, "ts_out") == Some("0") && Reads(line, "client") == Some("dbn-pipe/0.1")
  {
    hide Line, Reads, AuthPairs;
    var digest := cfg.hash(challenge + "|" + cfg.apiKey);
    var response := if |cfg.apiKey| >= 5 then digest + "-" + cfg.apiKey[|cfg.apiKey| - 5..] else digest;
    PairsOfAuth(response, dataset);
    PairsBack(AuthPairs(response, dataset));
  }

  lemma {:induction false} PairsOfAuth(response: string, dataset: string)
    requires '|' !in response && '|' !in dataset
    ensures var p := AuthPairs(response, dataset);
            && Readable(p) && |p| == 5 && p[0] == Pair("auth", response) && p[1] == Pair("dataset", dataset)
            && p[2] == Pair("encoding", "dbn") && p[3] == Pair("ts_out", "0") && p[4] == Pair("client", "dbn-pipe/0.1")
  {
    hide Place, Readable;
    Places();
    PlacedReadable(AuthPairs(response, dataset));
  }

  /** What the server makes of a subscription line. */
  function RequestRead(line: string): Option<Request> {
    var symbols, schema, stypeIn := Reads(line, "symbols"), Reads(line, "schema"), Reads(line, "stype_in");
    var start := match Reads(line, "start") case Some(t) => t case None => "";
    if symbols.Some? && schema.Some? && stypeIn.Some? && Reads(line, "snapshot") in {Some("0"), Some("1")}
    then Some(Request(symbols.value, schema.value, stypeIn.value, start, Reads(line, "snapshot") == Some("1")))
    else None
  }

  /** Every request without bars is read back from its line, with its number; the line is the last
      of its request. */
  lemma {:induction false} RequestBack(r: Request, id: nat)
    requires '|' !in r.symbols && '|' !in r.schema && '|' !in r.stypeIn && '|' !in r.start
    ensures var line := SubscriptionLine(r, id);
            && RequestRead(line) == Some(r)
            && Reads(line, "id") == Some(Decimal.Print(id)) && Decimal.Value(Decimal.Print(id)) == id
            && Reads(line, "is_last") == Some("1")
  {
    hide Line, Reads, SubscriptionPairs, Decimal.Print, Decimal.Value;
    Decimal.PrintValue(id);
    NoBarInDigits(Decimal.Print(id));
    if r.start == "" { PairsWithoutStart(r, id); } else { PairsWithStart(r, id); }
    PairsBack(SubscriptionPairs(r, id));
  }

  lemma {:induction false} PairsWithoutStart(r: Request, id: nat)
    requires '|' !in r.symbols && '|' !in r.schema && '|' !in r.stypeIn && r.start == "" && '|' !in Decimal.Print(id)
    ensures var p := SubscriptionPairs(r, id);
            && Readable(p) && |p| == 6 && (forall i :: 0 <= i < |p| ==> p[i].key != "start")
            && p[0] == Pair("schema", r.schema) && p[1] == Pair("stype_in", r.stypeIn)
            && p[2] == Pair("id", Decimal.Print(id)) && p[3] == Pair("symbols", r.symbols)
            && p[4] == Pair("snapshot", if r.snapshot then "1" else "0") && p[5] == Pair("is_last", "1")
  {
    hide Place, Readable, Decimal.Print;
    Places();
    var p := SubscriptionPairs(r, id);
    PlacedReadable(p);
    NoStart(p);
  }

  lemma {:induction false} PairsWithStart(r: Request, id: nat)
    requires '|' !in r.symbols && '|' !in r.schema && '|' !in r.stypeIn && '|' !in r.start && r.start != ""
    requires '|' !in Decimal.Print(id)
    ensures var p := SubscriptionPairs(r, id);
            && Readable(p) && |p| == 7
            && p[0] == Pair("schema", r.schema) && p[1] == Pair("stype_in", r.stypeIn) && p[2] == Pair("start", r.start)
            && p[3] == Pair("id", Decimal.Print(id)) && p[4] == Pair("symbols", r.symbols)
            && p[5] == Pair("snapshot", if r.snapshot then "1" else "0") && p[6] == Pair("is_last", "1")
  {
    hide Place, Readable, Decimal.Print;
    KeysWithStart(r, id);
    PlacedReadable(SubscriptionPairs(r, id));
  }

  lemma {:induction false} KeysWithStart(r: Request, id: nat)
    requires r.start != ""
    ensures var p := SubscriptionPairs(r, id);
            && (forall i, j :: 0 <= i < j < |p| ==> Place(p[i].key) < Place(p[j].key))
            && (forall i :: 0 <= i < |p| ==> '=' !in p[i].key && '|' !in p[i].key)
  {
    hide Place, Decimal.Print;
    Places();
  }

  lemma {:induction false} NoStart(pairs: seq<Pair>)
    requires forall i :: 0 <= i < |pairs| ==> Place(pairs[i].key) != 7
    ensures forall i :: 0 <= i < |pairs| ==> pairs[i].key != "start"
  {
    Places();
    hide Place;
  }

  lemma {:induction false} NoBarInDigits(s: string)
    requires Decimal.AllDigits(s)
    ensures '|' !in s
  {
    forall i | 0 <= i < |s| ensures s[i] != '|' { assert Decimal.IsDigit(s[i]); }
  }

  // ---- What each step does to the state ----------------------------------------------

  function Fail(s: State, failure: Failure): State {
    s.(closed := true, finalized := true, errors := if s.finalized then s.errors else s.errors + [failure])
  }

  /** A line longer than a segment is refused, but the caller carries on. */
  function LineSent(s: State, line: string): State {
    if Fits(line) then s.(written := s.written + [line + "\n"]) else Fail(s, LineTooLarge)
  }

  function SendPending(s: State): State {
    if s.sent || s.request.None? then s
    else if s.startRequested then Switch(RequestSent(s)) else RequestSent(s)
  }

  function RequestSent(s: State): State
    requires s.request.Some?
  {
    var id := (s.counter + 1) % UINT32_MODULUS;
    LineSent(Counted(s, id), SubscriptionLine(s.request.value, id)).(sent := true)
  }

  function Counted(s: State, id: nat): State
    requires s.request.Some?
  {
    s.(counter := id, requests := s.requests + [s.request.value])
  }

  function Switch(s: State): State { LineSent(s, START_LINE).(phase := Streaming) }

  function Subscribed(s: State, r: Request): State {
    var t := s.(request := Some(r), sent := false);
    if s.phase == Ready then SendPending(t) else t
  }

  function Started(s: State): State {
    var t := s.(startRequested := true);
    if s.phase == Ready && s.sent then Switch(t) else t
  }

  function Challenged(cfg: Config, s: State, challenge: string): State {
    var asked := s.(challenge := challenge, authDataset := s.dataset);
    LineSent(asked, AuthLine(cfg, challenge, s.dataset)).(phase := Authenticating)
  }

  /** One line of text. Any greeting will do. */
  function LineProcessed(cfg: Config, s: State, line: string): State {
    match s.phase
    case WaitingGreeting => s.(phase := WaitingChallenge)
    case WaitingChallenge =>
      if "cram=" <= line then Challenged(cfg, s, line[5..]) else Fail(s, InvalidChallenge)
    case Authenticating => if Accepts(line) then SendPending(s.(phase := Ready)) else Fail(s, AuthFailed)
    case _ => s
  }

  /** Bytes reinterpreted as characters. */
  function AsText(s: seq<byte>): (text: string)
    ensures |text| == |s| && forall i :: 0 <= i < |s| ==> text[i] == s[i] as char
  {
    seq(|s|, i requires 0 <= i < |s| => s[i] as char)
  }

  /** The content of a line without one carriage return at its end. */
  function Trim(content: seq<byte>): seq<byte> {
    if content != [] && content[|content| - 1] == RETURN then content[..|content| - 1] else content
  }

  /** The newline just pushed ends the buffered line. */
  function EndLine(cfg: Config, c: Connection): Connection
    requires c.line != []
  {
    Connection(LineProcessed(cfg, c.state, AsText(Trim(c.line[..|c.line| - 1]))), [])
  }

  function Pushed(cfg: Config, c: Connection, b: byte): Connection {
    var grown := c.(line := c.line + [b]);
    if b == NEWLINE then EndLine(cfg, grown) else grown
  }

  /** Bytes in text mode, one at a time; after the switch the rest is binary. An overflow stops
      it, a failed line does not. */
  function Text(cfg: Config, c: Connection, data: seq<byte>): Connection
    decreases |data|
  {
    if c.state.phase == Streaming then c.(state := Binary(c.state, data))
    else if data == [] then c
    else if |c.line| >= MAX_LINE then c.(state := Fail(c.state, LineBufferOverflow))
    else Text(cfg, Pushed(cfg, c, data[0]), data[1..])
  }

  function Binary(s: State, data: seq<byte>): State { s.(binary := s.binary + data) }

  function DataReceived(cfg: Config, c: Connection, data: seq<byte>): Connection {
    if c.state.closed then c else Text(cfg, c, data)
  }

  function DoneReceived(s: State): State {
    if s.closed || s.phase == Streaming then s else Fail(s, ConnectionClosed)
  }

  // ---- The component -----------------------------------------------------------------

  class CramAuth {
    const cfg: Config
    var phase: Phase
    var line: seq<byte>
    var dataset: string
    var request: Option<Request>
    var sent: bool
    var startRequested: bool
    var counter: nat
    var closed: bool
    var finalized: bool
    var written: seq<string>
    var errors: seq<Failure>
    var binary: seq<byte>
    ghost var challenge: string
    ghost var authDataset: string
    ghost var requests: seq<Request>

    ghost function Now(): State
      reads this
    {
      State(phase, dataset, request, sent, startRequested, counter, closed, finalized, written, errors, binary,
            challenge, authDataset, requests)
    }

    ghost function Here(): Connection
      reads this
    {
      Connection(Now(), line)
    }

    /** Outside ProcessLineBuffer the buffer holds no complete line. */
    ghost predicate Valid()
      reads this
    {
      NEWLINE !in line
    }

    constructor (cfg: Config, dataset: string)
      ensures Valid() && Now() == Initial(dataset) && line == [] && this.cfg == cfg
    {
      this.cfg := cfg;
      phase, line, this.dataset, request := WaitingGreeting, [], dataset, None;
      sent, startRequested, counter, closed, finalized := false, false, 0, false, false;
      written, errors, binary, challenge, authDataset, requests := [], [], [], "", "", [];
    }

    method EmitErrorAndClose(failure: Failure)
      modifies this
      ensures line == old(line)
      ensures Now() == Fail(old(Now()), failure)
    {
      if !finalized {
        finalized := true;
        errors := errors + [failure];
      }
      closed := true;
    }

    method SendLine(text: string)
      modifies this
      ensures line == old(line)
      ensures Now() == LineSent(old(Now()), text)
    {
      var withNewline := text + "\n";
      if |withNewline| > SEGMENT_SIZE {
        EmitErrorAndClose(LineTooLarge);
        return;
      }
      written := written + [withNewline];
    }

    method SendPendingSubscription()
      modifies this
      ensures line == old(line)
      ensures Now() == SendPending(old(Now()))
    {
      hide SubscriptionLine;
      if sent || request.None? { return; }
      counter := (counter + 1) % UINT32_MODULUS;
      requests := requests + [request.value];
      SendLine(SubscriptionLine(request.value, counter));
      sent := true;
      if startRequested {
        SendLine(START_LINE);
        phase := Streaming;
      }
    }

    method Subscribe(r: Request)
      requires Valid()
      modifies this
      ensures line == old(line)
      ensures Valid() && Now() == Subscribed(old(Now()), r)
    {
      hide SendPending;
      request := Some(r);
      sent := false;
      if phase == Ready { SendPendingSubscription(); }
    }

    method StartStreaming()
      requires Valid()
      modifies this
      ensures line == old(line)
      ensures Valid() && Now() == Started(old(Now()))
    {
      startRequested := true;
      if phase == Ready && sent {
        SendLine(START_LINE);
        phase := Streaming;
      }
    }

    method SetDataset(name: string)
      requires Valid()
      modifies this
      ensures line == old(line)
      ensures Valid() && Now() == old(Now()).(dataset := name)
    {
      dataset := name;
    }

    method Answer(cram: string)
      modifies this
      ensures line == old(line)
      ensures Now() == Challenged(cfg, old(Now()), cram)
    {
      hide AuthLine;
      challenge, authDataset := cram, dataset;
      SendLine(AuthLine(cfg, cram, dataset));
      phase := Authenticating;
    }

    method ProcessLine(text: string)
      modifies this
      ensures line == old(line)
      ensures Now() == LineProcessed(cfg, old(Now()), text)
    {
      hide Challenged, SendPending, Accepts;
      match phase
      case WaitingGreeting => phase := WaitingChallenge;
      case WaitingChallenge =>
        if !("cram=" <= text) {
          EmitErrorAndClose(InvalidChallenge);
        } else {
          Answer(text[5..]);
        }
      case Authenticating =>
        var ok := CheckResponse(text);
        if ok {
          phase := Ready;
          SendPendingSubscription();
        } else {
          EmitErrorAndClose(AuthFailed);
        }
      case Ready =>
      case Streaming =>
    }

    /** The buffer never holds anything after the line that was just completed, so the branch
        that would hand leftover bytes to the binary half is dead. */
    method ProcessLineBuffer()
      requires line != [] && line[|line| - 1] == NEWLINE && NEWLINE !in line[..|line| - 1]
      modifies this
      ensures Valid() && Here() == EndLine(cfg, old(Here()))
    {
      hide LineProcessed, AsText;
      while NEWLINE in line
        invariant line == [] || Here() == old(Here())
        invariant line == [] ==> Here() == EndLine(cfg, old(Here()))
        decreases |line|
      {
        var end := FindByte(line, NEWLINE);
        var contentEnd := end;
        if contentEnd > 0 && line[contentEnd - 1] == RETURN { contentEnd := contentEnd - 1; }
        assert line[..contentEnd] == Trim(line[..end]);
        ProcessLine(AsText(line[..contentEnd]));
        line := line[end + 1..];
        if phase == Streaming && line != [] {
          assert false;
        }
      }
    }

    method OnTextData(data: seq<byte>)
      requires Valid() && phase != Streaming
      modifies this
      ensures Valid() && Here() == Text(cfg, old(Here()), data)
    {
      hide EndLine;
      var rest := data;
      while rest != []
        invariant Valid() && phase != Streaming
        invariant Text(cfg, Here(), rest) == Text(cfg, old(Here()), data)
        decreases |rest|
      {
        var b := rest[0];
        rest := rest[1..];
        if |line| >= MAX_LINE {
          EmitErrorAndClose(LineBufferOverflow);
          return;
        }
        line := line + [b];
        if b == NEWLINE {
          ProcessLineBuffer();
          if phase == Streaming {
            binary := binary + rest;
            return;
          }
        }
      }
    }

    method OnData(data: seq<byte>)
      requires Valid()
      modifies this
      ensures Valid() && Here() == DataReceived(cfg, old(Here()), data)
    {
      if closed { return; }
      if phase == Streaming {
        binary := binary + data;
      } else {
        OnTextData(data);
      }
    }

    method OnDone()
      requires Valid()
      modifies this
      ensures line == old(line)
      ensures Valid() && Now() == DoneReceived(old(Now()))
    {
      if closed { return; }
      if phase != Streaming { EmitErrorAndClose(ConnectionClosed); }
    }

    method OnError()
      requires Valid()
      modifies this
      ensures line == old(line)
      ensures Valid() && Now() == if old(closed) then old(Now()) else Fail(old(Now()), UpstreamFailed)
    {
      if !closed { EmitErrorAndClose(UpstreamFailed); }
    }
  }

  method FindByte(s: seq<byte>, b: byte) returns (i: nat)
    requires b in s
    ensures i < |s| && s[i] == b && b !in s[..i]
  {
    i := 0;
    while s[i] != b
      invariant i < |s| && b !in s[..i] && b in s[i..]
      decreases |s| - i
    {
      i := i + 1;
    }
  }

  // ---- The transcript ----------------------------------------------------------------

  /** The subscription lines, numbered from 1; the number is an unsigned 32-bit counter. */
  function Subscriptions(requests: seq<Request>): seq<string> {
    if requests == [] then []
    else Subscriptions(requests[..|requests| - 1])
         + [SubscriptionLine(requests[|requests| - 1], |requests| % UINT32_MODULUS)]
  }

  /** The whole conversation: one auth line, then the subscriptions, then at most one
      start_session, which is last. */
  function Conversation(cfg: Config, s: State): seq<string> {
    if s.phase.Rank() < Authenticating.Rank() then []
    else [AuthLine(cfg, s.challenge, s.authDataset)] + Subscriptions(s.requests)
         + (if s.phase == Streaming then [START_LINE] else [])
  }

  /** The lines that fit a segment, with their newlines. */
  function Delivered(lines: seq<string>): seq<string> {
    if lines == [] then []
    else
      var last := lines[|lines| - 1];
      Delivered(lines[..|lines| - 1]) + (if Fits(last) then [last + "\n"] else [])
  }

  ghost predicate AllFit(lines: seq<string>) { forall i :: 0 <= i < |lines| ==> Fits(lines[i]) }

  /** What was written is what fits of the conversation, and a line that did not fit closed it. */
  ghost predicate Told(cfg: Config, s: State) {
    s.written == Delivered(Conversation(cfg, s)) && (s.closed || AllFit(Conversation(cfg, s)))
  }

  ghost predicate Kept(s: State) {
    && s.counter == |s.requests| % UINT32_MODULUS
    && (s.phase.Rank() < Ready.Rank() ==> s.requests == [] && !s.sent)
    && (s.phase == Ready ==> (s.sent <==> s.request.Some?) && !(s.sent && s.startRequested))
    && (s.phase == Streaming ==> s.requests != [] && s.startRequested)
    && (s.sent ==> s.request.Some? && s.requests != [] && s.requests[|s.requests| - 1] == s.request.value)
    && (s.phase != Streaming ==> s.binary == [])
    && |s.errors| <= 1 && (s.errors != [] <==> s.finalized) && (s.finalized <==> s.closed)
  }

  /** What holds after any run. */
  ghost predicate Inv(cfg: Config, s: State) { Told(cfg, s) && Kept(s) }

  /** The state only advances, and nothing already done is undone. After the switch no further
      line is ever written, so a later Subscribe is dropped. */
  ghost predicate Later(s: State, t: State) {
    && s.phase.Rank() <= t.phase.Rank()
    && s.written <= t.written && s.binary <= t.binary && s.errors <= t.errors && s.requests <= t.requests
    && (s.closed ==> t.closed)
    && (s.phase == Streaming ==> t.written == s.written)
  }

  lemma {:induction false} LaterTrans(s: State, t: State, u: State)
    requires Later(s, t) && Later(t, u)
    ensures Later(s, u)
  {
  }

  lemma {:induction false} DeliveredAppend(lines: seq<string>, l: string)
    ensures Delivered(lines + [l]) == Delivered(lines) + (if Fits(l) then [l + "\n"] else [])
  {
    assert (lines + [l])[..|lines|] == lines;
  }

  lemma {:induction false} SubscriptionsAppend(requests: seq<Request>, r: Request)
    ensures Subscriptions(requests + [r])
         == Subscriptions(requests) + [SubscriptionLine(r, (|requests| + 1) % UINT32_MODULUS)]
  {
    hide SubscriptionLine;
    assert (requests + [r])[..|requests|] == requests;
  }

  lemma {:induction false} InitialInv(cfg: Config, dataset: string)
    ensures Inv(cfg, Initial(dataset))
  {
  }

  lemma {:induction false} FailKeeps(cfg: Config, s: State, f: Failure)
    requires Inv(cfg, s)
    ensures Inv(cfg, Fail(s, f)) && Later(s, Fail(s, f))
  {
    hide AuthLine, Subscriptions;
  }

  /** Sending one more line: what is written stays what fits of what was meant. */
  lemma {:induction false} SendKeeps(s: State, lines: seq<string>, l: string)
    requires s.written == Delivered(lines) && (s.closed || AllFit(lines))
    ensures var t := LineSent(s, l); t.written == Delivered(lines + [l]) && (t.closed || AllFit(lines + [l]))
  {
    DeliveredAppend(lines, l);
  }

  lemma {:induction false} SwitchKeeps(cfg: Config, s: State)
    requires Inv(cfg, s.(startRequested := false)) && s.phase == Ready && s.sent && s.startRequested
    ensures Inv(cfg, Switch(s)) && Later(s, Switch(s))
  {
    hide AuthLine, Subscriptions;
    SwitchTold(cfg, s);
    SameConversation(cfg, s.(startRequested := false), s);
    hide Told;
  }

  lemma {:induction false} SwitchTold(cfg: Config, s: State)
    requires Told(cfg, s.(startRequested := false)) && s.phase == Ready
    ensures Told(cfg, Switch(s))
  {
    hide AuthLine, Subscriptions, Delivered;
    SendKeeps(s, Conversation(cfg, s), START_LINE);
    var auth, subs := [AuthLine(cfg, s.challenge, s.authDataset)], Subscriptions(s.requests);
    assert auth + subs + [] == auth + subs;
  }

  lemma {:induction false} ConversationGrows(cfg: Config, s: State)
    requires s.phase == Ready && s.request.Some? && s.counter == |s.requests| % UINT32_MODULUS
    ensures var id := (s.counter + 1) % UINT32_MODULUS;
            Conversation(cfg, Counted(s, id)) == Conversation(cfg, s) + [SubscriptionLine(s.request.value, id)]
  {
    hide AuthLine, SubscriptionLine, Subscriptions;
    SubscriptionsAppend(s.requests, s.request.value);
    var l := SubscriptionLine(s.request.value, (s.counter + 1) % UINT32_MODULUS);
    var auth, subs := [AuthLine(cfg, s.challenge, s.authDataset)], Subscriptions(s.requests);
    assert auth + (subs + [l]) + [] == auth + subs + [] + [l];
  }

  lemma {:induction false} SubscriptionTold(cfg: Config, s: State, t: State)
    requires Told(cfg, s) && s.phase == Ready && s.request.Some? && s.counter == |s.requests| % UINT32_MODULUS
    requires t == LineSent(Counted(s, (s.counter + 1) % UINT32_MODULUS),
                           SubscriptionLine(s.request.value, (s.counter + 1) % UINT32_MODULUS))
    ensures Told(cfg, t)
  {
    hide AuthLine, SubscriptionLine, Subscriptions, Delivered;
    var id := (s.counter + 1) % UINT32_MODULUS;
    ConversationGrows(cfg, s);
    SameConversation(cfg, Counted(s, id), t);
    SendKeeps(Counted(s, id), Conversation(cfg, s), SubscriptionLine(s.request.value, id));
  }

  lemma {:induction false} SubscriptionKeeps(cfg: Config, s: State)
    requires Inv(cfg, s.(request := None, sent := false)) && s.phase == Ready && s.request.Some? && !s.sent
    ensures Inv(cfg, RequestSent(s).(startRequested := false)) && Later(s, RequestSent(s))
  {
    hide SubscriptionLine, LineSent, Told, Later;
    var id := (s.counter + 1) % UINT32_MODULUS;
    var t := LineSent(Counted(s, id), SubscriptionLine(s.request.value, id));
    SameTold(cfg, s.(request := None, sent := false), s);
    SubscriptionTold(cfg, s, t);
    SameTold(cfg, t, RequestSent(s).(startRequested := false));
    SubscriptionKept(s);
  }

  lemma {:induction false} SubscriptionKept(s: State)
    requires Kept(s.(request := None, sent := false)) && s.phase == Ready && s.request.Some? && !s.sent
    ensures Kept(RequestSent(s).(startRequested := false)) && Later(s, RequestSent(s))
  {
    hide SubscriptionLine;
  }

  lemma {:induction false} SameTold(cfg: Config, s: State, t: State)
    requires Told(cfg, s) && t == s.(request := t.request, sent := t.sent, startRequested := t.startRequested)
    ensures Told(cfg, t)
  {
    SameConversation(cfg, s, t);
    hide Conversation, Delivered;
  }

  lemma {:induction false} SameConversation(cfg: Config, s: State, t: State)
    requires t.phase == s.phase && t.challenge == s.challenge && t.authDataset == s.authDataset
        && t.requests == s.requests
    ensures forall flag :: Conversation(cfg, t.(startRequested := flag)) == Conversation(cfg, s)
    ensures Conversation(cfg, t) == Conversation(cfg, s)
  {
  }

  lemma {:induction false} SendPendingKeeps(cfg: Config, s: State)
    requires s.phase == Ready && Inv(cfg, s.(request := None, sent := false)) && !s.sent
    ensures Inv(cfg, SendPending(s)) && Later(s, SendPending(s))
  {
    hide AuthLine, SubscriptionLine, Subscriptions;
    if s.request.Some? {
      SubscriptionKeeps(cfg, s);
      if s.startRequested {
        SwitchKeeps(cfg, RequestSent(s));
        LaterTrans(s, RequestSent(s), Switch(RequestSent(s)));
      }
    }
  }

  lemma {:induction false} SubscribeKeeps(cfg: Config, s: State, r: Request)
    requires Inv(cfg, s)
    ensures Inv(cfg, Subscribed(s, r)) && Later(s, Subscribed(s, r))
  {
    hide Conversation, SendPending, Delivered;
    SameConversation(cfg, s, s.(request := Some(r), sent := false));
    SameConversation(cfg, s, s.(request := None, sent := false));
    if s.phase == Ready { SendPendingKeeps(cfg, s.(request := Some(r), sent := false)); }
  }

  lemma {:induction false} StartKeeps(cfg: Config, s: State)
    requires Inv(cfg, s)
    ensures Inv(cfg, Started(s)) && Later(s, Started(s))
  {
    hide Conversation, Delivered;
    SameConversation(cfg, s, s);
    if s.phase == Ready && s.sent { SwitchKeeps(cfg, s.(startRequested := true)); }
  }

  lemma {:induction false} LineKeeps(cfg: Config, s: State, text: string)
    requires Inv(cfg, s)
    ensures Inv(cfg, LineProcessed(cfg, s, text)) && Later(s, LineProcessed(cfg, s, text))
  {
    hide AuthLine, Accepts, SendPending, Delivered;
    match s.phase
    case WaitingGreeting =>
    case WaitingChallenge =>
      if "cram=" <= text { LoginKeeps(cfg, s, text[5..]); } else { FailKeeps(cfg, s, InvalidChallenge); }
    case Authenticating =>
      if Accepts(text) {
        LoggedInKeeps(cfg, s);
      } else {
        FailKeeps(cfg, s, AuthFailed);
      }
    case _ =>
  }

  lemma {:induction false} LoginKeeps(cfg: Config, s: State, challenge: string)
    requires Inv(cfg, s) && s.phase == WaitingChallenge
    ensures Inv(cfg, Challenged(cfg, s, challenge)) && Later(s, Challenged(cfg, s, challenge))
  {
    hide AuthLine;
    var l := AuthLine(cfg, challenge, s.dataset);
    LoginTold(cfg, s, challenge, l);
    hide Told, Conversation;
  }

  lemma {:induction false} LoginTold(cfg: Config, s: State, challenge: string, l: string)
    requires Told(cfg, s) && s.phase == WaitingChallenge && s.requests == [] && l == AuthLine(cfg, challenge, s.dataset)
    ensures Told(cfg, LineSent(s.(challenge := challenge, authDataset := s.dataset), l).(phase := Authenticating))
  {
    hide AuthLine, Delivered;
    SendKeeps(s.(challenge := challenge, authDataset := s.dataset), [], l);
    assert [l] + [] + [] == [] + [l];
  }

  lemma {:induction false} LoggedInKeeps(cfg: Config, s: State)
    requires Inv(cfg, s) && s.phase == Authenticating
    ensures var t := SendPending(s.(phase := Ready)); Inv(cfg, t) && Later(s, t)
  {
    hide AuthLine, Delivered, SendPending;
    SendPendingKeeps(cfg, s.(phase := Ready));
  }

  /** A line is at most the limit, and complete lines have been taken out of it. */
  ghost predicate Steady(cfg: Config, c: Connection) { Inv(cfg, c.state) && NEWLINE !in c.line && |c.line| <= MAX_LINE }

  lemma {:induction false} PushKeeps(cfg: Config, c: Connection, b: byte)
    requires Steady(cfg, c) && c.state.phase != Streaming && |c.line| < MAX_LINE
    ensures Steady(cfg, Pushed(cfg, c, b)) && Later(c.state, Pushed(cfg, c, b).state)
  {
    hide Inv, LineProcessed, AsText, Trim;
    if b == NEWLINE {
      assert (c.line + [b])[..|c.line|] == c.line;
      LineKeeps(cfg, c.state, AsText(Trim(c.line)));
    }
  }

  lemma {:induction false} TextKeeps(cfg: Config, c: Connection, data: seq<byte>)
    requires Steady(cfg, c)
    ensures Steady(cfg, Text(cfg, c, data)) && Later(c.state, Text(cfg, c, data).state)
    decreases |data|
  {
    hide Conversation, Pushed, Delivered;
    if c.state.phase == Streaming {
      SameConversation(cfg, c.state, Binary(c.state, data));
    } else if data != [] {
      if |c.line| >= MAX_LINE {
        FailKeeps(cfg, c.state, LineBufferOverflow);
      } else {
        var t := Pushed(cfg, c, data[0]);
        PushKeeps(cfg, c, data[0]);
        TextKeeps(cfg, t, data[1..]);
        LaterTrans(c.state, t.state, Text(cfg, t, data[1..]).state);
      }
    }
  }

  // ---- Every run ---------------------------------------------------------------------

  datatype Op = SubscribeOp(request: Request) | StartOp | DatasetOp(name: string) | DataOp(bytes: seq<byte>)
              | DoneOp | ErrorOp

  function Apply(cfg: Config, c: Connection, op: Op): Connection {
    match op
    case SubscribeOp(r) => c.(state := Subscribed(c.state, r))
    case StartOp => c.(state := Started(c.state))
    case DatasetOp(name) => c.(state := c.state.(dataset := name))
    case DataOp(bytes) => DataReceived(cfg, c, bytes)
    case DoneOp => c.(state := DoneReceived(c.state))
    case ErrorOp => if c.state.closed then c else c.(state := Fail(c.state, UpstreamFailed))
  }

  function Run(cfg: Config, c: Connection, ops: seq<Op>): Connection
    decreases |ops|
  {
    if ops == [] then c else Run(cfg, Apply(cfg, c, ops[0]), ops[1..])
  }

  lemma {:induction false} ApplyKeeps(cfg: Config, c: Connection, op: Op)
    requires Steady(cfg, c)
    ensures Steady(cfg, Apply(cfg, c, op)) && Later(c.state, Apply(cfg, c, op).state)
  {
    hide Conversation, Text, Started, Subscribed, Delivered;
    match op
    case SubscribeOp(r) => SubscribeKeeps(cfg, c.state, r);
    case StartOp => StartKeeps(cfg, c.state);
    case DatasetOp(name) => SameConversation(cfg, c.state, c.state.(dataset := name));
    case DataOp(bytes) => TextKeeps(cfg, c, bytes);
    case DoneOp => FailKeeps(cfg, c.state, ConnectionClosed);
    case ErrorOp => FailKeeps(cfg, c.state, UpstreamFailed);
  }

  lemma {:induction false} RunKeeps(cfg: Config, c: Connection, ops: seq<Op>)
    requires Steady(cfg, c)
    ensures Steady(cfg, Run(cfg, c, ops)) && Later(c.state, Run(cfg, c, ops).state)
    decreases |ops|
  {
    hide Inv, Apply;
    if ops != [] {
      ApplyKeeps(cfg, c, ops[0]);
      RunKeeps(cfg, Apply(cfg, c, ops[0]), ops[1..]);
      LaterTrans(c.state, Apply(cfg, c, ops[0]).state, Run(cfg, c, ops).state);
    }
  }

  /** All of the lines with their newlines. */
  function Terminated(lines: seq<string>): seq<string> {
    if lines == [] then [] else Terminated(lines[..|lines| - 1]) + [lines[|lines| - 1] + "\n"]
  }

  lemma {:induction false} AllDelivered(lines: seq<string>)
    ensures AllFit(lines) ==> Delivered(lines) == Terminated(lines)
    ensures !AllFit(lines) ==> |Delivered(lines)| < |lines|
    ensures |Delivered(lines)| <= |lines| == |Terminated(lines)|
  {
    if lines != [] {
      var front := lines[..|lines| - 1];
      AllDelivered(front);
      assert AllFit(lines) <==> AllFit(front) && Fits(lines[|lines| - 1]);
    }
  }

  /** Over every run the lines written are the whole conversation - one auth line, subscriptions
      numbered from 1, at most one start_session, last - exactly when every line of it fits a
      segment. */
  lemma {:induction false} TranscriptComplete(cfg: Config, dataset: string, ops: seq<Op>)
    ensures var s := Run(cfg, Connection(Initial(dataset), []), ops).state;
            s.written == Terminated(Conversation(cfg, s)) <==> AllFit(Conversation(cfg, s))
    ensures var s := Run(cfg, Connection(Initial(dataset), []), ops).state;
            s.phase == Streaming ==> s.requests != []
  {
    hide Conversation, Run, Delivered, Terminated;
    var start := Connection(Initial(dataset), []);
    InitialInv(cfg, dataset);
    RunKeeps(cfg, start, ops);
    AllDelivered(Conversation(cfg, Run(cfg, start, ops).state));
  }

  /** Nothing asked for is left unsent in Ready, and once the session has started nothing more
      is ever written, whatever is asked. */
  lemma {:induction false} ReadyHasSent(cfg: Config, dataset: string, ops: seq<Op>, more: seq<Op>)
    ensures var c := Run(cfg, Connection(Initial(dataset), []), ops);
            && (c.state.phase == Ready ==>
                (c.state.sent <==> c.state.request.Some?) && !(c.state.sent && c.state.startRequested))
            && (c.state.phase == Streaming ==> Run(cfg, c, more).state.written == c.state.written)
  {
    hide Conversation, Run, Told;
    var start := Connection(Initial(dataset), []);
    InitialInv(cfg, dataset);
    RunKeeps(cfg, start, ops);
    RunKeeps(cfg, Run(cfg, start, ops), more);
  }

  // ---- Segmentation ------------------------------------------------------------------

  /** Reading on from where the first part stopped is reading both parts together. */
  lemma {:induction false} TextSplit(cfg: Config, c: Connection, a: seq<byte>, b: seq<byte>)
    ensures Text(cfg, c, a + b) == Text(cfg, Text(cfg, c, a), b)
    decreases |a|
  {
    hide Pushed;
    if c.state.phase == Streaming {
      Assoc(c.state.binary, a, b);
    } else if a == [] {
      assert a + b == b;
    } else if |c.line| >= MAX_LINE {
      StaysStopped(cfg, c, b);
    } else {
      assert (a + b)[0] == a[0] && (a + b)[1..] == a[1..] + b;
      TextSplit(cfg, Pushed(cfg, c, a[0]), a[1..], b);
    }
  }

  lemma {:induction false} StaysStopped(cfg: Config, c: Connection, b: seq<byte>)
    requires c.state.phase != Streaming && |c.line| >= MAX_LINE
    ensures var stopped := c.(state := Fail(c.state, LineBufferOverflow)); Text(cfg, stopped, b) == stopped
  {
  }

  function Chunks(cfg: Config, c: Connection, chunks: seq<seq<byte>>): Connection
    decreases |chunks|
  {
    if chunks == [] then c else Chunks(cfg, DataReceived(cfg, c, chunks[0]), chunks[1..])
  }

  /** The complete lines that `line` followed by `data` holds, up to the first byte that finds the
      line buffer full. */
  function CompleteLines(line: seq<byte>, data: seq<byte>): seq<seq<byte>>
    decreases |data|
  {
    if data == [] || |line| >= MAX_LINE then []
    else if data[0] == NEWLINE then [line] + CompleteLines([], data[1..])
    else CompleteLines(line + [data[0]], data[1..])
  }

  /** A line that still does something on a connection that has failed: it takes the protocol one
      state further. */
  predicate Acts(phase: Phase, content: seq<byte>) {
    match phase
    case WaitingGreeting => true
    case WaitingChallenge => "cram=" <= AsText(Trim(content))
    case Authenticating => Accepts(AsText(Trim(content)))
    case _ => false
  }

  ghost predicate NoneActs(phase: Phase, lines: seq<seq<byte>>) {
    forall i :: 0 <= i < |lines| ==> !Acts(phase, lines[i])
  }

  lemma {:induction false} NoneActsFirst(phase: Phase, first: seq<byte>, others: seq<seq<byte>>)
    ensures NoneActs(phase, [first] + others) <==> !Acts(phase, first) && NoneActs(phase, others)
  {
    hide Acts;
    assert forall i :: 1 <= i < |[first] + others| ==> ([first] + others)[i] == others[i - 1];
    assert ([first] + others)[0] == first;
    assert forall i :: 0 <= i < |others| ==> others[i] == ([first] + others)[i + 1];
  }

  /** A failed connection is left as it is by a line that does not act; one that acts advances. */
  lemma {:induction false} ActingLine(cfg: Config, s: State, content: seq<byte>)
    requires Inv(cfg, s) && s.closed && s.phase != Streaming
    ensures var t := LineProcessed(cfg, s, AsText(Trim(content)));
            if Acts(s.phase, content) then t.phase.Rank() > s.phase.Rank() else t == s
  {
    hide Told, AsText, Trim, Accepts, AuthLine, Delivered;
    if s.phase == Authenticating && Acts(s.phase, content) { LoggedInKeeps(cfg, s); }
  }

  /** Bytes behind a failure change nothing exactly when they hold no line that acts, and, after
      the switch, when there are none. */
  lemma {:induction false} AfterFailure(cfg: Config, c: Connection, data: seq<byte>)
    requires Steady(cfg, c) && c.state.closed
    ensures Text(cfg, c, data).state == c.state
        <==> if c.state.phase == Streaming then data == [] else NoneActs(c.state.phase, CompleteLines(c.line, data))
    decreases |data|
  {
    hide Conversation, Delivered, Acts, LineProcessed, AsText, Trim;
    if c.state.phase == Streaming {
      assert |c.state.binary + data| == |c.state.binary| + |data|;
      assert c.state.binary + [] == c.state.binary;
    } else if data != [] && |c.line| < MAX_LINE {
      if data[0] == NEWLINE {
        var others := CompleteLines([], data[1..]);
        NoneActsFirst(c.state.phase, c.line, others);
        assert (c.line + [NEWLINE])[..|c.line|] == c.line;
        PushKeeps(cfg, c, NEWLINE);
        ActingLine(cfg, c.state, c.line);
        var t := Pushed(cfg, c, NEWLINE);
        TextKeeps(cfg, t, data[1..]);
        if !Acts(c.state.phase, c.line) { AfterFailure(cfg, t, data[1..]); }
      } else {
        PushKeeps(cfg, c, data[0]);
        AfterFailure(cfg, Pushed(cfg, c, data[0]), data[1..]);
      }
    }
  }

  /** Two chunks do what one does exactly when the first leaves the connection open, or what
      follows the failure holds no line that acts - a challenge while one is awaited, an acceptance
      while authenticating - and no binary data after the switch. A chunk goes on after a failed
      line; the component does not. */
  lemma {:induction false} TwoChunks(cfg: Config, c: Connection, a: seq<byte>, b: seq<byte>)
    requires Steady(cfg, c) && !c.state.closed
    ensures var t := Text(cfg, c, a);
            DataReceived(cfg, DataReceived(cfg, c, a), b).state == DataReceived(cfg, c, a + b).state
            <==> !t.state.closed
                 || (if t.state.phase == Streaming then b == [] else NoneActs(t.state.phase, CompleteLines(t.line, b)))
  {
    hide Text, Inv, Acts;
    TextSplit(cfg, c, a, b);
    TextKeeps(cfg, c, a);
    var t := Text(cfg, c, a);
    if t.state.closed { AfterFailure(cfg, t, b); }
  }

  /** The lines written and the binary bytes depend only on the concatenation of the chunks, as
      long as nothing fails. */
  lemma {:induction false} SegmentationIndependent(cfg: Config, c: Connection, chunks: seq<seq<byte>>)
    requires Steady(cfg, c) && !Text(cfg, c, Concat(chunks)).state.closed
    ensures Chunks(cfg, c, chunks) == Text(cfg, c, Concat(chunks))
    decreases |chunks|
  {
    hide Inv, Text;
    if chunks == [] {
      EmptyText(cfg, c);
    } else {
      var rest := Concat(chunks[1..]);
      TextSplit(cfg, c, chunks[0], rest);
      var t := Text(cfg, c, chunks[0]);
      TextKeeps(cfg, c, Concat(chunks));
      TextKeeps(cfg, c, chunks[0]);
      TextKeeps(cfg, t, rest);
      SegmentationIndependent(cfg, t, chunks[1..]);
    }
  }

  lemma {:induction false} EmptyText(cfg: Config, c: Connection)
    ensures Text(cfg, c, []) == c
  {
    assert c.state.binary + [] == c.state.binary;
  }

  // ---- The whole dialogue ------------------------------------------------------------

  /** Bytes without a newline just fill the buffer. */
  lemma {:induction false} TextBuffers(cfg: Config, c: Connection, part: seq<byte>)
    requires c.state.phase != Streaming && NEWLINE !in part && |c.line| + |part| <= MAX_LINE
    ensures Text(cfg, c, part) == c.(line := c.line + part)
    decreases |part|
  {
    if part == [] {
      assert c.line + part == c.line;
    } else {
      assert part[0] in part && forall b :: b in part[1..] ==> b in part;
      Assoc(c.line, [part[0]], part[1..]);
      assert [part[0]] + part[1..] == part;
      TextBuffers(cfg, c.(line := c.line + [part[0]]), part[1..]);
    }
  }

  function LineOf(content: seq<byte>): seq<byte> { content + [NEWLINE] }

  /** A line that fits the buffer is handled as a line. */
  lemma {:induction false} TextLine(cfg: Config, s: State, content: seq<byte>, rest: seq<byte>)
    requires s.phase != Streaming && NEWLINE !in content && |content| < MAX_LINE
    ensures Text(cfg, Connection(s, []), LineOf(content) + rest)
         == Text(cfg, Connection(LineProcessed(cfg, s, AsText(Trim(content))), []), rest)
  {
    hide LineProcessed, AsText, Trim;
    var c, full := Connection(s, []), Connection(s, content);
    TextSplit(cfg, c, LineOf(content), rest);
    TextSplit(cfg, c, content, [NEWLINE]);
    TextBuffers(cfg, c, content);
    assert [] + content == content;
    assert (content + [NEWLINE])[..|content|] == content;
    OneByte(cfg, full);
  }

  lemma {:induction false} OneByte(cfg: Config, c: Connection)
    requires c.state.phase != Streaming && |c.line| < MAX_LINE
    ensures Text(cfg, c, [NEWLINE]) == Pushed(cfg, c, NEWLINE)
  {
    hide Pushed;
    EmptyText(cfg, Pushed(cfg, c, NEWLINE));
  }

  /** An empty line is no challenge and fails; a challenge right behind it in the same chunk is
      still answered, in the next chunk it is not. */
  lemma {:induction false} FailedLineDoesNotStop(cfg: Config, s: State)
    requires s.phase == WaitingChallenge && !s.closed && !s.finalized
    ensures var bad, good := LineOf([]), LineOf([99, 114, 97, 109, 61]);
            && DataReceived(cfg, Connection(s, []), bad + good).state.phase == Authenticating
            && DataReceived(cfg, DataReceived(cfg, Connection(s, []), bad), good).state.phase == WaitingChallenge
  {
    hide Text, AuthLine, LineSent;
    var cram: seq<byte> := [99, 114, 97, 109, 61];
    var failed := Fail(s, InvalidChallenge);
    TextLine(cfg, s, [], LineOf(cram));
    TextLine(cfg, s, [], []);
    TextLine(cfg, failed, cram, []);
    assert LineOf([]) + [] == LineOf([]) && LineOf(cram) + [] == LineOf(cram);
    assert AsText(Trim([])) == "";
    assert AsText(Trim(cram)) == "cram=";
    EmptyText(cfg, Connection(failed, []));
    EmptyText(cfg, Connection(LineProcessed(cfg, failed, "cram="), []));
  }

  /** What the client means to say when the server greets, challenges and accepts it. */
  function Script(cfg: Config, dataset: string, r: Request, challenge: string): seq<string> {
    [AuthLine(cfg, challenge, dataset), SubscriptionLine(r, 1), START_LINE]
  }

  ghost predicate GoodLine(content: seq<byte>) { NEWLINE !in content && |content| < MAX_LINE }

  /** After the greeting, this challenge and an acceptance. */
  function LoggedIn(cfg: Config, s: State, challenge: string): State {
    SendPending(Challenged(cfg, s.(phase := WaitingChallenge), challenge).(phase := Ready))
  }

  lemma {:induction false} ThreeLines(cfg: Config, s: State, greeting: seq<byte>, cram: seq<byte>, reply: seq<byte>,
                                      rest: seq<byte>)
    requires GoodLine(greeting) && GoodLine(cram) && GoodLine(reply)
    requires s.phase == WaitingGreeting && "cram=" <= AsText(Trim(cram)) && Accepts(AsText(Trim(reply)))
    ensures Text(cfg, Connection(s, []), LineOf(greeting) + (LineOf(cram) + (LineOf(reply) + rest)))
         == Text(cfg, Connection(LoggedIn(cfg, s, AsText(Trim(cram))[5..]), []), rest)
  {
    hide Text, AsText, Trim, Accepts, AuthLine, SendPending;
    TextLine(cfg, s, greeting, LineOf(cram) + (LineOf(reply) + rest));
    var s1 := s.(phase := WaitingChallenge);
    TextLine(cfg, s1, cram, LineOf(reply) + rest);
    TextLine(cfg, Challenged(cfg, s1, AsText(Trim(cram))[5..]), reply, rest);
  }

  /** A client that subscribed and asked to start before the greeting: however the server's bytes
      are cut into chunks, it authenticates, subscribes, starts, and every byte after the third
      line goes to the binary half. */
  lemma {:induction false} Dialogue(cfg: Config, dataset: string, r: Request, greeting: seq<byte>, cram: seq<byte>,
                                    reply: seq<byte>, rest: seq<byte>, chunks: seq<seq<byte>>)
    requires GoodLine(greeting) && GoodLine(cram) && GoodLine(reply)
    requires "cram=" <= AsText(Trim(cram)) && Accepts(AsText(Trim(reply)))
    requires AllFit(Script(cfg, dataset, r, AsText(Trim(cram))[5..]))
    requires Concat(chunks) == LineOf(greeting) + (LineOf(cram) + (LineOf(reply) + rest))
    ensures var s := Chunks(cfg, Connection(Started(Subscribed(Initial(dataset), r)), []), chunks).state;
            && s.phase == Streaming && s.binary == rest && s.errors == []
            && s.written == Terminated(Script(cfg, dataset, r, AsText(Trim(cram))[5..]))
  {
    hide Text, AsText, Trim, Accepts, AuthLine, SubscriptionLine, Chunks;
    var s := Started(Subscribed(Initial(dataset), r));
    var challenge := AsText(Trim(cram))[5..];
    InitialInv(cfg, dataset);
    SubscribeKeeps(cfg, Initial(dataset), r);
    StartKeeps(cfg, Subscribed(Initial(dataset), r));
    ThreeLines(cfg, s, greeting, cram, reply, rest);
    ScriptSent(cfg, dataset, r, challenge);
    var t := LoggedIn(cfg, s, challenge);
    BinaryText(cfg, t, rest);
    SegmentationIndependent(cfg, Connection(s, []), chunks);
  }

  lemma {:induction false} BinaryText(cfg: Config, s: State, rest: seq<byte>)
    requires s.phase == Streaming
    ensures Text(cfg, Connection(s, []), rest) == Connection(Binary(s, rest), [])
  {
  }

  lemma {:induction false} ScriptSent(cfg: Config, dataset: string, r: Request, challenge: string)
    requires AllFit(Script(cfg, dataset, r, challenge))
    ensures var s := Started(Subscribed(Initial(dataset), r));
            var t := LoggedIn(cfg, s, challenge);
            && t.phase == Streaming && t.binary == [] && t.errors == [] && !t.closed
            && t.written == Terminated(Script(cfg, dataset, r, challenge))
  {
    hide AuthLine, SubscriptionLine;
    var lines := Script(cfg, dataset, r, challenge);
    assert Fits(lines[0]) && Fits(lines[1]) && Fits(lines[2]);
    ThreeTerminated(lines[0], lines[1], lines[2]);
    hide Script, Terminated;
  }

  lemma {:induction false} ThreeTerminated(a: string, b: string, c: string)
    ensures Terminated([a, b, c]) == [a + "\n", b + "\n", c + "\n"]
  {
    assert [a][..0] == [] && [a, b][..1] == [a] && [a, b, c][..2] == [a, b];
    assert Terminated([a]) == [a + "\n"];
    assert Terminated([a, b]) == Terminated([a]) + [b + "\n"];
    assert Terminated([a, b, c]) == Terminated([a, b]) + [c + "\n"];
  }

  // ---- The dialogue in plain text ----------------------------------------------------

  predicate Latin(text: string) { forall i :: 0 <= i < |text| ==> text[i] as int < 256 }

  function BytesOf(text: string): (s: seq<byte>)
    requires Latin(text)
    ensures |s| == |text| && forall i :: 0 <= i < |s| ==> s[i] as int == text[i] as int
  {
    seq(|text|, i requires 0 <= i < |text| => text[i] as int as byte)
  }

  /** A text that fits the line buffer, with or without a carriage return behind it. */
  ghost predicate Sendable(text: string) {
    && Latin(text) && |text| + 1 < MAX_LINE && '\n' !in text
    && (text != "" ==> text[|text| - 1] != '\r')
  }

  function Sent(text: string, cr: bool): seq<byte>
    requires Latin(text)
  {
    BytesOf(text) + (if cr then [RETURN] else [])
  }

  /** A line's text is read whatever ends it. */
  lemma {:induction false} LineText(text: string, cr: bool)
    requires Sendable(text)
    ensures AsText(Trim(Sent(text, cr))) == text && GoodLine(Sent(text, cr))
  {
    var content := Sent(text, cr);
    if cr {
      assert content[..|content| - 1] == BytesOf(text);
    } else {
      assert content == BytesOf(text);
    }
    assert Trim(content) == BytesOf(text);
    forall i | 0 <= i < |content| ensures content[i] != NEWLINE {
      if i < |text| { assert content[i] as int == text[i] as int && text[i] in text; }
    }
  }

  /** What is set up before the greeting: the request that counts, and the dataset. */
  function LastRequest(ops: seq<Op>, before: Option<Request>): Option<Request> {
    if ops == [] then before
    else LastRequest(ops[1..], if ops[0].SubscribeOp? then Some(ops[0].request) else before)
  }

  function LastDataset(ops: seq<Op>, before: string): string {
    if ops == [] then before else LastDataset(ops[1..], if ops[0].DatasetOp? then ops[0].name else before)
  }

  lemma {:induction false} PreparedState(cfg: Config, s: State, ops: seq<Op>)
    requires s.phase == WaitingGreeting && !s.sent
    requires forall i :: 0 <= i < |ops| ==> ops[i].SubscribeOp? || ops[i].StartOp? || ops[i].DatasetOp?
    ensures Run(cfg, Connection(s, []), ops) ==
            Connection(s.(request := LastRequest(ops, s.request), dataset := LastDataset(ops, s.dataset),
                          startRequested := s.startRequested || StartOp in ops), [])
    decreases |ops|
  {
    if ops != [] {
      var t := Apply(cfg, Connection(s, []), ops[0]).state;
      PreparedState(cfg, t, ops[1..]);
      assert StartOp in ops <==> ops[0] == StartOp || StartOp in ops[1..];
    }
  }

  /** The whole dialogue, as both sides mean it. Before the greeting the client subscribes any
      number of times, names any number of datasets and asks to start; then the server greets,
      challenges and accepts, its lines ended either way and cut anywhere. The client writes
      exactly the answer to that challenge for the last dataset named, the last subscription as
      number 1, and the start; the bytes behind the third line go to the binary half. */
  lemma {:induction false} DialogueInText(cfg: Config, dataset: string, setup: seq<Op>, r: Request, greeting: string,
                                          challenge: string, reply: seq<string>, cr: bool, rest: seq<byte>,
                                          chunks: seq<seq<byte>>)
    requires forall i :: 0 <= i < |setup| ==> setup[i].SubscribeOp? || setup[i].StartOp? || setup[i].DatasetOp?
    requires StartOp in setup && LastRequest(setup, None) == Some(r)
    requires Sendable(greeting) && Sendable("cram=" + challenge) && Sendable(Join(reply))
    requires BarFree(reply) && !("err=" <= Join(reply)) && "success=1" in reply
    requires forall i :: 0 <= i < |reply| && "success=" <= reply[i] ==> reply[i] == "success=1"
    requires AllFit([AuthLine(cfg, challenge, LastDataset(setup, dataset)), SubscriptionLine(r, 1)])
    requires Concat(chunks) == LineOf(Sent(greeting, cr)) + (LineOf(Sent("cram=" + challenge, cr))
                                 + (LineOf(Sent(Join(reply), cr)) + rest))
    ensures var s := Chunks(cfg, Run(cfg, Connection(Initial(dataset), []), setup), chunks).state;
            && s.phase == Streaming && s.binary == rest && s.errors == []
            && s.written == [AuthLine(cfg, challenge, LastDataset(setup, dataset)) + "\n",
                             SubscriptionLine(r, 1) + "\n", "start_session\n"]
  {
    hide Text, AsText, Trim, Accepts, AuthLine, SubscriptionLine, Chunks, Run, LineOf, Sendable, Sent, Join, Terminated,
         GoodLine, Script, AllFit;
    var name, cram := LastDataset(setup, dataset), "cram=" + challenge;
    AcceptedReply(reply);
    PreparedState(cfg, Initial(dataset), setup);
    LineText(greeting, cr);
    LineText(cram, cr);
    LineText(Join(reply), cr);
    assert cram[5..] == challenge && "cram=" <= cram;
    ScriptInText(cfg, name, r, challenge);
    Dialogue(cfg, name, r, Sent(greeting, cr), Sent(cram, cr), Sent(Join(reply), cr), rest, chunks);
  }

  lemma {:induction false} ScriptInText(cfg: Config, dataset: string, r: Request, challenge: string)
    requires AllFit([AuthLine(cfg, challenge, dataset), SubscriptionLine(r, 1)])
    ensures AllFit(Script(cfg, dataset, r, challenge))
    ensures Terminated(Script(cfg, dataset, r, challenge)) ==
            [AuthLine(cfg, challenge, dataset) + "\n", SubscriptionLine(r, 1) + "\n", "start_session\n"]
  {
    hide AuthLine, SubscriptionLine, Terminated;
    var two, lines := [AuthLine(cfg, challenge, dataset), SubscriptionLine(r, 1)], Script(cfg, dataset, r, challenge);
    assert Fits(two[0]) && Fits(two[1]);
    StartFits();
    ThreeTerminated(lines[0], lines[1], lines[2]);
    assert START_LINE + "\n" == "start_session\n";
  }

  lemma {:induction false} StartFits()
    ensures Fits(START_LINE)
  {
  }

  lemma {:induction false} AcceptedReply(reply: seq<string>)
    requires BarFree(reply) && !("err=" <= Join(reply)) && "success=1" in reply
    requires forall i :: 0 <= i < |reply| && "success=" <= reply[i] ==> reply[i] == "success=1"
    ensures Accepts(Join(reply))
  {
    hide Accepts, Join, BarFree;
    var i :| 0 <= i < |reply| && reply[i] == "success=1";
    var k := LastOne(reply, i);
    AcceptsExactly(reply);
  }

  lemma {:induction false} LastOne(reply: seq<string>, i: nat) returns (k: nat)
    requires i < |reply| && reply[i] == "success=1"
    requires forall i :: 0 <= i < |reply| && "success=" <= reply[i] ==> reply[i] == "success=1"
    ensures k < |reply| && reply[k] == "success=1" && forall j :: k < j < |reply| ==> !("success=" <= reply[j])
    decreases |reply| - i
  {
    if j :| i < j < |reply| && "success=" <= reply[j] { k := LastOne(reply, j); } else { k := i; }
  }

  /** In Ready a subscription goes out at once, with the next number. */
  lemma {:induction false} SubscribeInReady(s: State, r: Request)
    requires s.phase == Ready && Fits(SubscriptionLine(r, (s.counter + 1) % UINT32_MODULUS))
    ensures var t := Subscribed(s, r); var line := SubscriptionLine(r, (s.counter + 1) % UINT32_MODULUS) + "\n";
            && t.sent && t.counter == (s.counter + 1) % UINT32_MODULUS && t.request == Some(r)
            && t.written == s.written + [line] + (if s.startRequested then ["start_session\n"] else [])
            && t.phase == (if s.startRequested then Streaming else Ready)
  {
    hide SubscriptionLine;
    StartFits();
    assert START_LINE + "\n" == "start_session\n";
    var id := (s.counter + 1) % UINT32_MODULUS;
    assert s.written + [SubscriptionLine(r, id) + "\n"] + [] == s.written + [SubscriptionLine(r, id) + "\n"];
  }

  // ---- Where it fails ----------------------------------------------------------------

  lemma {:induction false} RunSplit(cfg: Config, c: Connection, a: seq<Op>, b: seq<Op>)
    ensures Run(cfg, c, a + b) == Run(cfg, Run(cfg, c, a), b)
    decreases |a|
  {
    hide Apply;
    if a == [] {
      assert a + b == b;
    } else {
      assert (a + b)[0] == a[0] && (a + b)[1..] == a[1..] + b;
      RunSplit(cfg, Apply(cfg, c, a[0]), a[1..], b);
    }
  }

  /** The connection ends, or upstream fails, at any point of any run: before the switch the first
      is an error unless there was one already, the second always is; one error is all there is.
      After the switch the end is not this half's business. */
  lemma {:induction false} EndsInError(cfg: Config, dataset: string, ops: seq<Op>)
    ensures var start := Connection(Initial(dataset), []);
            var s, done := Run(cfg, start, ops).state, Run(cfg, start, ops + [DoneOp]).state;
            var failed := Run(cfg, start, ops + [ErrorOp]).state;
            && (s.errors != [] ==> done.errors == s.errors && failed.errors == s.errors)
            && (s.errors == [] && s.phase != Streaming ==> done.errors == [ConnectionClosed] && done.closed)
            && (s.phase == Streaming ==> done == s)
            && (s.errors == [] ==> failed.errors == [UpstreamFailed] && failed.closed)
            && |s.errors| <= 1
  {
    hide Apply;
    var start := Connection(Initial(dataset), []);
    InitialInv(cfg, dataset);
    RunKeeps(cfg, start, ops);
    RunSplit(cfg, start, ops, [DoneOp]);
    RunSplit(cfg, start, ops, [ErrorOp]);
    assert [DoneOp][1..] == [] && [ErrorOp][1..] == [];
    EndApplied(cfg, Run(cfg, start, ops));
  }

  lemma {:induction false} EndApplied(cfg: Config, c: Connection)
    requires Kept(c.state)
    ensures Apply(cfg, c, DoneOp).state ==
            if c.state.closed || c.state.phase == Streaming then c.state
            else c.state.(closed := true, finalized := true, errors := [ConnectionClosed])
    ensures Apply(cfg, c, ErrorOp).state ==
            if c.state.closed then c.state
            else c.state.(closed := true, finalized := true, errors := [UpstreamFailed])
  {
    assert c.state.errors == [] ==> c.state.errors + [ConnectionClosed] == [ConnectionClosed];
  }

  /** A line out of turn: whatever stands for a challenge without cram=, and a reply whose last
      success field is not 1, fail with their own error, and nothing is written. */
  lemma {:induction false} RefusedLines(cfg: Config, s: State, line: string, reply: seq<string>, i: nat)
    requires s.errors == [] && !s.finalized && BarFree(reply)
    ensures s.phase == WaitingChallenge && !("cram=" <= line) ==>
              LineProcessed(cfg, s, line) == s.(closed := true, finalized := true, errors := [InvalidChallenge])
    ensures s.phase == Authenticating && i < |reply| && "success=" <= reply[i] && reply[i] != "success=1"
            && (forall j :: i < j < |reply| ==> !("success=" <= reply[j])) ==>
              LineProcessed(cfg, s, Join(reply)) == s.(closed := true, finalized := true, errors := [AuthFailed])
    ensures s.phase == Authenticating && "err=" <= Join(reply) ==>
              LineProcessed(cfg, s, Join(reply)) == s.(closed := true, finalized := true, errors := [AuthFailed])
  {
    hide Accepts, Join;
    AcceptsExactly(reply);
  }
}
