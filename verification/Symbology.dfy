/** SymbologyBuilder: a state machine over SAX events, against what the JSON document means. */
module Symbology {
  import opened Bytes
  import Decimal

  datatype Interval = Interval(startDate: string, endDate: string, symbol: string)

  const NO_INTERVAL := Interval("", "", "")

  datatype Response = Response(result: map<string, seq<Interval>>, partial: seq<string>, notFound: seq<string>)

  const EMPTY := Response(map[], [], [])

  // ---- Documents ---------------------------------------------------------------------

  datatype Scalar = Str(text: string) | Int(i: int) | Uint(u: nat) | Double | Bool | Null

  datatype Field = Field(key: string, value: Scalar)

  /** A member of the "result" object: a symbol with its array of interval objects, or with
      something else that is not an object or array. */
  datatype Entry = Intervals(symbol: string, list: seq<seq<Field>>) | OtherEntry(symbol: string, value: Scalar)

  /** A member of the document. */
  datatype Member = Result(entries: seq<Entry>) | Partial(items: seq<Scalar>) | NotFound(items: seq<Scalar>)
                  | Extra(key: string, value: Scalar)

  datatype Event = Key(key: string) | Value(value: Scalar) | StartObject | EndObject | StartArray | EndArray

  function FieldEvents(fields: seq<Field>): seq<Event> {
    if fields == [] then [] else [Key(fields[0].key), Value(fields[0].value)] + FieldEvents(fields[1..])
  }

  function ListEvents(list: seq<seq<Field>>): seq<Event> {
    if list == [] then [] else [StartObject] + FieldEvents(list[0]) + [EndObject] + ListEvents(list[1..])
  }

  function EntryEvents(e: Entry): seq<Event> {
    match e
    case Intervals(symbol, list) => [Key(symbol), StartArray] + ListEvents(list) + [EndArray]
    case OtherEntry(symbol, value) => [Key(symbol), Value(value)]
  }

  function EntriesEvents(entries: seq<Entry>): seq<Event> {
    if entries == [] then [] else EntryEvents(entries[0]) + EntriesEvents(entries[1..])
  }

  function ItemEvents(items: seq<Scalar>): seq<Event> {
    if items == [] then [] else [Value(items[0])] + ItemEvents(items[1..])
  }

  function MemberEvents(m: Member): seq<Event> {
    match m
    case Result(entries) => [Key("result"), StartObject] + EntriesEvents(entries) + [EndObject]
    case Partial(items) => [Key("partial"), StartArray] + ItemEvents(items) + [EndArray]
    case NotFound(items) => [Key("not_found"), StartArray] + ItemEvents(items) + [EndArray]
    case Extra(key, value) => [Key(key), Value(value)]
  }

  function MembersEvents(doc: seq<Member>): seq<Event> {
    if doc == [] then [] else MemberEvents(doc[0]) + MembersEvents(doc[1..])
  }

  function DocumentEvents(doc: seq<Member>): seq<Event> { [StartObject] + MembersEvents(doc) + [EndObject] }

  // ---- What a document means ---------------------------------------------------------

  function IntText(i: int): string { if i < 0 then "-" + Decimal.Print(-i) else Decimal.Print(i) }

  /** The text of a date; only a string is one. */
  function DateText(v: Scalar): Option<string> { if v.Str? then Some(v.text) else None }

  /** The text of a symbol, which may also be an integer. */
  function SymbolText(v: Scalar): Option<string> {
    match v
    case Str(text) => Some(text)
    case Int(i) => Some(IntText(i))
    case Uint(u) => Some(Decimal.Print(u))
    case _ => None
  }

  /** The last usable value among the fields with a key, or nothing. */
  function Last(fields: seq<Field>, key: string, text: Scalar -> Option<string>): string {
    if fields == [] then ""
    else
      var f := fields[|fields| - 1];
      if f.key == key && text(f.value).Some? then text(f.value).value else Last(fields[..|fields| - 1], key, text)
  }

  function IntervalOf(fields: seq<Field>): Interval {
    Interval(Last(fields, "d0", DateText), Last(fields, "d1", DateText), Last(fields, "s", SymbolText))
  }

  predicate Complete(v: Interval) { v.startDate != "" && v.endDate != "" && v.symbol != "" }

  /** What an interval object with these members adds to its symbol. */
  function KeptOf(fields: seq<Field>): seq<Interval> {
    if Complete(IntervalOf(fields)) then [IntervalOf(fields)] else []
  }

  function Completed(list: seq<seq<Field>>): seq<Interval> {
    if list == [] then []
    else KeptOf(list[0]) + Completed(list[1..])
  }

  /** The complete intervals a document has for a symbol, in order. */
  function OfEntries(entries: seq<Entry>, symbol: string): seq<Interval> {
    if entries == [] then []
    else
      (if entries[0].Intervals? && entries[0].symbol == symbol then Completed(entries[0].list) else [])
      + OfEntries(entries[1..], symbol)
  }

  function OfDocument(doc: seq<Member>, symbol: string): seq<Interval> {
    if doc == [] then []
    else (if doc[0].Result? then OfEntries(doc[0].entries, symbol) else []) + OfDocument(doc[1..], symbol)
  }

  function Strings(items: seq<Scalar>): seq<string> {
    if items == [] then [] else (if items[0].Str? then [items[0].text] else []) + Strings(items[1..])
  }

  function AllPartial(doc: seq<Member>): seq<string> {
    if doc == [] then [] else (if doc[0].Partial? then Strings(doc[0].items) else []) + AllPartial(doc[1..])
  }

  function AllNotFound(doc: seq<Member>): seq<string> {
    if doc == [] then [] else (if doc[0].NotFound? then Strings(doc[0].items) else []) + AllNotFound(doc[1..])
  }

  function Known(r: map<string, seq<Interval>>, symbol: string): seq<Interval> { if symbol in r then r[symbol] else [] }

  /** The response says exactly what the document says: the symbols with a complete interval, and
      theirs. */
  ghost predicate Says(r: Response, doc: seq<Member>) {
    && (forall symbol :: Known(r.result, symbol) == OfDocument(doc, symbol))
    && (forall symbol :: symbol in r.result ==> r.result[symbol] != [])
    && r.partial == AllPartial(doc) && r.notFound == AllNotFound(doc)
  }

  // ---- The builder -------------------------------------------------------------------

  datatype State = Root | InResult | InSymbolArray | InInterval | InPartialArray | InNotFoundArray

  datatype Builder = Builder(state: State, key: string, symbol: string, interval: Interval, response: Response)

  const INITIAL := Builder(Root, "", "", NO_INTERVAL, EMPTY)

  function WithField(v: Interval, key: string, value: Scalar): Interval {
    if key == "d0" then (if value.Str? then v.(startDate := value.text) else v)
    else if key == "d1" then (if value.Str? then v.(endDate := value.text) else v)
    else if key == "s" && SymbolText(value).Some? then v.(symbol := SymbolText(value).value)
    else v
  }

  function Saved(r: Response, symbol: string, v: Interval): Response {
    if Complete(v) then r.(result := r.result[symbol := Known(r.result, symbol) + [v]]) else r
  }

  function OnValue(b: Builder, value: Scalar): Builder {
    match b.state
    case InInterval => b.(interval := WithField(b.interval, b.key, value))
    case InPartialArray =>
      if value.Str? then b.(response := b.response.(partial := b.response.partial + [value.text])) else b
    case InNotFoundArray =>
      if value.Str? then b.(response := b.response.(notFound := b.response.notFound + [value.text])) else b
    case _ => b
  }

  function Step(b: Builder, e: Event): Builder {
    match e
    case Key(key) => if b.state == InResult then b.(key := key, symbol := key) else b.(key := key)
    case Value(value) => OnValue(b, value)
    case StartObject =>
      if b.state == Root && b.key == "result" then b.(state := InResult)
      else if b.state == InSymbolArray then b.(state := InInterval, interval := NO_INTERVAL)
      else b
    case EndObject =>
      if b.state == InInterval then
        b.(state := InSymbolArray, response := Saved(b.response, b.symbol, b.interval),
           interval := if Complete(b.interval) then NO_INTERVAL else b.interval) // moved from
      else if b.state == InResult then b.(state := Root)
      else b
    case StartArray =>
      if b.state == Root && b.key == "partial" then b.(state := InPartialArray)
      else if b.state == Root && b.key == "not_found" then b.(state := InNotFoundArray)
      else if b.state == InResult then b.(state := InSymbolArray)
      else b
    case EndArray =>
      if b.state == InSymbolArray then b.(state := InResult)
      else if b.state == InPartialArray || b.state == InNotFoundArray then b.(state := Root)
      else b
  }

  function Feed(b: Builder, events: seq<Event>): Builder
    decreases |events|
  {
    if events == [] then b else Feed(Step(b, events[0]), events[1..])
  }

  class SymbologyBuilder {
    var state: State
    var currentKey: string
    var currentSymbol: string
    var currentInterval: Interval
    var response: Response

    ghost function Now(): Builder
      reads this
    {
      Builder(state, currentKey, currentSymbol, currentInterval, response)
    }

    constructor ()
      ensures Now() == INITIAL
    {
      state, currentKey, currentSymbol, currentInterval, response := Root, "", "", NO_INTERVAL, EMPTY;
    }

    method OnKey(key: string)
      modifies this
      ensures Now() == Step(old(Now()), Key(key))
    {
      currentKey := key;
      if state == InResult { currentSymbol := key; }
    }

    method OnString(value: string)
      modifies this
      ensures Now() == Step(old(Now()), Value(Str(value)))
    {
      match state {
        case InInterval =>
          if currentKey == "d0" {
            currentInterval := currentInterval.(startDate := value);
          } else if currentKey == "d1" {
            currentInterval := currentInterval.(endDate := value);
          } else if currentKey == "s" {
            currentInterval := currentInterval.(symbol := value);
          }
        case InPartialArray => response := response.(partial := response.partial + [value]);
        case InNotFoundArray => response := response.(notFound := response.notFound + [value]);
        case _ =>
      }
    }

    method OnInt(i: int)
      modifies this
      ensures Now() == Step(old(Now()), Value(Int(i)))
    {
      if state == InInterval && currentKey == "s" { currentInterval := currentInterval.(symbol := IntText(i)); }
    }

    method OnUint(u: nat)
      modifies this
      ensures Now() == Step(old(Now()), Value(Uint(u)))
    {
      if state == InInterval && currentKey == "s" { currentInterval := currentInterval.(symbol := Decimal.Print(u)); }
    }

    method OnStartObject()
      modifies this
      ensures Now() == Step(old(Now()), StartObject)
    {
      match state {
        case Root => if currentKey == "result" { state := InResult; }
        case InSymbolArray =>
          state := InInterval;
          currentInterval := NO_INTERVAL;
        case _ =>
      }
    }

    method OnEndObject()
      modifies this
      ensures Now() == Step(old(Now()), EndObject)
    {
      match state {
        case InInterval =>
          if currentInterval.startDate != "" && currentInterval.endDate != "" && currentInterval.symbol != "" {
            var list := Known(response.result, currentSymbol) + [currentInterval];
            response := response.(result := response.result[currentSymbol := list]);
            currentInterval := NO_INTERVAL;
          }
          state := InSymbolArray;
        case InResult => state := Root;
        case _ =>
      }
    }

    method OnStartArray()
      modifies this
      ensures Now() == Step(old(Now()), StartArray)
    {
      match state {
        case Root =>
          if currentKey == "partial" {
            state := InPartialArray;
          } else if currentKey == "not_found" {
            state := InNotFoundArray;
          }
        case InResult => state := InSymbolArray;
        case _ =>
      }
    }

    method OnEndArray()
      modifies this
      ensures Now() == Step(old(Now()), EndArray)
    {
      match state {
        case InSymbolArray => state := InResult;
        case InPartialArray => state := Root;
        case InNotFoundArray => state := Root;
        case _ =>
      }
    }

    /** The JSON parser's calls for a whole document. */
    method Run(events: seq<Event>)
      modifies this
      ensures Now() == Feed(old(Now()), events)
    {
      hide Step;
      ghost var start := Now();
      assert events[0..] == events;
      for i := 0 to |events|
        invariant Feed(Now(), events[i..]) == Feed(start, events)
      {
        assert events[i..][0] == events[i] && events[i..][1..] == events[i + 1..];
        Dispatch(events[i]);
      }
      assert events[|events|..] == [];
    }

    method Dispatch(e: Event)
      modifies this
      ensures Now() == Step(old(Now()), e)
    {
      match e
      case Key(key) => OnKey(key);
      case Value(Str(text)) => OnString(text);
      case Value(Int(i)) => OnInt(i);
      case Value(Uint(u)) => OnUint(u);
      case Value(_) =>
      case StartObject => OnStartObject();
      case EndObject => OnEndObject();
      case StartArray => OnStartArray();
      case EndArray => OnEndArray();
    }
  }

  // ---- Feeding a document ------------------------------------------------------------

  lemma {:induction false} FeedSplit(b: Builder, first: seq<Event>, more: seq<Event>)
    ensures Feed(b, first + more) == Feed(Feed(b, first), more)
    decreases |first|
  {
    hide Step;
    if first == [] {
      assert first + more == more;
    } else {
      assert (first + more)[0] == first[0] && (first + more)[1..] == first[1..] + more;
      FeedSplit(Step(b, first[0]), first[1..], more);
    }
  }

  lemma {:induction false} FeedTwo(b: Builder, e: Event, f: Event, rest: seq<Event>)
    ensures Feed(b, [e, f] + rest) == Feed(Step(Step(b, e), f), rest)
  {
    hide Step;
    assert ([e, f] + rest)[1..] == [f] + rest && ([f] + rest)[1..] == rest;
  }

  /** Opening events, a body, one closing event. */
  lemma {:induction false} FeedBody(b: Builder, e: Event, f: Event, body: seq<Event>, close: Event)
    ensures Feed(b, [e, f] + body + [close]) == Step(Feed(Step(Step(b, e), f), body), close)
  {
    hide Step;
    Assoc([e, f], body, [close]);
    FeedTwo(b, e, f, body + [close]);
    FeedSplit(Step(Step(b, e), f), body, [close]);
    assert [close][1..] == [];
  }

  function WithFields(v: Interval, fields: seq<Field>): Interval
    decreases |fields|
  {
    if fields == [] then v else WithFields(WithField(v, fields[0].key, fields[0].value), fields[1..])
  }

  lemma {:induction false} WithFieldsAppend(v: Interval, fields: seq<Field>, f: Field)
    ensures WithFields(v, fields + [f]) == WithField(WithFields(v, fields), f.key, f.value)
    decreases |fields|
  {
    hide WithField;
    if fields == [] {
      assert [f][1..] == [] && [] + [f] == [f];
    } else {
      assert (fields + [f])[0] == fields[0] && (fields + [f])[1..] == fields[1..] + [f];
      WithFieldsAppend(WithField(v, fields[0].key, fields[0].value), fields[1..], f);
    }
  }

  /** The members may come in any order: the last usable one of each key counts. */
  lemma {:induction false} FieldsMeanInterval(fields: seq<Field>)
    ensures WithFields(NO_INTERVAL, fields) == IntervalOf(fields)
  {
    if fields != [] {
      var front, f := fields[..|fields| - 1], fields[|fields| - 1];
      assert front + [f] == fields;
      FieldsMeanInterval(front);
      WithFieldsAppend(NO_INTERVAL, front, f);
    }
  }

  lemma {:induction false} FieldsFed(b: Builder, fields: seq<Field>)
    requires b.state == InInterval
    ensures var t := Feed(b, FieldEvents(fields)); t == b.(key := t.key, interval := WithFields(b.interval, fields))
    decreases |fields|
  {
    hide WithField;
    if fields != [] {
      var f := fields[0];
      FeedTwo(b, Key(f.key), Value(f.value), FieldEvents(fields[1..]));
      FieldsFed(Step(Step(b, Key(f.key)), Value(f.value)), fields[1..]);
    }
  }

  function Added(r: Response, symbol: string, list: seq<Interval>): Response {
    if list == [] then r else r.(result := r.result[symbol := Known(r.result, symbol) + list])
  }

  lemma {:induction false} AddedTwice(r: Response, symbol: string, a: seq<Interval>, b: seq<Interval>)
    ensures Added(Added(r, symbol, a), symbol, b) == Added(r, symbol, a + b)
  {
    Assoc(Known(r.result, symbol), a, b);
    if a == [] {
      assert a + b == b;
    } else if b == [] {
      assert a + b == a;
    } else {
      assert r.result[symbol := Known(r.result, symbol) + a][symbol := Known(r.result, symbol) + (a + b)]
          == r.result[symbol := Known(r.result, symbol) + (a + b)];
    }
  }

  /** One interval object: saved if complete. */
  lemma {:induction false} IntervalFed(b: Builder, fields: seq<Field>)
    requires b.state == InSymbolArray
    ensures var t := Feed(b, [StartObject] + FieldEvents(fields) + [EndObject]);
            && t.state == InSymbolArray && t.symbol == b.symbol
            && t.response == Added(b.response, b.symbol, KeptOf(fields))
  {
    hide IntervalOf, FieldEvents, WithFields;
    var start := b.(state := InInterval, interval := NO_INTERVAL);
    Assoc([StartObject], FieldEvents(fields), [EndObject]);
    FeedSplit(b, [StartObject], FieldEvents(fields) + [EndObject]);
    assert [StartObject][1..] == [] && [EndObject][1..] == [];
    FeedSplit(start, FieldEvents(fields), [EndObject]);
    FieldsFed(start, fields);
    FieldsMeanInterval(fields);
  }

  lemma {:induction false} ListFed(b: Builder, list: seq<seq<Field>>)
    requires b.state == InSymbolArray
    ensures var t := Feed(b, ListEvents(list));
            && t.state == InSymbolArray && t.symbol == b.symbol
            && t.response == Added(b.response, b.symbol, Completed(list))
    decreases |list|
  {
    hide Step, IntervalOf, FieldEvents, Added;
    if list == [] {
      assert Added(b.response, b.symbol, []) == b.response by { AddedNone(b.response, b.symbol); }
    } else {
      var oneObject := [StartObject] + FieldEvents(list[0]) + [EndObject];
      FeedSplit(b, oneObject, ListEvents(list[1..]));
      IntervalFed(b, list[0]);
      ListFed(Feed(b, oneObject), list[1..]);
      AddedTwice(b.response, b.symbol, KeptOf(list[0]), Completed(list[1..]));
    }
  }

  lemma {:induction false} AddedNone(r: Response, symbol: string)
    ensures Added(r, symbol, []) == r
  {
  }

  /** The response kept its lists, and has no symbol without an interval. */
  ghost predicate Grown(r: Response, t: Response) {
    t.partial == r.partial && t.notFound == r.notFound && (NoneEmpty(r) ==> NoneEmpty(t))
  }

  ghost predicate NoneEmpty(r: Response) { forall symbol :: symbol in r.result ==> r.result[symbol] != [] }

  lemma {:induction false} EntryFed(b: Builder, e: Entry)
    requires b.state == InResult
    ensures var t := Feed(b, EntryEvents(e));
            && t.state == InResult && Grown(b.response, t.response)
            && forall symbol :: Known(t.response.result, symbol) == Known(b.response.result, symbol)
                + OfEntries([e], symbol)
  {
    hide ListEvents, Completed;
    match e
    case Intervals(symbol, list) =>
      FeedBody(b, Key(symbol), StartArray, ListEvents(list), EndArray);
      ListFed(Step(Step(b, Key(symbol)), StartArray), list);
      forall other ensures OfEntries([e], other) == if other == symbol then Completed(list) else [] {
        OneEntry(e, other);
      }
      AddedKnown(b.response, symbol, Completed(list));
    case OtherEntry(symbol, value) =>
      assert [Key(symbol), Value(value)] + [] == EntryEvents(e);
      FeedTwo(b, Key(symbol), Value(value), []);
      forall other ensures OfEntries([e], other) == [] { OneEntry(e, other); }
  }

  lemma {:induction false} OneEntry(e: Entry, symbol: string)
    ensures OfEntries([e], symbol) == if e.Intervals? && e.symbol == symbol then Completed(e.list) else []
  {
    hide Completed;
    assert [e][1..] == [];
  }

  lemma {:induction false} AddedKnown(r: Response, symbol: string, list: seq<Interval>)
    ensures Grown(r, Added(r, symbol, list))
    ensures forall other :: Known(Added(r, symbol, list).result, other)
                         == Known(r.result, other) + (if other == symbol then list else [])
  {
  }

  lemma {:induction false} EntriesFed(b: Builder, entries: seq<Entry>)
    requires b.state == InResult
    ensures var t := Feed(b, EntriesEvents(entries));
            && t.state == InResult && Grown(b.response, t.response)
            && forall symbol :: Known(t.response.result, symbol) == Known(b.response.result, symbol)
                + OfEntries(entries, symbol)
    decreases |entries|
  {
    hide Step, EntryEvents, Completed, Known;
    if entries != [] {
      FeedSplit(b, EntryEvents(entries[0]), EntriesEvents(entries[1..]));
      EntryFed(b, entries[0]);
      var s := Feed(b, EntryEvents(entries[0]));
      EntriesFed(s, entries[1..]);
      var t := Feed(s, EntriesEvents(entries[1..]));
      forall symbol
        ensures Known(t.response.result, symbol) == Known(b.response.result, symbol) + OfEntries(entries, symbol)
      {
        OneEntry(entries[0], symbol);
        Assoc(Known(b.response.result, symbol), OfEntries([entries[0]], symbol), OfEntries(entries[1..], symbol));
      }
    }
  }

  lemma {:induction false} ItemsFed(b: Builder, items: seq<Scalar>)
    requires b.state in {InPartialArray, InNotFoundArray}
    ensures Feed(b, ItemEvents(items)) == b.(response :=
              if b.state == InPartialArray then b.response.(partial := b.response.partial + Strings(items))
              else b.response.(notFound := b.response.notFound + Strings(items)))
    decreases |items|
  {
    if items == [] {
      assert b.response.partial + [] == b.response.partial && b.response.notFound + [] == b.response.notFound;
    } else {
      var now := Step(b, Value(items[0]));
      assert ItemEvents(items)[0] == Value(items[0]) && ItemEvents(items)[1..] == ItemEvents(items[1..]);
      ItemsFed(now, items[1..]);
      var head := if items[0].Str? then [items[0].text] else [];
      Assoc(b.response.partial, head, Strings(items[1..]));
      Assoc(b.response.notFound, head, Strings(items[1..]));
      assert b.response.partial + [] == b.response.partial && b.response.notFound + [] == b.response.notFound;
    }
  }

  /** What a member adds. */
  ghost predicate Adds(r: Response, t: Response, doc: seq<Member>) {
    && (forall symbol :: Known(t.result, symbol) == Known(r.result, symbol) + OfDocument(doc, symbol))
    && t.partial == r.partial + AllPartial(doc) && t.notFound == r.notFound + AllNotFound(doc)
    && (NoneEmpty(r) ==> NoneEmpty(t))
  }

  lemma {:induction false} OneMember(m: Member, symbol: string)
    ensures OfDocument([m], symbol) == if m.Result? then OfEntries(m.entries, symbol) else []
    ensures AllPartial([m]) == if m.Partial? then Strings(m.items) else []
    ensures AllNotFound([m]) == if m.NotFound? then Strings(m.items) else []
  {
    hide OfEntries, Strings;
    assert [m][1..] == [];
  }

  lemma {:induction false} MemberFed(b: Builder, m: Member)
    requires b.state == Root
    ensures var t := Feed(b, MemberEvents(m)); t.state == Root && Adds(b.response, t.response, [m])
  {
    hide EntriesEvents, ItemEvents, OfEntries, Strings, OfDocument, AllPartial, AllNotFound, Known;
    forall symbol ensures OfDocument([m], symbol) == if m.Result? then OfEntries(m.entries, symbol) else [] {
      OneMember(m, symbol);
    }
    OneMember(m, "");
    match m
    case Result(entries) =>
      FeedBody(b, Key("result"), StartObject, EntriesEvents(entries), EndObject);
      EntriesFed(Step(Step(b, Key("result")), StartObject), entries);
    case Partial(items) =>
      FeedBody(b, Key("partial"), StartArray, ItemEvents(items), EndArray);
      ItemsFed(Step(Step(b, Key("partial")), StartArray), items);
    case NotFound(items) =>
      FeedBody(b, Key("not_found"), StartArray, ItemEvents(items), EndArray);
      ItemsFed(Step(Step(b, Key("not_found")), StartArray), items);
    case Extra(key, value) =>
      assert [Key(key), Value(value)] + [] == MemberEvents(m);
      FeedTwo(b, Key(key), Value(value), []);
  }

  lemma {:induction false} AddsTrans(r: Response, s: Response, t: Response, m: Member, rest: seq<Member>)
    requires Adds(r, s, [m]) && Adds(s, t, rest)
    ensures Adds(r, t, [m] + rest)
  {
    hide OfEntries, Strings, Known;
    var doc := [m] + rest;
    assert doc[0] == m && doc[1..] == rest;
    forall symbol ensures Known(t.result, symbol) == Known(r.result, symbol) + OfDocument(doc, symbol) {
      OneMember(m, symbol);
      Assoc(Known(r.result, symbol), OfDocument([m], symbol), OfDocument(rest, symbol));
    }
    OneMember(m, "");
    Assoc(r.partial, AllPartial([m]), AllPartial(rest));
    Assoc(r.notFound, AllNotFound([m]), AllNotFound(rest));
  }

  lemma {:induction false} MembersFed(b: Builder, doc: seq<Member>)
    requires b.state == Root
    ensures var t := Feed(b, MembersEvents(doc)); t.state == Root && Adds(b.response, t.response, doc)
    decreases |doc|
  {
    hide Step, MemberEvents;
    if doc != [] {
      hide Adds;
      FeedSplit(b, MemberEvents(doc[0]), MembersEvents(doc[1..]));
      MemberFed(b, doc[0]);
      var s := Feed(b, MemberEvents(doc[0]));
      MembersFed(s, doc[1..]);
      assert [doc[0]] + doc[1..] == doc;
      AddsTrans(b.response, s.response, Feed(s, MembersEvents(doc[1..])).response, doc[0], doc[1..]);
    } else {
      AddsNothing(b.response);
    }
  }

  lemma {:induction false} AddsNothing(r: Response)
    ensures Adds(r, r, [])
  {
  }

  /** For every document the builder ends at the root, with exactly what the document says. */
  lemma {:induction false} BuildsTheDocument(doc: seq<Member>)
    ensures var t := Feed(INITIAL, DocumentEvents(doc)); t.state == Root && Says(t.response, doc)
  {
    hide MembersEvents, OfDocument, AllPartial, AllNotFound;
    Assoc([StartObject], MembersEvents(doc), [EndObject]);
    FeedSplit(INITIAL, [StartObject], MembersEvents(doc) + [EndObject]);
    assert [StartObject][1..] == [] && [EndObject][1..] == [];
    FeedSplit(INITIAL, MembersEvents(doc), [EndObject]);
    MembersFed(INITIAL, doc);
    var t := Feed(INITIAL, MembersEvents(doc)).response;
    forall symbol ensures Known(t.result, symbol) == OfDocument(doc, symbol) {
      assert Known(EMPTY.result, symbol) == [] && [] + OfDocument(doc, symbol) == OfDocument(doc, symbol);
    }
  }

  // ---- Round trip --------------------------------------------------------------------

  /** The text of a number as it is usually written. */
  ghost predicate Denotes(text: string, i: int) {
    if i < 0 then text != "" && text[0] == '-' && Decimal.Canonical(text[1..]) && Decimal.Value(text[1..]) == -i
    else Decimal.Canonical(text) && Decimal.Value(text) == i
  }

  /** Ways to write a symbol in JSON: the string, or the number of which it is the text. */
  ghost predicate Renders(value: Scalar, symbol: string) {
    match value
    case Str(text) => text == symbol
    case Int(i) => Denotes(symbol, i)
    case Uint(u) => Denotes(symbol, u)
    case _ => false
  }

  /** A numeric symbol becomes the number's text. */
  lemma {:induction false} NumberText(i: int)
    ensures Denotes(IntText(i), i)
  {
    var n := if i < 0 then -i else i;
    Decimal.PrintCanonical(n);
    Decimal.PrintValue(n);
    if i < 0 { assert IntText(i)[1..] == Decimal.Print(n); }
  }

  lemma {:induction false} RenderedText(value: Scalar, symbol: string)
    requires Renders(value, symbol)
    ensures SymbolText(value) == Some(symbol)
  {
    match value
    case Str(_) =>
    case Int(i) =>
      if i < 0 {
        Decimal.CanonicalPrint(symbol[1..]);
        assert symbol == "-" + symbol[1..];
      } else {
        Decimal.CanonicalPrint(symbol);
      }
    case Uint(_) => Decimal.CanonicalPrint(symbol);
    case _ => assert false;
  }

  /** One symbol's intervals, as a response lists them. */
  datatype Listing = Listing(symbol: string, intervals: seq<Interval>)

  function FieldsOf(v: Interval, how: Interval -> Scalar): seq<Field> {
    [Field("d0", Str(v.startDate)), Field("d1", Str(v.endDate)), Field("s", how(v))]
  }

  function FieldLists(list: seq<Interval>, how: Interval -> Scalar): seq<seq<Field>> {
    if list == [] then [] else [FieldsOf(list[0], how)] + FieldLists(list[1..], how)
  }

  function EntriesOf(listings: seq<Listing>, how: Interval -> Scalar): seq<Entry> {
    if listings == [] then []
    else [Intervals(listings[0].symbol, FieldLists(listings[0].intervals, how))] + EntriesOf(listings[1..], how)
  }

  function Texts(list: seq<string>): seq<Scalar> { if list == [] then [] else [Str(list[0])] + Texts(list[1..]) }

  /** The JSON of a response. */
  function DocumentOf(listings: seq<Listing>, partial: seq<string>, notFound: seq<string>,
                      how: Interval -> Scalar): seq<Member> {
    [Result(EntriesOf(listings, how)), Partial(Texts(partial)), NotFound(Texts(notFound))]
  }

  function OnlyComplete(list: seq<Interval>): seq<Interval> {
    if list == [] then [] else (if Complete(list[0]) then [list[0]] else []) + OnlyComplete(list[1..])
  }

  lemma {:induction false} IntervalBack(v: Interval, how: Interval -> Scalar)
    requires Renders(how(v), v.symbol)
    ensures IntervalOf(FieldsOf(v, how)) == v
  {
    var f := FieldsOf(v, how);
    RenderedText(how(v), v.symbol);
    FieldsMeanInterval(f);
    hide IntervalOf;
    assert f[1..] == [f[1], f[2]] && f[1..][1..] == [f[2]] && f[1..][1..][1..] == [];
    assert WithFields(Interval(v.startDate, v.endDate, ""), f[1..][1..]) == v;
    assert WithFields(Interval(v.startDate, "", ""), f[1..]) == v;
  }

  lemma {:induction false} ListBack(list: seq<Interval>, how: Interval -> Scalar)
    requires forall v :: Renders(how(v), v.symbol)
    ensures Completed(FieldLists(list, how)) == OnlyComplete(list)
  {
    hide IntervalOf, FieldsOf;
    if list != [] {
      IntervalBack(list[0], how);
      ListBack(list[1..], how);
      assert ([FieldsOf(list[0], how)] + FieldLists(list[1..], how))[1..] == FieldLists(list[1..], how);
    }
  }

  lemma {:induction false} TextsBack(list: seq<string>)
    ensures Strings(Texts(list)) == list
  {
    if list != [] {
      TextsBack(list[1..]);
      assert ([Str(list[0])] + Texts(list[1..]))[1..] == Texts(list[1..]);
    }
  }

  ghost predicate Distinct(listings: seq<Listing>) {
    forall i, j :: 0 <= i < j < |listings| ==> listings[i].symbol != listings[j].symbol
  }

  lemma {:induction false} EntriesBack(listings: seq<Listing>, symbol: string, k: nat, how: Interval -> Scalar)
    requires forall v :: Renders(how(v), v.symbol)
    requires Distinct(listings) && k <= |listings|
    requires forall i :: 0 <= i < |listings| && i != k ==> listings[i].symbol != symbol
    requires k < |listings| ==> listings[k].symbol == symbol
    ensures OfEntries(EntriesOf(listings, how), symbol) ==
            if k < |listings| then OnlyComplete(listings[k].intervals) else []
  {
    hide FieldLists, Completed, OnlyComplete;
    if listings != [] {
      var first := Intervals(listings[0].symbol, FieldLists(listings[0].intervals, how));
      assert ([first] + EntriesOf(listings[1..], how))[1..] == EntriesOf(listings[1..], how);
      ListBack(listings[0].intervals, how);
      EntriesBack(listings[1..], symbol, if k == 0 then |listings| - 1 else k - 1, how);
      assert forall list: seq<Interval> :: list + [] == list && [] + list == list;
    }
  }

  /** Every response is rebuilt from its JSON, whichever way its symbols are written, without its
      incomplete intervals and without the symbols that have no other. */
  lemma {:induction false} RoundTrip(listings: seq<Listing>, partial: seq<string>, notFound: seq<string>,
                                     how: Interval -> Scalar)
    requires forall v :: Renders(how(v), v.symbol)
    requires Distinct(listings)
    ensures var t := Feed(INITIAL, DocumentEvents(DocumentOf(listings, partial, notFound, how)));
            && t.state == Root && t.response.partial == partial && t.response.notFound == notFound
            && (forall symbol :: symbol in t.response.result ==> t.response.result[symbol] != [])
            && (forall symbol :: symbol in t.response.result ==>
                  exists i :: 0 <= i < |listings| && listings[i].symbol == symbol)
            && (forall i :: 0 <= i < |listings| ==>
                  Known(t.response.result, listings[i].symbol) == OnlyComplete(listings[i].intervals))
  {
    hide OnlyComplete, EntriesOf, Feed, DocumentEvents, Texts, Strings, OfEntries;
    var doc := DocumentOf(listings, partial, notFound, how);
    BuildsTheDocument(doc);
    DocumentParts(listings, partial, notFound, how);
    var t := Feed(INITIAL, DocumentEvents(doc));
    forall i | 0 <= i < |listings|
      ensures Known(t.response.result, listings[i].symbol) == OnlyComplete(listings[i].intervals)
    {
      EntriesBack(listings, listings[i].symbol, i, how);
    }
    forall symbol | symbol in t.response.result
      ensures exists i :: 0 <= i < |listings| && listings[i].symbol == symbol
    {
      if forall i :: 0 <= i < |listings| ==> listings[i].symbol != symbol {
        EntriesBack(listings, symbol, |listings|, how);
      }
    }
  }

  lemma {:induction false} DocumentParts(listings: seq<Listing>, partial: seq<string>, notFound: seq<string>,
                                         how: Interval -> Scalar)
    ensures var doc := DocumentOf(listings, partial, notFound, how);
            && (forall symbol :: OfDocument(doc, symbol) == OfEntries(EntriesOf(listings, how), symbol))
            && AllPartial(doc) == partial && AllNotFound(doc) == notFound
  {
    hide EntriesOf, Texts, Strings, OfEntries;
    var doc := DocumentOf(listings, partial, notFound, how);
    TextsBack(partial);
    TextsBack(notFound);
    assert doc[1..] == [doc[1], doc[2]] && doc[1..][1..] == [doc[2]] && doc[1..][1..][1..] == [];
    forall symbol ensures OfDocument(doc, symbol) == OfEntries(EntriesOf(listings, how), symbol) {
      assert OfDocument(doc[1..][1..], symbol) == [];
      assert OfDocument(doc[1..], symbol) == [];
    }
    assert AllPartial(doc[1..][1..]) == [] && AllNotFound(doc[1..][1..]) == notFound + [];
  }

  // ---- Extra members that are objects or arrays --------------------------------------

  lemma {:induction false} WithFieldsSplit(v: Interval, a: seq<Field>, b: seq<Field>)
    ensures WithFields(v, a + b) == WithFields(WithFields(v, a), b)
    decreases |a|
  {
    hide WithField;
    if a == [] {
      assert a + b == b;
    } else {
      assert (a + b)[0] == a[0] && (a + b)[1..] == a[1..] + b;
      WithFieldsSplit(WithField(v, a[0].key, a[0].value), a[1..], b);
    }
  }

  /** What no interval takes: a member under another key, a date that is not a string, a symbol that
      is neither string nor integer. */
  predicate Useless(f: Field) {
    || f.key !in ["d0", "d1", "s"]
    || f.value.Double? || f.value.Bool? || f.value.Null?
    || (f.key != "s" && !f.value.Str?)
  }

  /** Wherever it stands, it changes nothing. */
  lemma {:induction false} UselessField(a: seq<Field>, f: Field, b: seq<Field>)
    requires Useless(f)
    ensures IntervalOf(a + [f] + b) == IntervalOf(a + b)
  {
    FieldsMeanInterval(a + [f] + b);
    FieldsMeanInterval(a + b);
    UselessTaken(WithFields(NO_INTERVAL, a), f);
    hide IntervalOf, WithField, Useless;
    WithFieldsSplit(NO_INTERVAL, a + [f], b);
    WithFieldsSplit(NO_INTERVAL, a, [f]);
    WithFieldsSplit(NO_INTERVAL, a, b);
    assert [f][1..] == [];
  }

  lemma {:induction false} UselessTaken(v: Interval, f: Field)
    requires Useless(f)
    ensures WithField(v, f.key, f.value) == v
  {
    assert ["d0", "d1", "s"][0] == "d0" && ["d0", "d1", "s"][1] == "d1" && ["d0", "d1", "s"][2] == "s";
  }

  /** The two lists take strings only. */
  lemma {:induction false} StringsOnly(a: seq<Scalar>, x: Scalar, b: seq<Scalar>)
    ensures Strings(a + [x] + b) == Strings(a) + (if x.Str? then [x.text] else []) + Strings(b)
    decreases |a|
  {
    var items := a + [x] + b;
    if a == [] {
      assert items[0] == x && items[1..] == b;
    } else {
      assert items[0] == a[0] && items[1..] == a[1..] + [x] + b;
      StringsOnly(a[1..], x, b);
    }
  }

  /** An object's opening events, or those of one of its members, and what follows. */
  lemma {:induction false} FieldsThen(b: Builder, fields: seq<Field>, e: Event, f: Event, more: seq<Event>)
    requires b.state == InInterval
    ensures var t := Feed(b, FieldEvents(fields));
            && t == b.(key := t.key, interval := WithFields(b.interval, fields))
            && Feed(b, FieldEvents(fields) + ([e, f] + more)) == Feed(Step(Step(t, e), f), more)
  {
    hide Step, WithFields, FieldEvents;
    FieldsFed(b, fields);
    FeedSplit(b, FieldEvents(fields), [e, f] + more);
    FeedTwo(Feed(b, FieldEvents(fields)), e, f, more);
  }

  /** After its opening event: members, an object as an extra one, more members, the end. */
  function WithObject(before: seq<Field>, key: string, inner: seq<Field>, after: seq<Field>): seq<Event> {
    FieldEvents(before) + ([Key(key), StartObject]
        + (FieldEvents(inner) + ([EndObject] + (FieldEvents(after) + [EndObject]))))
  }

  /** The same with an array of scalars. */
  function WithArray(before: seq<Field>, key: string, items: seq<Scalar>, after: seq<Field>): seq<Event> {
    FieldEvents(before) + ([Key(key), StartArray]
        + (ItemEvents(items) + ([EndArray] + (FieldEvents(after) + [EndObject]))))
  }

  /** An object among the members ends the interval at its own end: its members count, those
      that follow do not. So it is harmless exactly when that makes no difference. */
  lemma {:induction false} NestedObject(b: Builder, before: seq<Field>, key: string, inner: seq<Field>,
                                        after: seq<Field>)
    requires b.state == InInterval && b.interval == NO_INTERVAL
    ensures var t := Feed(b, WithObject(before, key, inner, after));
            && t.state == InSymbolArray && t.symbol == b.symbol
            && t.response == Added(b.response, b.symbol, KeptOf(before + inner))
            && (t.response == Added(b.response, b.symbol, KeptOf(before + after)) <==>
                KeptOf(before + inner) == KeptOf(before + after))
  {
    var last := [EndObject] + (FieldEvents(after) + [EndObject]);
    FieldsThen(b, before, Key(key), StartObject, FieldEvents(inner) + last);
    var u := Step(Step(Feed(b, FieldEvents(before)), Key(key)), StartObject);
    FieldsFed(u, inner);
    FeedSplit(u, FieldEvents(inner), last);
    WithFieldsSplit(NO_INTERVAL, before, inner);
    FieldsMeanInterval(before + inner);
    hide FieldEvents, WithFields, IntervalOf;
    var v := Feed(u, FieldEvents(inner));
    assert last[0] == EndObject && last[1..] == FieldEvents(after) + [EndObject];
    var w := Step(v, EndObject);
    IgnoredFields(w, after);
    FeedSplit(w, FieldEvents(after), [EndObject]);
    assert [EndObject][1..] == [];
    AddedDiffers(b.response, b.symbol, KeptOf(before + inner), KeptOf(before + after));
  }

  lemma {:induction false} AddedDiffers(r: Response, symbol: string, a: seq<Interval>, b: seq<Interval>)
    ensures Added(r, symbol, a) == Added(r, symbol, b) <==> a == b
  {
    AddedKnown(r, symbol, a);
    AddedKnown(r, symbol, b);
    var known := Known(r.result, symbol);
    if Added(r, symbol, a) == Added(r, symbol, b) {
      assert (known + a)[|known|..] == a && (known + b)[|known|..] == b;
    }
  }

  /** Fields of one key, one for each item. */
  function Spread(key: string, items: seq<Scalar>): seq<Field> {
    if items == [] then [] else [Field(key, items[0])] + Spread(key, items[1..])
  }

  lemma {:induction false} SpreadFed(b: Builder, items: seq<Scalar>)
    requires b.state == InInterval
    ensures Feed(b, ItemEvents(items)) == b.(interval := WithFields(b.interval, Spread(b.key, items)))
    decreases |items|
  {
    hide WithField;
    if items != [] {
      var now := Step(b, Value(items[0]));
      assert ItemEvents(items)[0] == Value(items[0]) && ItemEvents(items)[1..] == ItemEvents(items[1..]);
      SpreadFed(now, items[1..]);
      assert Spread(b.key, items)[0] == Field(b.key, items[0])
          && Spread(b.key, items)[1..] == Spread(b.key, items[1..]);
    }
  }

  /** An array of scalars among the members counts as that many members with its key. So under
      any key but the three it is harmless. */
  lemma {:induction false} NestedArray(b: Builder, before: seq<Field>, key: string, items: seq<Scalar>,
                                       after: seq<Field>)
    requires b.state == InInterval && b.interval == NO_INTERVAL
    ensures var t := Feed(b, WithArray(before, key, items, after));
            && t.state == InSymbolArray && t.symbol == b.symbol
            && t.response == Added(b.response, b.symbol, KeptOf(before + Spread(key, items) + after))
    ensures key !in ["d0", "d1", "s"] ==> KeptOf(before + Spread(key, items) + after) == KeptOf(before + after)
  {
    var spread := Spread(key, items);
    var last := [EndArray] + (FieldEvents(after) + [EndObject]);
    FieldsThen(b, before, Key(key), StartArray, ItemEvents(items) + last);
    var u := Step(Step(Feed(b, FieldEvents(before)), Key(key)), StartArray);
    SpreadFed(u, items);
    FeedSplit(u, ItemEvents(items), last);
    WithFieldsSplit(NO_INTERVAL, before, spread);
    WithFieldsSplit(NO_INTERVAL, before + spread, after);
    WithFieldsSplit(NO_INTERVAL, before, after);
    FieldsMeanInterval(before + spread + after);
    FieldsMeanInterval(before + after);
    if key !in ["d0", "d1", "s"] { SpreadHarmless(WithFields(NO_INTERVAL, before), key, items); }
    hide FieldEvents, WithFields, IntervalOf;
    var v := Feed(u, ItemEvents(items));
    assert last[0] == EndArray && last[1..] == FieldEvents(after) + [EndObject];
    FieldsFed(v, after);
    FeedSplit(v, FieldEvents(after), [EndObject]);
    assert [EndObject][1..] == [];
  }

  lemma {:induction false} SpreadHarmless(v: Interval, key: string, items: seq<Scalar>)
    requires key !in ["d0", "d1", "s"]
    ensures WithFields(v, Spread(key, items)) == v
    decreases |items|
  {
    if items != [] {
      assert ["d0", "d1", "s"][0] == "d0" && ["d0", "d1", "s"][1] == "d1" && ["d0", "d1", "s"][2] == "s";
      SpreadHarmless(v, key, items[1..]);
      assert Spread(key, items)[0] == Field(key, items[0]) && Spread(key, items)[1..] == Spread(key, items[1..]);
    }
  }

  /** No object opens under the key "result", and no array under "partial" or "not_found". */
  predicate Quiet(key: string, events: seq<Event>)
    decreases |events|
  {
    events == []
    || (match events[0]
        case Key(k) => Quiet(k, events[1..])
        case StartObject => key != "result" && Quiet(key, events[1..])
        case StartArray => key != "partial" && key != "not_found" && Quiet(key, events[1..])
        case _ => Quiet(key, events[1..]))
  }

  /** The builder is at the root before every one of the events, and after the last. */
  predicate StaysAtRoot(b: Builder, events: seq<Event>)
    decreases |events|
  {
    b.state == Root && (events == [] || StaysAtRoot(Step(b, events[0]), events[1..]))
  }

  /** Outside the three members the builder knows, any nesting leaves it at the root if and only
      if it is quiet, and then changes nothing but the current key. */
  lemma {:induction false} NestedAtRoot(b: Builder, events: seq<Event>)
    requires b.state == Root
    ensures StaysAtRoot(b, events) <==> Quiet(b.key, events)
    ensures Quiet(b.key, events) ==> var t := Feed(b, events); t == b.(key := t.key)
    decreases |events|
  {
    if events != [] {
      var next := Step(b, events[0]);
      if next.state == Root { NestedAtRoot(next, events[1..]); }
    }
  }

  /** For one: an object ahead of an interval's three fields loses the interval. */
  lemma {:induction false} NestedObjectLosesInterval(b: Builder, v: Interval, how: Interval -> Scalar)
    requires Renders(how(v), v.symbol)
    requires b.state == InInterval && b.interval == NO_INTERVAL && Complete(v)
    ensures Feed(b, WithObject([], "extra", [], FieldsOf(v, how))).response == b.response
    ensures KeptOf([] + FieldsOf(v, how)) == [v]
  {
    NestedObject(b, [], "extra", [], FieldsOf(v, how));
    IntervalBack(v, how);
    hide FieldsOf;
    assert [] + FieldsOf(v, how) == FieldsOf(v, how) && KeptOf([] + []) == [];
  }

  lemma {:induction false} IgnoredFields(b: Builder, fields: seq<Field>)
    requires b.state == InSymbolArray
    ensures var t := Feed(b, FieldEvents(fields)); t == b.(key := t.key)
    decreases |fields|
  {
    if fields != [] {
      FeedTwo(b, Key(fields[0].key), Value(fields[0].value), FieldEvents(fields[1..]));
      IgnoredFields(Step(Step(b, Key(fields[0].key)), Value(fields[0].value)), fields[1..]);
    }
  }
}
