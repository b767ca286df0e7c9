/** From transaction logs to events: the worker joins the log lines with spaces, splits the result on spaces,
    and takes every word that decodes to an event. */
module EventLogs {
  import opened MachineIntegers
  import opened Wrappers
  import opened Addresses
  import opened BackfillProgram
  import opened ByteFields
  import Base64

  // ----- Words

  /** `join(" ")`. */
  function JoinLines(lines: seq<string>): string {
    if lines == [] then ""
    else if |lines| == 1 then lines[0]
    else lines[0] + " " + JoinLines(lines[1..])
  }

  /** `split(' ')`: always at least one word, possibly empty ones. */
  function Split(s: string): (words: seq<string>)
    ensures words != []
  {
    if s == "" then [""] else Prepend(s[0], Split(s[1..]))
  }

  function WordsOf(lines: seq<string>): seq<string> {
    if lines == [] then [] else Split(lines[0]) + WordsOf(lines[1..])
  }

  /** A character joins the first word, or starts the words with an empty one. */
  function Prepend(c: char, words: seq<string>): seq<string>
    requires words != []
  {
    if c == ' ' then [""] + words else [[c] + words[0]] + words[1..]
  }

  lemma PrependToFirst(c: char, a: seq<string>, b: seq<string>)
    requires a != []
    ensures Prepend(c, a + b) == Prepend(c, a) + b
  {
  }

  lemma {:induction false} SplitAtSpace(a: string, b: string)
    ensures Split(a + " " + b) == Split(a) + Split(b)
  {
    var s := a + " " + b;
    if a == "" {
      assert s[1..] == b;
    } else {
      assert s[1..] == a[1..] + " " + b && s[0] == a[0];
      SplitAtSpace(a[1..], b);
      PrependToFirst(a[0], Split(a[1..]), Split(b));
    }
  }

  /** The words of the joined lines are the words of each line, in order. */
  lemma {:induction false} JoiningKeepsWords(lines: seq<string>)
    requires lines != []
    ensures Split(JoinLines(lines)) == WordsOf(lines)
  {
    if |lines| == 1 {
      assert WordsOf(lines[1..]) == [];
    } else {
      SplitAtSpace(lines[0], JoinLines(lines[1..]));
      JoiningKeepsWords(lines[1..]);
    }
  }

  lemma {:induction false} OneWord(s: string)
    requires ' ' !in s
    ensures Split(s) == [s]
  {
    if s != "" {
      assert s[0] in s && ' ' !in s[1..];
      OneWord(s[1..]);
      assert [s[0]] + s[1..] == s;
    }
  }

  /** Splitting is the inverse of joining: the words contain no space, and joined they are the text again. */
  lemma {:induction false} SplitMeaning(s: string)
    ensures JoinLines(Split(s)) == s
    ensures forall w :: w in Split(s) ==> ' ' !in w
  {
    if s != "" {
      SplitMeaning(s[1..]);
      var words := Split(s[1..]);
      assert [s[0]] + s[1..] == s;
      if s[0] == ' ' {
        assert ([""] + words)[1..] == words;
      } else {
        JoinFirst(s[0], words);
      }
    }
  }

  lemma JoinFirst(c: char, words: seq<string>)
    requires words != []
    ensures JoinLines([[c] + words[0]] + words[1..]) == [c] + JoinLines(words)
  {
    var more := [[c] + words[0]] + words[1..];
    assert more[1..] == words[1..];
  }

  // ----- Events

  /** The discriminators of the two events, which differ. */
  datatype Discriminators = Discriminators(requested: Bytes8, fulfilled: Bytes8)

  const REQUESTED_WIDTHS: seq<nat> := [8, 1, 32, 32, 8, 8]
  const FULFILLED_WIDTHS: seq<nat> := [8, 1, 32, 8, 8, 8, 8, 8, 4]

  function MarketTag(m: MarketType): byte {
    match m case Btc => 0 case Eth => 1 case Sol => 2
  }

  function MarketOfTag(b: byte): Option<MarketType> {
    if b == 0 then Some(Btc) else if b == 1 then Some(Eth) else if b == 2 then Some(Sol) else None
  }

  function EventFields(d: Discriminators, e: Event): seq<Bytes> {
    match e
    case Requested(r) =>
      [d.requested, [MarketTag(r.market)], r.oracle.bytes, r.order.bytes, I64Bytes(r.timestamp), U64Bytes(r.slot)]
    case Fulfilled(f) =>
      [d.fulfilled, [MarketTag(f.market)], f.order.bytes, I64Bytes(f.openTimestamp), U64Bytes(f.openSlot),
       I64Bytes(f.latencySeconds), U64Bytes(f.latencySlots), U64Bytes(f.price), U32Bytes(f.decimals)]
  }

  /** How the program logs an event. */
  function LogLine(d: Discriminators, e: Event): string {
    "Program" + " " + ("data:" + " " + Base64.Encode(Join(EventFields(d, e))))
  }

  function ReadRequested(data: Bytes): Option<Event> {
    match Cut(data, REQUESTED_WIDTHS)
    case None => None
    case Some((f, rest)) =>
      JoinCut(data, REQUESTED_WIDTHS);
      if rest != [] || MarketOfTag(f[1][0]).None? then None
      else Some(Requested(PriceRequested(MarketOfTag(f[1][0]).value, Pubkey(f[2]), Pubkey(f[3]), I64(f[4]), U64(f[5]))))
  }

  function ReadFulfilled(data: Bytes): Option<Event> {
    match Cut(data, FULFILLED_WIDTHS)
    case None => None
    case Some((f, rest)) =>
      JoinCut(data, FULFILLED_WIDTHS);
      if rest != [] || MarketOfTag(f[1][0]).None? then None
      else Some(Fulfilled(PriceFulfilled(MarketOfTag(f[1][0]).value, Pubkey(f[2]), I64(f[3]), U64(f[4]),
                                         I64(f[5]), U64(f[6]), U64(f[7]), U32(f[8]))))
  }

  /** The event that a word stands for, if any: base64, a discriminator, and then exactly the event. */
  function EventOf(d: Discriminators, word: string): Option<Event> {
    match Base64.Decode(word)
    case None => None
    case Some(data) =>
      if |data| < 8 then None
      else if data[..8] == d.requested then ReadRequested(data)
      else if data[..8] == d.fulfilled then ReadFulfilled(data)
      else None
  }

  lemma {:induction false} FirstField(d: Discriminators, e: Event)
    ensures |Join(EventFields(d, e))| >= 8
    ensures Join(EventFields(d, e))[..8] == if e.Requested? then d.requested else d.fulfilled
  {
  }

  lemma RequestedRoundTrip(d: Discriminators, r: PriceRequested)
    ensures ReadRequested(Join(EventFields(d, Requested(r)))) == Some(Requested(r))
  {
    var fields := EventFields(d, Requested(r));
    assert Join(fields) + [] == Join(fields);
    CutJoined(fields, REQUESTED_WIDTHS, []);
    NumbersRoundTrip(r.slot, r.timestamp, 0);
  }

  lemma FulfilledRoundTrip(d: Discriminators, f: PriceFulfilled)
    ensures ReadFulfilled(Join(EventFields(d, Fulfilled(f)))) == Some(Fulfilled(f))
  {
    var fields := EventFields(d, Fulfilled(f));
    assert Join(fields) + [] == Join(fields);
    CutJoined(fields, FULFILLED_WIDTHS, []);
    NumbersRoundTrip(f.openSlot, f.openTimestamp, f.decimals);
    NumbersRoundTrip(f.latencySlots, f.latencySeconds, 0);
    NumbersRoundTrip(f.price, 0, 0);
  }

  /** Every event is read back from the word that it is logged as. */
  lemma EventsRoundTrip(d: Discriminators, e: Event)
    requires d.requested != d.fulfilled
    ensures EventOf(d, Base64.Encode(Join(EventFields(d, e)))) == Some(e)
  {
    Base64.DecodeEncode(Join(EventFields(d, e)));
    FirstField(d, e);
    match e
    case Requested(r) => RequestedRoundTrip(d, r);
    case Fulfilled(f) => FulfilledRoundTrip(d, f);
  }

  lemma FieldsReadBack(f: seq<Bytes>, i: nat)
    requires i < |f|
    ensures |f[i]| == 8 ==> U64Bytes(U64(f[i])) == f[i] && I64Bytes(I64(f[i])) == f[i]
    ensures |f[i]| == 4 ==> U32Bytes(U32(f[i])) == f[i]
  {
    NumbersCanonical(f[i]);
  }

  lemma TagsReadBack(b: byte, m: MarketType)
    ensures MarketOfTag(b) == Some(m) <==> b == MarketTag(m)
    ensures MarketTag(m) == match m case Btc => 0 case Eth => 1 case Sol => 2
  {
  }

  lemma RequestedCanonical(d: Discriminators, data: Bytes)
    requires |data| >= 8 && data[..8] == d.requested && ReadRequested(data).Some?
    ensures Join(EventFields(d, ReadRequested(data).value)) == data
  {
    JoinCut(data, REQUESTED_WIDTHS);
    var (f, rest) := Cut(data, REQUESTED_WIDTHS).value;
    FieldsReadBack(f, 4);
    FieldsReadBack(f, 5);
    TagsReadBack(f[1][0], MarketOfTag(f[1][0]).value);
    assert f[0] == data[..8] && f[1] == [f[1][0]];
    assert EventFields(d, ReadRequested(data).value) == f;
    assert Join(f) + [] == Join(f);
  }

  lemma FulfilledCanonical(d: Discriminators, data: Bytes)
    requires |data| >= 8 && data[..8] == d.fulfilled && ReadFulfilled(data).Some?
    ensures Join(EventFields(d, ReadFulfilled(data).value)) == data
  {
    JoinCut(data, FULFILLED_WIDTHS);
    var (f, rest) := Cut(data, FULFILLED_WIDTHS).value;
    forall i | 3 <= i < 8 ensures U64Bytes(U64(f[i])) == f[i] && I64Bytes(I64(f[i])) == f[i] {
      FieldsReadBack(f, i);
    }
    FieldsReadBack(f, 8);
    TagsReadBack(f[1][0], MarketOfTag(f[1][0]).value);
    assert f[0] == data[..8] && f[1] == [f[1][0]];
    assert EventFields(d, ReadFulfilled(data).value) == f;
    assert Join(f) + [] == Join(f);
  }

  /** A word is taken for an event exactly when it is the word that the event is logged as. */
  lemma WordOfAnEvent(d: Discriminators, word: string, e: Event)
    requires d.requested != d.fulfilled
    ensures EventOf(d, word) == Some(e) <==> word == Base64.Encode(Join(EventFields(d, e)))
  {
    EventsRoundTrip(d, e);
    if EventOf(d, word) == Some(e) {
      var data := Base64.Decode(word).value;
      Base64.EncodeDecode(word);
      if data[..8] == d.requested {
        RequestedCanonical(d, data);
      } else {
        FulfilledCanonical(d, data);
      }
    }
  }

  lemma EventFieldAt(d: Discriminators, e: Event, widths: seq<nat>, i: nat, low: nat, high: nat)
    requires HaveWidths(EventFields(d, e), widths) && i < |widths|
    requires low == Offset(widths, i) && high == low + widths[i]
    ensures high <= |Join(EventFields(d, e))| && Join(EventFields(d, e))[low..high] == EventFields(d, e)[i]
  {
    FieldAt(EventFields(d, e), widths, i);
  }

  lemma RequestedOffsets()
    ensures Offset(REQUESTED_WIDTHS, 0) == 0 && Offset(REQUESTED_WIDTHS, 1) == 8 && Offset(REQUESTED_WIDTHS, 2) == 9
    ensures Offset(REQUESTED_WIDTHS, 3) == 41 && Offset(REQUESTED_WIDTHS, 4) == 73 && Offset(REQUESTED_WIDTHS, 5) == 81
    ensures Offset(REQUESTED_WIDTHS, 6) == 89
  {
  }

  /** Where the fields of a request stand in its 89 bytes. */
  lemma FieldsOfARequest(d: Discriminators, r: PriceRequested)
    ensures
      var data := Join(EventFields(d, Requested(r)));
      && |data| == 89
      && data[0..8] == d.requested && data[8..9] == [MarketTag(r.market)] && data[9..41] == r.oracle.bytes
      && data[41..73] == r.order.bytes && data[73..81] == I64Bytes(r.timestamp) && data[81..89] == U64Bytes(r.slot)
  {
    var e := Requested(r);
    assert HaveWidths(EventFields(d, e), REQUESTED_WIDTHS);
    RequestedOffsets();
    JoinedLength(EventFields(d, e), REQUESTED_WIDTHS);
    EventFieldAt(d, e, REQUESTED_WIDTHS, 0, 0, 8);
    EventFieldAt(d, e, REQUESTED_WIDTHS, 1, 8, 9);
    EventFieldAt(d, e, REQUESTED_WIDTHS, 2, 9, 41);
    EventFieldAt(d, e, REQUESTED_WIDTHS, 3, 41, 73);
    EventFieldAt(d, e, REQUESTED_WIDTHS, 4, 73, 81);
    EventFieldAt(d, e, REQUESTED_WIDTHS, 5, 81, 89);
  }

  lemma FulfilledOffsets()
    ensures Offset(FULFILLED_WIDTHS, 0) == 0 && Offset(FULFILLED_WIDTHS, 1) == 8 && Offset(FULFILLED_WIDTHS, 2) == 9
    ensures Offset(FULFILLED_WIDTHS, 3) == 41 && Offset(FULFILLED_WIDTHS, 4) == 49 && Offset(FULFILLED_WIDTHS, 5) == 57
    ensures Offset(FULFILLED_WIDTHS, 6) == 65 && Offset(FULFILLED_WIDTHS, 7) == 73 && Offset(FULFILLED_WIDTHS, 8) == 81
    ensures Offset(FULFILLED_WIDTHS, 9) == 85
  {
  }

  /** Where the fields of a fulfilment stand in its 85 bytes. */
  lemma FieldsOfAFulfilment(d: Discriminators, f: PriceFulfilled)
    ensures
      var data := Join(EventFields(d, Fulfilled(f)));
      && |data| == 85
      && data[0..8] == d.fulfilled && data[8..9] == [MarketTag(f.market)] && data[9..41] == f.order.bytes
      && data[41..49] == I64Bytes(f.openTimestamp) && data[49..57] == U64Bytes(f.openSlot)
      && data[57..65] == I64Bytes(f.latencySeconds) && data[65..73] == U64Bytes(f.latencySlots)
      && data[73..81] == U64Bytes(f.price) && data[81..85] == U32Bytes(f.decimals)
  {
    var e := Fulfilled(f);
    assert HaveWidths(EventFields(d, e), FULFILLED_WIDTHS);
    FulfilledOffsets();
    JoinedLength(EventFields(d, e), FULFILLED_WIDTHS);
    EventFieldAt(d, e, FULFILLED_WIDTHS, 0, 0, 8);
    EventFieldAt(d, e, FULFILLED_WIDTHS, 1, 8, 9);
    EventFieldAt(d, e, FULFILLED_WIDTHS, 2, 9, 41);
    EventFieldAt(d, e, FULFILLED_WIDTHS, 3, 41, 49);
    EventFieldAt(d, e, FULFILLED_WIDTHS, 4, 49, 57);
    EventFieldAt(d, e, FULFILLED_WIDTHS, 5, 57, 65);
    EventFieldAt(d, e, FULFILLED_WIDTHS, 6, 65, 73);
    EventFieldAt(d, e, FULFILLED_WIDTHS, 7, 73, 81);
    EventFieldAt(d, e, FULFILLED_WIDTHS, 8, 81, 85);
  }

  /** The events of some words, in order. */
  function EventsOf(d: Discriminators, words: seq<string>): seq<Event> {
    if words == [] then []
    else
      var e := EventOf(d, words[|words| - 1]);
      EventsOf(d, words[..|words| - 1]) + if e.Some? then [e.value] else []
  }

  lemma {:induction false} EventsConcat(d: Discriminators, a: seq<string>, b: seq<string>)
    ensures EventsOf(d, a + b) == EventsOf(d, a) + EventsOf(d, b)
  {
    if b == [] {
      assert a + b == a;
    } else {
      assert (a + b)[..|a + b| - 1] == a + b[..|b| - 1];
      EventsConcat(d, a, b[..|b| - 1]);
    }
  }

  /** The events of a line, in the order of its words. */
  function EventsOfLine(d: Discriminators, line: string): seq<Event> {
    EventsOf(d, Split(line))
  }

  function EventsOfLines(d: Discriminators, lines: seq<string>): seq<Event> {
    if lines == [] then [] else EventsOfLine(d, lines[0]) + EventsOfLines(d, lines[1..])
  }

  lemma {:induction false} WordsGiveLineEvents(d: Discriminators, lines: seq<string>)
    ensures EventsOf(d, WordsOf(lines)) == EventsOfLines(d, lines)
  {
    if lines != [] {
      EventsConcat(d, Split(lines[0]), WordsOf(lines[1..]));
      WordsGiveLineEvents(d, lines[1..]);
    }
  }

  /** From any log lines, the loop takes precisely the events of each line, once each and in log order. */
  lemma DispatchIsLineByLine(d: Discriminators, lines: seq<string>)
    ensures EventsOf(d, Split(JoinLines(lines))) == EventsOfLines(d, lines)
  {
    if lines == [] {
      assert Split("") == [""] && [""][..0] == [];
      assert EventsOf(d, [""]) == EventsOf(d, [""][..0]) + [];
    } else {
      JoiningKeepsWords(lines);
      WordsGiveLineEvents(d, lines);
    }
  }

  lemma {:induction false} LinesConcat(d: Discriminators, a: seq<string>, b: seq<string>)
    ensures EventsOfLines(d, a + b) == EventsOfLines(d, a) + EventsOfLines(d, b)
  {
    if a == [] {
      assert a + b == b;
    } else {
      assert (a + b)[0] == a[0] && (a + b)[1..] == a[1..] + b;
      LinesConcat(d, a[1..], b);
    }
  }

  lemma PrefixWordsAreNoEvents()
    ensures Base64.Decode("Program") == None && Base64.Decode("data:") == None
  {
    assert "Program"[4..] == "ram" && "data:"[4..] == ":";
  }

  /** A line that the program logs for an event yields exactly that event. */
  lemma LoggedLineYieldsItsEvent(d: Discriminators, e: Event)
    requires d.requested != d.fulfilled
    ensures EventsOfLine(d, LogLine(d, e)) == [e]
  {
    var word := Base64.Encode(Join(EventFields(d, e)));
    Base64.NoSpaces(Join(EventFields(d, e)));
    ThreeWords("Program", "data:", word);
    EventsConcat(d, ["Program"], ["data:"] + [word]);
    EventsConcat(d, ["data:"], [word]);
    PrefixWordsAreNoEvents();
    EventsRoundTrip(d, e);
    EventsOfWord(d, "Program");
    EventsOfWord(d, "data:");
    EventsOfWord(d, word);
  }

  lemma ThreeWords(a: string, b: string, c: string)
    requires ' ' !in a && ' ' !in b && ' ' !in c
    ensures Split(a + " " + (b + " " + c)) == [a] + ([b] + [c])
  {
    OneWord(a);
    OneWord(b);
    OneWord(c);
    SplitAtSpace(b, c);
    SplitAtSpace(a, b + " " + c);
  }

  lemma EventsOfWord(d: Discriminators, word: string)
    ensures EventsOf(d, [word]) == if EventOf(d, word).Some? then [EventOf(d, word).value] else []
  {
    assert [word][..0] == [];
    assert EventsOf(d, [word]) == EventsOf(d, [word][..0]) + if EventOf(d, word).Some? then [EventOf(d, word).value] else [];
  }

  // ----- The connection loop

  const MAX_RETRIES: nat := 3

  /** The outcome of a connection attempt: refused, or connected with the log lines of each notification
      until the stream ends. */
  datatype Connection = Refused | Connected(notifications: seq<seq<string>>)

  /** The failures at the end of a history of outcomes. */
  function TrailingFailures(outcomes: seq<Connection>): nat {
    if outcomes == [] || outcomes[|outcomes| - 1].Connected? then 0
    else 1 + TrailingFailures(outcomes[..|outcomes| - 1])
  }

  function Pow2(n: nat): nat {
    if n == 0 then 1 else 2 * Pow2(n - 1)
  }

  /** The k-th sleep of a failing streak, in milliseconds. */
  function Backoff(k: nat): nat
    requires k > 0
  {
    var wait := 500 * Pow2(k - 1);
    if wait < 5000 then wait else 5000
  }

  function Sleeps(outcomes: seq<Connection>): seq<nat> {
    if outcomes == [] then []
    else
      Sleeps(outcomes[..|outcomes| - 1])
      + if outcomes[|outcomes| - 1].Refused? then [Backoff(TrailingFailures(outcomes))] else []
  }

  function Flatten(notifications: seq<seq<string>>): seq<string> {
    if notifications == [] then [] else notifications[0] + Flatten(notifications[1..])
  }

  lemma {:induction false} FlattenAppend(a: seq<seq<string>>, b: seq<seq<string>>)
    ensures Flatten(a + b) == Flatten(a) + Flatten(b)
  {
    if a == [] {
      assert a + b == b;
    } else {
      assert (a + b)[0] == a[0] && (a + b)[1..] == a[1..] + b;
      FlattenAppend(a[1..], b);
    }
  }

  lemma FlattenOne(lines: seq<string>)
    ensures Flatten([lines]) == lines
  {
    assert [lines][1..] == [];
  }

  /** One more notification adds the events of its lines. */
  lemma OneMoreNotification(d: Discriminators, notifications: seq<seq<string>>, lines: seq<string>)
    ensures EventsOfLines(d, Flatten(notifications + [lines])) ==
            EventsOfLines(d, Flatten(notifications)) + EventsOfLines(d, lines)
  {
    FlattenAppend(notifications, [lines]);
    FlattenOne(lines);
    LinesConcat(d, Flatten(notifications), lines);
  }

  /** All lines that were received on any connection, in order. */
  function LinesReceived(outcomes: seq<Connection>): seq<string> {
    if outcomes == [] then []
    else
      (match outcomes[0] case Refused => [] case Connected(notifications) => Flatten(notifications))
      + LinesReceived(outcomes[1..])
  }

  lemma {:induction false} ReceivedAppend(a: seq<Connection>, b: seq<Connection>)
    ensures LinesReceived(a + b) == LinesReceived(a) + LinesReceived(b)
  {
    if a == [] {
      assert a + b == b;
    } else {
      assert (a + b)[0] == a[0] && (a + b)[1..] == a[1..] + b;
      ReceivedAppend(a[1..], b);
    }
  }

  lemma ReceivedOne(outcome: Connection)
    ensures LinesReceived([outcome]) ==
            match outcome case Refused => [] case Connected(notifications) => Flatten(notifications)
  {
    assert [outcome][1..] == [];
  }

  /** The counter is the length of the longest failing streak at the end. */
  lemma {:induction false} TrailingMeaning(outcomes: seq<Connection>)
    ensures
      var k := TrailingFailures(outcomes);
      && k <= |outcomes|
      && (forall i :: |outcomes| - k <= i < |outcomes| ==> outcomes[i].Refused?)
      && (k < |outcomes| ==> outcomes[|outcomes| - k - 1].Connected?)
  {
    if outcomes != [] && outcomes[|outcomes| - 1].Refused? {
      TrailingMeaning(outcomes[..|outcomes| - 1]);
    }
  }

  /** The loop over the words of one notification. */
  method Dispatch(d: Discriminators, lines: seq<string>) returns (events: seq<Event>)
    ensures events == EventsOfLines(d, lines)
  {
    var words := Split(JoinLines(lines));
    events := [];
    for i := 0 to |words|
      invariant events == EventsOf(d, words[..i])
    {
      assert words[..i + 1][..i] == words[..i];
      var decoded := Base64.Decode(words[i]);
      if decoded.None? { continue; }
      var data := decoded.value;
      if |data| < 8 { continue; }
      if data[..8] == d.requested {
        var e := ReadRequested(data);
        if e.Some? { events := events + [e.value]; }
      } else if data[..8] == d.fulfilled {
        var e := ReadFulfilled(data);
        if e.Some? { events := events + [e.value]; }
      }
    }
    assert words[..|words|] == words;
    DispatchIsLineByLine(d, lines);
  }

  /** The loop over a stream handles every line of every notification, in order. */
  method DrainStream(d: Discriminators, notifications: seq<seq<string>>) returns (events: seq<Event>)
    ensures events == EventsOfLines(d, Flatten(notifications))
  {
    events := [];
    for i := 0 to |notifications|
      invariant events == EventsOfLines(d, Flatten(notifications[..i]))
    {
      assert notifications[..i + 1] == notifications[..i] + [notifications[i]];
      OneMoreNotification(d, notifications[..i], notifications[i]);
      var more := Dispatch(d, notifications[i]);
      events := events + more;
    }
    assert notifications[..|notifications|] == notifications;
  }

  /** What one more outcome adds: a failure the sleep of its place in the streak, a connection its events. */
  lemma OneMoreOutcome(before: seq<Connection>, outcome: Connection)
    ensures
      var after, failed := before + [outcome], outcome.Refused?;
      && TrailingFailures(after) == (if failed then TrailingFailures(before) + 1 else 0)
      && Sleeps(after) == Sleeps(before) + (if failed then [Backoff(TrailingFailures(after))] else [])
  {
    assert (before + [outcome])[..|before|] == before;
  }

  lemma OneMoreConnection(d: Discriminators, before: seq<Connection>, outcome: Connection)
    ensures EventsOfLines(d, LinesReceived(before + [outcome])) ==
            EventsOfLines(d, LinesReceived(before))
            + match outcome case Refused => [] case Connected(n) => EventsOfLines(d, Flatten(n))
  {
    ReceivedAppend(before, [outcome]);
    ReceivedOne(outcome);
    LinesConcat(d, LinesReceived(before), LinesReceived([outcome]));
  }

  /** The history never reached the limit of failures in a row before its last outcome. */
  ghost predicate NotStoppedBefore(history: seq<Connection>) {
    forall n :: 0 <= n < |history| ==> TrailingFailures(history[..n]) < 3
  }

  lemma StillRunning(before: seq<Connection>, outcome: Connection)
    requires NotStoppedBefore(before) && TrailingFailures(before) < MAX_RETRIES
    ensures NotStoppedBefore(before + [outcome])
  {
    var after := before + [outcome];
    forall n | 0 <= n < |after| ensures TrailingFailures(after[..n]) < MAX_RETRIES {
      if n < |before| {
        assert after[..n] == before[..n];
      } else {
        assert after[..n] == before;
      }
    }
  }

  /** Doubling with the cap is the capped power of two. */
  lemma BackoffDoubles(k: nat)
    requires k > 0
    ensures Backoff(k + 1) == if Backoff(k) * 2 < 5000 then Backoff(k) * 2 else 5000
    ensures Backoff(1) == 500 && Backoff(k) <= 5000
  {
  }

  /** The reconnecting loop, over any sequence of connection outcomes. It stops exactly at the first third
      failure in a row, having slept for every failure of the history and handled every event of it. */
  method WatchAnchorEvents(d: Discriminators, outcomes: seq<Connection>)
    returns (stopped: bool, used: nat, retryCount: nat, sleeps: seq<nat>, events: seq<Event>)
    ensures used <= |outcomes| && NotStoppedBefore(outcomes[..used])
    ensures stopped ==> TrailingFailures(outcomes[..used]) == 3
    ensures !stopped ==> used == |outcomes| && TrailingFailures(outcomes) < 3
    ensures retryCount == TrailingFailures(outcomes[..used])
    ensures sleeps == Sleeps(outcomes[..used])
    ensures events == EventsOfLines(d, LinesReceived(outcomes[..used]))
  {
    retryCount, used, sleeps, events := 0, 0, [], [];
    var delay := 500;
    ghost var history: seq<Connection> := [];
    stopped := false;
    while used < |outcomes|
      invariant used <= |outcomes| && history == outcomes[..used]
      invariant NotStoppedBefore(history)
      invariant retryCount == TrailingFailures(history) < MAX_RETRIES
      invariant !stopped
      invariant delay == Backoff(retryCount + 1)
      invariant sleeps == Sleeps(history)
      invariant events == EventsOfLines(d, LinesReceived(history))
    {
      var connection := outcomes[used];
      ghost var after := history + [connection];
      assert after == outcomes[..used + 1];
      OneMoreOutcome(history, connection);
      OneMoreConnection(d, history, connection);
      StillRunning(history, connection);
      BackoffDoubles(retryCount + 1);
      match connection {
        case Connected(notifications) =>
          retryCount := 0;
          delay := 500;
          var more := DrainStream(d, notifications);
          events := events + more;
        case Refused =>
          if retryCount >= MAX_RETRIES {
            assert false;
          }
          sleeps := sleeps + [delay];
          retryCount := retryCount + 1;
          delay := if delay * 2 < 5000 then delay * 2 else 5000;
      }
      used := used + 1;
      history := after;
      if retryCount >= MAX_RETRIES {
        stopped := true;
        break;
      }
    }
    assert !stopped ==> outcomes[..used] == outcomes;
  }

  /** Before the loop stops a failing streak has at most two failures, so the five-second cap is never
      reached: a sleep lasts half a second, one second or two. */
  lemma {:induction false} CapIsNeverReached(outcomes: seq<Connection>)
    requires forall n :: 0 <= n <= |outcomes| ==> TrailingFailures(outcomes[..n]) <= MAX_RETRIES
    ensures forall t :: t in Sleeps(outcomes) ==> t in {500, 1000, 2000}
  {
    if outcomes != [] {
      var init := outcomes[..|outcomes| - 1];
      assert forall n :: 0 <= n <= |init| ==> init[..n] == outcomes[..n];
      CapIsNeverReached(init);
      assert outcomes[..|outcomes|] == outcomes;
      assert Pow2(0) == 1 && Pow2(1) == 2 && Pow2(2) == 4;
    }
  }
}
