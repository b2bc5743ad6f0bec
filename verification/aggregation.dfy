/** The single pass of `compute_stats` over the time-sorted messages: the
    per-conversation aggregates (kept in first-appearance order), the
    response-time pairing, the per-day counter, the emoji counter over the
    stripped text, and the overall sent/received tallies.

    Times are whole seconds; a message's calendar day is its time divided by
    the number of seconds in a day. */
module Aggregation {
  import opened Seqs
  import opened Text

  const SECONDS_PER_DAY: int := 86400

  /** A reply counts as a response only when it comes at most 48 hours after
      the message it answers. */
  const RESPONSE_WINDOW: int := 48 * 3600

  /** One message as the statistics engine sees it; a missing text is the
      empty string. */
  datatype Message = Message(fromMe: bool, time: int, convKey: string, convName: string, text: string)

  function Day(t: int): int {
    t / SECONDS_PER_DAY
  }

  function TimeOf(m: Message): int {
    m.time
  }

  /** The running aggregate of one conversation. `lastReceived` and
      `lastSent` are the pairing registers: the time of the last message not
      yet answered in each direction. */
  datatype ConvEntry = ConvEntry(
    name: string,
    sent: nat,
    received: nat,
    total: nat,
    messages: nat,
    daysActive: set<int>,
    textWords: nat,
    textMessages: nat,
    lastReceived: Option<int>,
    lastSent: Option<int>,
    yourResponseTimes: seq<int>,
    theirResponseTimes: seq<int>)

  function NewEntry(name: string): ConvEntry {
    ConvEntry(name, 0, 0, 0, 0, {}, 0, 0, None, None, [], [])
  }

  /** The direction-dependent part of recording a message: a message of mine
      answers the last unanswered received message (a response time within
      the window is kept; the register is cleared either way) and becomes
      the last sent message; a received message does the same the other way
      round. */
  function Respond(e: ConvEntry, m: Message): ConvEntry {
    if m.fromMe then
      var your :=
        if e.lastReceived.Some? && m.time - e.lastReceived.value <= RESPONSE_WINDOW
        then e.yourResponseTimes + [m.time - e.lastReceived.value]
        else e.yourResponseTimes;
      e.(sent := e.sent + 1, yourResponseTimes := your, lastReceived := None, lastSent := Some(m.time))
    else
      var their :=
        if e.lastSent.Some? && m.time - e.lastSent.value <= RESPONSE_WINDOW
        then e.theirResponseTimes + [m.time - e.lastSent.value]
        else e.theirResponseTimes;
      e.(received := e.received + 1, theirResponseTimes := their, lastSent := None, lastReceived := Some(m.time))
  }

  /** Counts one message sent on `day`, whatever its content. */
  function CountMessage(e: ConvEntry, day: int): ConvEntry {
    e.(total := e.total + 1, messages := e.messages + 1, daysActive := e.daysActive + {day})
  }

  /** Counts the words of a stripped text; only a non-empty text counts as a
      text message. */
  function CountText(e: ConvEntry, text: string): ConvEntry {
    if text != [] then e.(textWords := e.textWords + WordCount(text), textMessages := e.textMessages + 1)
    else e
  }

  /** Adds one message to its conversation's aggregate. */
  function Record(e: ConvEntry, m: Message): ConvEntry {
    CountText(CountMessage(Respond(e, m), Day(m.time)), Strip(m.text))
  }

  /** Counts every emoji character of s, left to right (the matches of the
      single-character emoji pattern). */
  function CountEmoji(c: Counter<char>, s: string): Counter<char> {
    if s == [] then c
    else
      var r := CountEmoji(c, s[..|s| - 1]);
      if IsEmoji(s[|s| - 1]) then r.Add(s[|s| - 1]) else r
  }

  /** Each emoji character is counted as often as it occurs, and nothing else is counted. */
  lemma {:induction false} CountEmojiCounts(c: Counter<char>, s: string)
    ensures c.Valid() ==> CountEmoji(c, s).Valid()
    ensures forall x :: CountEmoji(c, s).Get(x) == c.Get(x) + (if IsEmoji(x) then multiset(s)[x] else 0)
    decreases |s|
  {
    if s != [] {
      var front, last := s[..|s| - 1], s[|s| - 1];
      assert s == front + [last];
      CountEmojiCounts(c, front);
    }
  }

  /** Everything the pass has gathered so far. */
  datatype Tally = Tally(
    convOrder: seq<string>,
    conv: map<string, ConvEntry>,
    days: Counter<int>,
    emoji: Counter<char>,
    sent: nat,
    received: nat,
    allDates: seq<int>)

  const EmptyTally: Tally := Tally([], map[], EmptyCounter(), EmptyCounter(), 0, 0, [])

  /** The loop body of the pass, for one message. */
  function Step(t: Tally, m: Message): Tally {
    var day := Day(m.time);
    var known := m.convKey in t.conv;
    var entry := if known then t.conv[m.convKey] else NewEntry(m.convName);
    var text := Strip(m.text);
    Tally(
      if known then t.convOrder else t.convOrder + [m.convKey],
      t.conv[m.convKey := Record(entry, m)],
      t.days.Add(day),
      if text != [] then CountEmoji(t.emoji, text) else t.emoji,
      t.sent + (if m.fromMe then 1 else 0),
      t.received + (if m.fromMe then 0 else 1),
      t.allDates + [day])
  }

  /** The pass over a list of messages, in order. */
  function Accumulate(ms: seq<Message>): Tally {
    if ms == [] then EmptyTally else Step(Accumulate(ms[..|ms| - 1]), ms[|ms| - 1])
  }

  /** The in-place update of one conversation's entry for one message. */
  method UpdateEntry(e: ConvEntry, msg: Message) returns (entry: ConvEntry)
    ensures entry == Record(e, msg)
  {
    entry := e;
    var day := Day(msg.time);
    if msg.fromMe {
      entry := entry.(sent := entry.sent + 1);
      if entry.lastReceived.Some? {
        var diff := msg.time - entry.lastReceived.value;
        if diff <= RESPONSE_WINDOW {
          entry := entry.(yourResponseTimes := entry.yourResponseTimes + [diff]);
        }
        entry := entry.(lastReceived := None);
      }
      entry := entry.(lastSent := Some(msg.time));
    } else {
      entry := entry.(received := entry.received + 1);
      if entry.lastSent.Some? {
        var diff := msg.time - entry.lastSent.value;
        if diff <= RESPONSE_WINDOW {
          entry := entry.(theirResponseTimes := entry.theirResponseTimes + [diff]);
        }
        entry := entry.(lastSent := None);
      }
      entry := entry.(lastReceived := Some(msg.time));
    }
    assert entry == Respond(e, msg);
    entry := entry.(total := entry.total + 1, messages := entry.messages + 1,
                    daysActive := entry.daysActive + {day});
    assert entry == CountMessage(Respond(e, msg), day);
    var text := Strip(msg.text);
    if text != [] {
      var wordCount := WordCount(text);
      entry := entry.(textWords := entry.textWords + wordCount,
                      textMessages := entry.textMessages + 1);
    }
  }

  /** The inner loop over the emoji found in a stripped text. */
  method CountEmojiIn(c: Counter<char>, text: string) returns (emoji: Counter<char>)
    ensures emoji == CountEmoji(c, text)
  {
    emoji := c;
    for j := 0 to |text|
      invariant emoji == CountEmoji(c, text[..j])
    {
      assert text[..j + 1][..j] == text[..j];
      if IsEmoji(text[j]) {
        emoji := emoji.Add(text[j]);
      }
    }
    assert text[..|text|] == text;
  }

  /** Looks up a conversation's entry, creating it on the conversation's
      first message (which also fixes its name and its place in the order). */
  method EntryFor(convOrder: seq<string>, conv: map<string, ConvEntry>, msg: Message)
    returns (convOrder': seq<string>, entry: ConvEntry)
    ensures convOrder' == if msg.convKey in conv then convOrder else convOrder + [msg.convKey]
    ensures entry == if msg.convKey in conv then conv[msg.convKey] else NewEntry(msg.convName)
  {
    convOrder' := convOrder;
    var current := conv;
    if msg.convKey !in current {
      current := current[msg.convKey := NewEntry(msg.convName)];
      convOrder' := convOrder' + [msg.convKey];
    }
    entry := current[msg.convKey];
  }

  /** The body of the pass for one message: the day's count, the
      conversation's entry, the overall tallies and, for a message with text,
      the emoji counter. */
  method Absorb(t: Tally, msg: Message) returns (t': Tally)
    ensures t' == Step(t, msg)
  {
    var day := Day(msg.time);
    var convOrder, entry := EntryFor(t.convOrder, t.conv, msg);
    entry := UpdateEntry(entry, msg);
    var sent := t.sent + (if msg.fromMe then 1 else 0);
    var received := t.received + (if msg.fromMe then 0 else 1);
    var emoji := t.emoji;
    var text := Strip(msg.text);
    if text != [] {
      emoji := CountEmojiIn(emoji, text);
    }
    t' := Tally(convOrder, t.conv[msg.convKey := entry], t.days.Add(day), emoji, sent, received, t.allDates + [day]);
  }

  /** The pass as the source runs it: one loop over the sorted messages. */
  method Scan(ms: seq<Message>) returns (t: Tally)
    ensures t == Accumulate(ms)
  {
    t := EmptyTally;
    for i := 0 to |ms|
      invariant t == Accumulate(ms[..i])
    {
      assert ms[..i + 1][..i] == ms[..i];
      t := Absorb(t, ms[i]);
    }
    assert ms[..|ms|] == ms;
  }

  // ---------------------------------------------------------------------------
  // What the pass computes, stated over the messages

  function SentMessage(m: Message): nat { if m.fromMe then 1 else 0 }
  function ReceivedMessage(m: Message): nat { if m.fromMe then 0 else 1 }

  /** Every message is either sent or received: the two counts add up to the
      number of messages. */
  lemma {:induction false} DirectionsAddUp(ms: seq<Message>)
    ensures Sum(ms, SentMessage) + Sum(ms, ReceivedMessage) == |ms|
    decreases |ms|
  {
    if ms != [] {
      DirectionsAddUp(ms[..|ms| - 1]);
    }
  }

  /** One for each message of conversation k. */
  function InConv(k: string): Message -> nat {
    (m: Message) => if m.convKey == k then 1 else 0
  }

  function SentIn(k: string): Message -> nat {
    (m: Message) => if m.convKey == k && m.fromMe then 1 else 0
  }

  function ReceivedIn(k: string): Message -> nat {
    (m: Message) => if m.convKey == k && !m.fromMe then 1 else 0
  }

  /** One for each message of conversation k whose text is not blank. */
  function TextIn(k: string): Message -> nat {
    (m: Message) => if m.convKey == k && !AllSpace(m.text) then 1 else 0
  }

  /** The words of each message of conversation k. */
  function WordsIn(k: string): Message -> nat {
    (m: Message) => if m.convKey == k then WordCount(m.text) else 0
  }

  /** One for each message sent on day d. */
  function OnDay(d: int): Message -> nat {
    (m: Message) => if Day(m.time) == d then 1 else 0
  }

  /** How often emoji c occurs in a message's text. */
  function EmojiIn(c: char): Message -> nat {
    (m: Message) => if IsEmoji(c) then multiset(m.text)[c] else 0
  }

  /** The conversations the messages belong to. */
  function Keys(ms: seq<Message>): set<string> {
    set m | m in ms :: m.convKey
  }

  /** The days on which conversation k has messages. */
  function DaysOf(ms: seq<Message>, k: string): set<int> {
    set m | m in ms && m.convKey == k :: Day(m.time)
  }

  /** The name carried by the first message of conversation k. */
  function FirstName(ms: seq<Message>, k: string): Option<string> {
    if ms == [] then None
    else
      var f := FirstName(ms[..|ms| - 1], k);
      if f.Some? then f
      else if ms[|ms| - 1].convKey == k then Some(ms[|ms| - 1].convName)
      else None
  }

  lemma {:induction false} SumZero<T>(s: seq<T>, f: T -> nat)
    requires forall x :: x in s ==> f(x) == 0
    ensures Sum(s, f) == 0
    decreases |s|
  {
    if s != [] {
      SumZero(s[..|s| - 1], f);
    }
  }

  /** The conversation table lists each of its conversations once, in the
      order of their first messages. */
  lemma {:induction false} ConvOrder(ms: seq<Message>)
    ensures var t := Accumulate(ms);
      && NoDuplicates(t.convOrder)
      && (forall k :: k in t.conv <==> k in t.convOrder)
    decreases |ms|
  {
    if ms != [] {
      ConvOrder(ms[..|ms| - 1]);
    }
  }

  /** The position of the first message of conversation k in ms; |ms| when
      the conversation has none. */
  function FirstAt(ms: seq<Message>, k: string): (p: nat)
    ensures p <= |ms|
  {
    if ms == [] then 0
    else
      var f := FirstAt(ms[..|ms| - 1], k);
      if f < |ms| - 1 then f else if ms[|ms| - 1].convKey == k then |ms| - 1 else |ms|
  }

  /** `FirstAt` is the position of the first message of conversation k, and
      |ms| exactly when no message belongs to k. */
  lemma {:induction false} FirstAtSpec(ms: seq<Message>, k: string)
    ensures var p := FirstAt(ms, k);
      && (p < |ms| ==> ms[p].convKey == k && forall i :: 0 <= i < p ==> ms[i].convKey != k)
      && (p == |ms| <==> forall i :: 0 <= i < |ms| ==> ms[i].convKey != k)
    decreases |ms|
  {
    if ms != [] {
      var front := ms[..|ms| - 1];
      FirstAtSpec(front, k);
      if FirstAt(ms, k) == |ms| {
        forall i | 0 <= i < |ms| ensures ms[i].convKey != k {
          if i < |front| { assert ms[i] == front[i]; }
        }
      }
    }
  }

  /** The first positions of the conversations of o, in the order of o. */
  ghost function Firsts(ms: seq<Message>, o: seq<string>): (ps: seq<int>)
    ensures |ps| == |o|
    decreases |o|
  {
    if o == [] then [] else Firsts(ms, o[..|o| - 1]) + [FirstAt(ms, o[|o| - 1])]
  }

  lemma {:induction false} FirstsAt(ms: seq<Message>, o: seq<string>, i: nat)
    requires i < |o|
    ensures Firsts(ms, o)[i] == FirstAt(ms, o[i])
    decreases |o|
  {
    if i < |o| - 1 {
      FirstsAt(ms, o[..|o| - 1], i);
    }
  }

  /** The conversation table lists its conversations in the order of their
      first messages (dict insertion order), and every listed conversation
      has a message. */
  lemma {:induction false} ConvOrderFirstSeen(ms: seq<Message>)
    ensures var ps := Firsts(ms, Accumulate(ms).convOrder);
      Increasing(ps) && forall i :: 0 <= i < |ps| ==> ps[i] < |ms|
    decreases |ms|
  {
    if ms != [] {
      var front, m := ms[..|ms| - 1], ms[|ms| - 1];
      ConvOrderFirstSeen(front);
      var o := Accumulate(front).convOrder;
      var ps := Firsts(front, o);
      OrderSnoc(ms);
      if m.convKey !in o {
        ConvOrder(front);
        NoEntryNoMessage(front, m.convKey);
      }
      FirstSeenStep(ms, o, ps, Accumulate(ms).convOrder);
    }
  }

  /** One more message keeps the first positions of the table order
      increasing and inside the messages. */
  lemma FirstSeenStep(ms: seq<Message>, o: seq<string>, ps: seq<int>, o': seq<string>)
    requires ms != [] && ps == Firsts(ms[..|ms| - 1], o)
    requires Increasing(ps) && forall i :: 0 <= i < |ps| ==> ps[i] < |ms| - 1
    requires ms[|ms| - 1].convKey !in o ==> forall x :: x in ms[..|ms| - 1] ==> x.convKey != ms[|ms| - 1].convKey
    requires o' == if ms[|ms| - 1].convKey in o then o else o + [ms[|ms| - 1].convKey]
    ensures Increasing(Firsts(ms, o')) && forall i :: 0 <= i < |o'| ==> Firsts(ms, o')[i] < |ms|
  {
    FirstsKeep(ms, o, ps);
    if o' != o {
      FirstOfNew(ms);
      assert Firsts(ms, o') == ps + [|ms| - 1];
      IncreasingSnoc(ps, |ms| - 1);
    }
  }

  /** Positions strictly below a new largest one stay increasing. */
  lemma IncreasingSnoc(ps: seq<int>, x: int)
    requires Increasing(ps) && forall i :: 0 <= i < |ps| ==> ps[i] < x
    ensures Increasing(ps + [x])
  {
  }

  /** A conversation enters the table order with its first message. */
  lemma OrderSnoc(ms: seq<Message>)
    requires ms != []
    ensures var o := Accumulate(ms[..|ms| - 1]).convOrder;
      var k := ms[|ms| - 1].convKey;
      Accumulate(ms).convOrder == if k in o then o else o + [k]
  {
    ConvOrder(ms[..|ms| - 1]);
  }

  /** Conversations seen before the last message keep their first positions. */
  lemma {:induction false} FirstsKeep(ms: seq<Message>, o: seq<string>, ps: seq<int>)
    requires ms != [] && ps == Firsts(ms[..|ms| - 1], o)
    requires forall i :: 0 <= i < |ps| ==> ps[i] < |ms| - 1
    ensures Firsts(ms, o) == ps
    decreases |o|
  {
    if o != [] {
      assert ps[..|o| - 1] == Firsts(ms[..|ms| - 1], o[..|o| - 1]);
      FirstsKeep(ms, o[..|o| - 1], ps[..|o| - 1]);
      assert ps[|o| - 1] == FirstAt(ms[..|ms| - 1], o[|o| - 1]);
      FirstAtKeep(ms, o[|o| - 1]);
    }
  }

  /** A conversation already seen before the last message keeps its first
      position. */
  lemma FirstAtKeep(ms: seq<Message>, k: string)
    requires ms != [] && FirstAt(ms[..|ms| - 1], k) < |ms| - 1
    ensures FirstAt(ms, k) == FirstAt(ms[..|ms| - 1], k)
  {
  }

  /** The last message opens its conversation when no earlier one has it. */
  lemma FirstOfNew(ms: seq<Message>)
    requires ms != []
    requires forall x :: x in ms[..|ms| - 1] ==> x.convKey != ms[|ms| - 1].convKey
    ensures FirstAt(ms, ms[|ms| - 1].convKey) == |ms| - 1
  {
    var front, k := ms[..|ms| - 1], ms[|ms| - 1].convKey;
    forall i | 0 <= i < |front| ensures front[i].convKey != k {
      assert front[i] in front;
    }
    FirstAtSpec(front, k);
  }

  lemma KeysSnoc(ms: seq<Message>)
    requires ms != []
    ensures Keys(ms) == Keys(ms[..|ms| - 1]) + {ms[|ms| - 1].convKey}
  {
    assert ms == ms[..|ms| - 1] + [ms[|ms| - 1]];
  }

  /** The table has an entry exactly for the conversations that have a message. */
  lemma {:induction false} ConvKeys(ms: seq<Message>)
    ensures forall k :: k in Accumulate(ms).conv <==> k in Keys(ms)
    decreases |ms|
  {
    if ms != [] {
      ConvKeys(ms[..|ms| - 1]);
      KeysSnoc(ms);
    }
  }

  /** Every message is counted once as sent or received. */
  lemma {:induction false} Totals(ms: seq<Message>)
    ensures var t := Accumulate(ms);
      && t.sent == Sum(ms, SentMessage)
      && t.received == Sum(ms, ReceivedMessage)
      && t.sent + t.received == |ms|
    decreases |ms|
  {
    if ms != [] {
      Totals(ms[..|ms| - 1]);
    }
  }

  /** A conversation with no entry yet has no message among ms. */
  lemma NoEntryNoMessage(ms: seq<Message>, k: string)
    requires k !in Accumulate(ms).conv
    ensures forall x :: x in ms ==> x.convKey != k
  {
    ConvKeys(ms);
  }

  /** A conversation's `sent` and `received` counters count its messages in
      each direction. */
  lemma {:induction false} EntryDirections(ms: seq<Message>, k: string)
    requires k in Accumulate(ms).conv
    ensures var e := Accumulate(ms).conv[k];
      && e.sent == Sum(ms, SentIn(k))
      && e.received == Sum(ms, ReceivedIn(k))
    decreases |ms|
  {
    var front := ms[..|ms| - 1];
    if k in Accumulate(front).conv {
      EntryDirections(front, k);
    } else {
      NoEntryNoMessage(front, k);
      SumZero(front, SentIn(k));
      SumZero(front, ReceivedIn(k));
    }
  }

  /** A conversation's `total` and `messages` counters both count all its
      messages, and each of them is either sent or received. */
  lemma {:induction false} EntryTotals(ms: seq<Message>, k: string)
    requires k in Accumulate(ms).conv
    ensures var e := Accumulate(ms).conv[k];
      && e.total == e.messages == e.sent + e.received == Sum(ms, InConv(k))
    decreases |ms|
  {
    var front := ms[..|ms| - 1];
    if k in Accumulate(front).conv {
      EntryTotals(front, k);
    } else {
      NoEntryNoMessage(front, k);
      SumZero(front, InConv(k));
    }
  }

  /** A conversation's text counters count its messages whose text is not
      blank, and the words of all its messages. */
  lemma {:induction false} EntryText(ms: seq<Message>, k: string)
    requires k in Accumulate(ms).conv
    ensures var e := Accumulate(ms).conv[k];
      && e.textMessages == Sum(ms, TextIn(k))
      && e.textWords == Sum(ms, WordsIn(k))
      && e.textMessages <= e.total
    decreases |ms|
  {
    var front, m := ms[..|ms| - 1], ms[|ms| - 1];
    var t := Accumulate(front);
    var before := if k in t.conv then t.conv[k] else NewEntry(m.convName);
    if k in t.conv {
      EntryText(front, k);
    } else {
      NoEntryNoMessage(front, k);
      SumZero(front, TextIn(k));
      SumZero(front, WordsIn(k));
    }
    if m.convKey == k {
      RecordText(before, m);
      TextStep(before, Accumulate(ms).conv[k], m, Sum(front, TextIn(k)), Sum(front, WordsIn(k)),
               Sum(ms, TextIn(k)), Sum(ms, WordsIn(k)));
    }
  }

  lemma TextStep(before: ConvEntry, after: ConvEntry, m: Message, texts: nat, words: nat, texts': nat, words': nat)
    requires before.textMessages == texts && before.textWords == words && before.textMessages <= before.total
    requires after.textMessages == before.textMessages + (if AllSpace(m.text) then 0 else 1)
    requires after.textWords == before.textWords + WordCount(m.text) && after.total == before.total + 1
    requires texts' == texts + (if AllSpace(m.text) then 0 else 1) && words' == words + WordCount(m.text)
    ensures after.textMessages == texts' && after.textWords == words' && after.textMessages <= after.total
  {
  }

  /** Recording a message counts it as a text message exactly when its text
      is not blank, and adds the words of its text. */
  lemma RecordText(e: ConvEntry, m: Message)
    ensures var r := Record(e, m);
      && r.textMessages == e.textMessages + (if AllSpace(m.text) then 0 else 1)
      && r.textWords == e.textWords + WordCount(m.text)
      && r.total == e.total + 1
  {
    StripSpec(m.text);
    StripKeepsWordCount(m.text);
  }

  /** Recording a message never changes a conversation's name, and counts it
      once in `total` and in `messages`. */
  lemma RecordFields(e: ConvEntry, m: Message)
    ensures var r := Record(e, m);
      && r.name == e.name
      && r.total == e.total + 1
      && r.messages == e.messages + 1
      && r.daysActive == e.daysActive + {Day(m.time)}
  {
  }

  /** A conversation has an entry exactly when one of the messages belongs to
      it, and the entry keeps the name carried by its first message. */
  lemma {:induction false} EntryName(ms: seq<Message>, k: string)
    ensures k in Accumulate(ms).conv <==> FirstName(ms, k).Some?
    ensures k in Accumulate(ms).conv ==> Accumulate(ms).conv[k].name == FirstName(ms, k).value
    decreases |ms|
  {
    if ms != [] {
      var front, m := ms[..|ms| - 1], ms[|ms| - 1];
      EntryName(front, k);
      if m.convKey == k {
        var t := Accumulate(front);
        var e := if k in t.conv then t.conv[k] else NewEntry(m.convName);
        RecordFields(e, m);
      }
    }
  }

  lemma DaysOfSnoc(ms: seq<Message>, k: string)
    requires ms != []
    ensures var m := ms[|ms| - 1];
      DaysOf(ms, k) == DaysOf(ms[..|ms| - 1], k) + (if m.convKey == k then {Day(m.time)} else {})
  {
    assert ms == ms[..|ms| - 1] + [ms[|ms| - 1]];
  }

  /** A conversation's active days are the days of its messages. */
  lemma {:induction false} EntryDays(ms: seq<Message>, k: string)
    requires k in Accumulate(ms).conv
    ensures Accumulate(ms).conv[k].daysActive == DaysOf(ms, k)
    decreases |ms|
  {
    var front, m := ms[..|ms| - 1], ms[|ms| - 1];
    DaysOfSnoc(ms, k);
    var t := Accumulate(front);
    if k in t.conv {
      EntryDays(front, k);
    } else {
      NoEntryNoMessage(front, k);
      assert DaysOf(front, k) == {};
    }
    if m.convKey == k {
      var e := if k in t.conv then t.conv[k] else NewEntry(m.convName);
      RecordFields(e, m);
    }
  }

  /** The `total` of conversation k, zero for a conversation without an entry. */
  function TotalOf(conv: map<string, ConvEntry>): string -> nat {
    (k: string) => if k in conv then conv[k].total else 0
  }

  /** Recording one message in conversation k raises the sum of the totals by one. */
  lemma TotalsBump(order: seq<string>, conv: map<string, ConvEntry>, k: string, r: ConvEntry)
    requires NoDuplicates(order) && forall x :: x in conv <==> x in order
    requires r.total == TotalOf(conv)(k) + 1
    ensures var order' := if k in conv then order else order + [k];
      Sum(order', TotalOf(conv[k := r])) == Sum(order, TotalOf(conv)) + 1
  {
    var f, g := TotalOf(conv), TotalOf(conv[k := r]);
    if k in conv {
      SumBump(order, f, g, k);
    } else {
      SumSame(order, f, g);
      SumConcat(order, [k], g);
      assert [k][..0] == [];
    }
  }

  /** Every message is counted in exactly one conversation: the totals of the
      conversations add up to the number of messages. */
  lemma {:induction false} TotalsAddUp(ms: seq<Message>)
    ensures var t := Accumulate(ms);
      Sum(t.convOrder, TotalOf(t.conv)) == |ms|
    decreases |ms|
  {
    if ms != [] {
      var front, m := ms[..|ms| - 1], ms[|ms| - 1];
      var t := Accumulate(front);
      TotalsAddUp(front);
      ConvOrder(front);
      var e := if m.convKey in t.conv then t.conv[m.convKey] else NewEntry(m.convName);
      RecordFields(e, m);
      TotalsBump(t.convOrder, t.conv, m.convKey, Record(e, m));
    }
  }

  // ---------------------------------------------------------------------------
  // The response-time pairing

  /** The pairing's bookkeeping: every response I made answered a received
      message and was made by a message of mine, and the other way round; a
      set register stands for a received (or sent) message not yet answered. */
  ghost predicate Paired(e: ConvEntry) {
    && |e.yourResponseTimes| <= e.sent
    && |e.theirResponseTimes| <= e.received
    && |e.yourResponseTimes| + (if e.lastReceived.Some? then 1 else 0) <= e.received
    && |e.theirResponseTimes| + (if e.lastSent.Some? then 1 else 0) <= e.sent
  }

  /** After a message exactly one register is set: the one of the message's
      direction, holding its time. */
  lemma RecordPaired(e: ConvEntry, m: Message)
    requires Paired(e)
    ensures var r := Record(e, m);
      && Paired(r)
      && r.lastSent == (if m.fromMe then Some(m.time) else None)
      && r.lastReceived == (if m.fromMe then None else Some(m.time))
  {
  }

  /** The pairing keeps its bookkeeping, and a conversation's registers hold
      exactly one unanswered message: its last one. */
  lemma {:induction false} EntryPaired(ms: seq<Message>, k: string)
    requires k in Accumulate(ms).conv
    ensures var e := Accumulate(ms).conv[k];
      && Paired(e)
      && e.lastSent.Some? != e.lastReceived.Some?
    decreases |ms|
  {
    var front, m := ms[..|ms| - 1], ms[|ms| - 1];
    var t := Accumulate(front);
    if k in t.conv {
      EntryPaired(front, k);
    }
    if m.convKey == k {
      RecordPaired(if k in t.conv then t.conv[k] else NewEntry(m.convName), m);
    }
  }

  /** The registers only hold times of messages already seen. */
  lemma {:induction false} RegistersBounded(ms: seq<Message>, k: string, bound: int)
    requires k in Accumulate(ms).conv
    requires forall i :: 0 <= i < |ms| ==> ms[i].time <= bound
    ensures var e := Accumulate(ms).conv[k];
      && (e.lastReceived.Some? ==> e.lastReceived.value <= bound)
      && (e.lastSent.Some? ==> e.lastSent.value <= bound)
    decreases |ms|
  {
    var front, m := ms[..|ms| - 1], ms[|ms| - 1];
    var t := Accumulate(front);
    if k in t.conv {
      EntryPaired(front, k);
      RegistersBounded(front, k, bound);
    }
    if m.convKey == k {
      RecordPaired(if k in t.conv then t.conv[k] else NewEntry(m.convName), m);
    }
  }

  /** Every response time kept lies within the window: never negative and
      at most 48 hours. */
  ghost predicate InWindow(e: ConvEntry) {
    && (forall x :: x in e.yourResponseTimes ==> 0 <= x <= RESPONSE_WINDOW)
    && (forall x :: x in e.theirResponseTimes ==> 0 <= x <= RESPONSE_WINDOW)
  }

  /** A message no earlier than the registers keeps every response time in the window. */
  lemma RecordInWindow(e: ConvEntry, m: Message)
    requires InWindow(e)
    requires e.lastReceived.Some? ==> e.lastReceived.value <= m.time
    requires e.lastSent.Some? ==> e.lastSent.value <= m.time
    ensures InWindow(Record(e, m))
  {
    var r := Respond(e, m);
    assert InWindow(r);
  }

  /** Over time-sorted messages every response time kept lies within the window. */
  lemma {:induction false} ResponseTimesInWindow(ms: seq<Message>, k: string)
    requires SortedBy(ms, TimeOf)
    requires k in Accumulate(ms).conv
    ensures InWindow(Accumulate(ms).conv[k])
    decreases |ms|
  {
    var front, m := ms[..|ms| - 1], ms[|ms| - 1];
    var t := Accumulate(front);
    SortedPrefix(ms, TimeOf, |ms| - 1);
    if k in t.conv {
      ResponseTimesInWindow(front, k);
      assert forall i :: 0 <= i < |front| ==> front[i] == ms[i];
      RegistersBounded(front, k, m.time);
    }
    if m.convKey == k {
      RecordInWindow(if k in t.conv then t.conv[k] else NewEntry(m.convName), m);
    }
  }

  /** The last message of conversation k, if it has one. */
  function LastOf(ms: seq<Message>, k: string): Option<Message> {
    if ms == [] then None
    else if ms[|ms| - 1].convKey == k then Some(ms[|ms| - 1])
    else LastOf(ms[..|ms| - 1], k)
  }

  /** The response time m makes: the time since the previous message of its
      conversation, when that one went the other way and is at most 48 hours
      before m; nothing otherwise. */
  function GapOf(prev: Option<Message>, m: Message): seq<int> {
    if prev.Some? && prev.value.fromMe != m.fromMe && m.time - prev.value.time <= RESPONSE_WINDOW
    then [m.time - prev.value.time]
    else []
  }

  /** My response times in conversation k, in order: for each message of mine,
      the time since the received message just before it in k. */
  function YourGaps(ms: seq<Message>, k: string): seq<int> {
    if ms == [] then []
    else
      var front, m := ms[..|ms| - 1], ms[|ms| - 1];
      YourGaps(front, k) + (if m.convKey == k && m.fromMe then GapOf(LastOf(front, k), m) else [])
  }

  /** Their response times in conversation k, in order: for each received
      message, the time since my message just before it in k. */
  function TheirGaps(ms: seq<Message>, k: string): seq<int> {
    if ms == [] then []
    else
      var front, m := ms[..|ms| - 1], ms[|ms| - 1];
      TheirGaps(front, k) + (if m.convKey == k && !m.fromMe then GapOf(LastOf(front, k), m) else [])
  }

  /** A conversation without messages has no last message and no response times. */
  lemma {:induction false} NoMessageNoGaps(ms: seq<Message>, k: string)
    requires forall x :: x in ms ==> x.convKey != k
    ensures LastOf(ms, k) == None && YourGaps(ms, k) == [] && TheirGaps(ms, k) == []
    decreases |ms|
  {
    if ms != [] {
      var front := ms[..|ms| - 1];
      assert ms[|ms| - 1] in ms;
      forall x | x in front ensures x.convKey != k {
        assert x in ms;
      }
      NoMessageNoGaps(front, k);
    }
  }

  /** The registers of an entry stand for the last message of its conversation. */
  ghost predicate Registers(e: ConvEntry, last: Option<Message>) {
    && e.lastReceived == (if last.Some? && !last.value.fromMe then Some(last.value.time) else None)
    && e.lastSent == (if last.Some? && last.value.fromMe then Some(last.value.time) else None)
  }

  /** One message appends to the response times exactly the gap it makes
      after the conversation's last message, and becomes the last message. */
  lemma RecordGaps(e: ConvEntry, last: Option<Message>, m: Message)
    requires Registers(e, last)
    ensures var r := Record(e, m);
      && r.yourResponseTimes == e.yourResponseTimes + (if m.fromMe then GapOf(last, m) else [])
      && r.theirResponseTimes == e.theirResponseTimes + (if m.fromMe then [] else GapOf(last, m))
      && Registers(r, Some(m))
  {
  }

  /** Every response time of a conversation is the gap between one of its
      messages and the message of the other side just before it, within 48
      hours; the lists hold exactly those gaps, in message order. */
  lemma {:induction false} EntryGaps(ms: seq<Message>, k: string)
    requires k in Accumulate(ms).conv
    ensures var e := Accumulate(ms).conv[k];
      && e.yourResponseTimes == YourGaps(ms, k)
      && e.theirResponseTimes == TheirGaps(ms, k)
      && Registers(e, LastOf(ms, k))
    decreases |ms|
  {
    var front, m := ms[..|ms| - 1], ms[|ms| - 1];
    var t := Accumulate(front);
    if k in t.conv {
      EntryGaps(front, k);
    } else {
      NoEntryNoMessage(front, k);
      NoMessageNoGaps(front, k);
    }
    if m.convKey == k {
      RecordGaps(if k in t.conv then t.conv[k] else NewEntry(m.convName), LastOf(front, k), m);
    }
  }

  // ---------------------------------------------------------------------------
  // day_counts, all_dates, emoji_counter

  /** `day_counts[d]` is the number of messages sent on day d. */
  lemma {:induction false} DayCounts(ms: seq<Message>)
    ensures var days := Accumulate(ms).days;
      && days.Valid()
      && forall d :: days.Get(d) == Sum(ms, OnDay(d))
    decreases |ms|
  {
    if ms != [] {
      DayCounts(ms[..|ms| - 1]);
    }
  }

  lemma DayMonotone(a: int, b: int)
    requires a <= b
    ensures Day(a) <= Day(b)
  {
  }

  /** Counting a day no earlier than every day counted so far keeps the
      order increasing and makes that day the last one. */
  lemma AddLatestDay(days: Counter<int>, d: int, after: Counter<int>)
    requires days.Valid() && Increasing(days.order)
    requires days.order != [] ==> days.order[|days.order| - 1] <= d
    requires after == days.Add(d)
    ensures after.Valid() && Increasing(after.order)
    ensures after.order != [] && after.order[|after.order| - 1] == d
  {
    if d in days.counts {
      var i :| 0 <= i < |days.order| && days.order[i] == d;
      assert days.order[i] <= days.order[|days.order| - 1];
    }
  }

  /** Over time-sorted messages the days enter `day_counts` in increasing
      order, the last one being the day of the last message. */
  lemma {:induction false} DayOrder(ms: seq<Message>)
    requires SortedBy(ms, TimeOf)
    ensures var days := Accumulate(ms).days;
      && days.Valid()
      && Increasing(days.order)
      && (ms != [] ==> days.order != [] && days.order[|days.order| - 1] == Day(ms[|ms| - 1].time))
  {
    DayOrderAdjacent(ms);
  }

  /** `DayOrder`, for messages each no earlier than the one before. */
  lemma {:induction false} DayOrderAdjacent(ms: seq<Message>)
    requires forall i :: 0 < i < |ms| ==> ms[i - 1].time <= ms[i].time
    ensures var days := Accumulate(ms).days;
      && days.Valid()
      && Increasing(days.order)
      && (ms != [] ==> days.order != [] && days.order[|days.order| - 1] == Day(ms[|ms| - 1].time))
    decreases |ms|
  {
    if ms != [] {
      var front := ms[..|ms| - 1];
      DayOrderAdjacent(front);
      if front != [] {
        DayMonotone(ms[|ms| - 2].time, ms[|ms| - 1].time);
      }
      AddLatestDay(Accumulate(front).days, Day(ms[|ms| - 1].time), Accumulate(ms).days);
    }
  }

  /** `all_dates` holds the day of every message, in order. */
  lemma {:induction false} AllDates(ms: seq<Message>)
    ensures var a := Accumulate(ms).allDates;
      && |a| == |ms|
      && forall i :: 0 <= i < |ms| ==> a[i] == Day(ms[i].time)
    decreases |ms|
  {
    if ms != [] {
      AllDates(ms[..|ms| - 1]);
      DatesSnoc(ms, Accumulate(ms[..|ms| - 1]).allDates);
    }
  }

  lemma DatesSnoc(ms: seq<Message>, a: seq<int>)
    requires ms != []
    requires |a| == |ms| - 1 && forall i :: 0 <= i < |ms| - 1 ==> a[i] == Day(ms[..|ms| - 1][i].time)
    ensures var b := a + [Day(ms[|ms| - 1].time)];
      |b| == |ms| && forall i :: 0 <= i < |ms| ==> b[i] == Day(ms[i].time)
  {
  }

  /** The emoji counter counts every emoji character in the texts of the
      messages; stripping the text loses none, since an emoji is not whitespace. */
  lemma {:induction false} EmojiCounts(ms: seq<Message>)
    ensures var c := Accumulate(ms).emoji;
      && c.Valid()
      && forall x :: c.Get(x) == Sum(ms, EmojiIn(x))
    decreases |ms|
  {
    if ms != [] {
      var front, m := ms[..|ms| - 1], ms[|ms| - 1];
      var before := Accumulate(front).emoji;
      var text := Strip(m.text);
      EmojiCounts(front);
      CountEmojiCounts(before, text);
      forall x | IsEmoji(x) ensures multiset(text)[x] == multiset(m.text)[x] {
        EmojiIsNotSpace(x);
        StripKeepsNonSpace(m.text, x);
      }
    }
  }

  /** The stripped texts of the messages, one after another: the characters
      the emoji loop scans, in the order it scans them. */
  function StrippedTexts(ms: seq<Message>): string {
    if ms == [] then [] else StrippedTexts(ms[..|ms| - 1]) + Strip(ms[|ms| - 1].text)
  }

  /** order lists each emoji of text once, in the order of first occurrence. */
  ghost predicate FirstUseOrder(order: seq<char>, text: string) {
    && (forall x :: x in order <==> IsEmoji(x) && x in text)
    && forall i, j :: 0 <= i < j < |order| ==> FirstPos(text, order[i]) < FirstPos(text, order[j])
  }

  /** Counting one more character keeps the counter's insertion order the
      order of first occurrence: a new emoji goes last, as it occurs last. */
  lemma EmojiOrderSnoc(c: Counter<char>, text: string, y: char)
    requires c.Valid() && FirstUseOrder(c.order, text)
    ensures FirstUseOrder((if IsEmoji(y) then c.Add(y) else c).order, text + [y])
  {
    if IsEmoji(y) && y !in c.order {
      AppendNewEmoji(c.order, text, y);
    } else {
      KeepFirstUse(c.order, text, y);
    }
  }

  /** A character that is no new emoji leaves the order as it is. */
  lemma KeepFirstUse(order: seq<char>, text: string, y: char)
    requires FirstUseOrder(order, text) && (IsEmoji(y) ==> y in order)
    ensures FirstUseOrder(order, text + [y])
  {
    forall x | x in order ensures FirstPos(text + [y], x) == FirstPos(text, x) {
      FirstPosAppend(text, [y], x);
    }
  }

  /** A new emoji goes last in the order, as it occurs last. */
  lemma AppendNewEmoji(order: seq<char>, text: string, y: char)
    requires FirstUseOrder(order, text) && IsEmoji(y) && y !in order
    ensures FirstUseOrder(order + [y], text + [y])
  {
    var t, o := text + [y], order + [y];
    assert y !in text;
    assert t[..|text|] == text;
    FirstPosUnique(t, y, |text|);
    forall x | x in order ensures FirstPos(t, x) == FirstPos(text, x) < |text| {
      FirstPosAppend(text, [y], x);
    }
    forall i, j | 0 <= i < j < |o| ensures FirstPos(t, o[i]) < FirstPos(t, o[j]) {
      assert o[i] == order[i] && o[i] in order;
      if j < |order| {
        assert o[j] == order[j] && o[j] in order;
      }
    }
  }

  /** Counting the emoji of s after those of pre keeps the insertion order
      the order of first occurrence in pre + s. */
  lemma {:induction false} CountEmojiOrder(c: Counter<char>, pre: string, s: string)
    requires c.Valid() && FirstUseOrder(c.order, pre)
    ensures FirstUseOrder(CountEmoji(c, s).order, pre + s)
    decreases |s|
  {
    if s == [] {
      assert pre + s == pre;
    } else {
      var front, last := s[..|s| - 1], s[|s| - 1];
      CountEmojiOrder(c, pre, front);
      CountEmojiCounts(c, front);
      EmojiOrderSnoc(CountEmoji(c, front), pre + front, last);
      assert pre + s == (pre + front) + [last];
    }
  }

  /** The emoji counter lists the emoji in the order they first occur in the
      stripped texts of the messages: the insertion order `Counter` keeps. */
  lemma {:induction false} EmojiOrder(ms: seq<Message>)
    ensures FirstUseOrder(Accumulate(ms).emoji.order, StrippedTexts(ms))
    decreases |ms|
  {
    if ms != [] {
      var front, m := ms[..|ms| - 1], ms[|ms| - 1];
      var text := Strip(m.text);
      var before := Accumulate(front).emoji;
      EmojiOrder(front);
      EmojiCounts(front);
      assert Accumulate(ms).emoji == if text != [] then CountEmoji(before, text) else before;
      EmojiOrderStep(before, Accumulate(ms).emoji, StrippedTexts(front), text, StrippedTexts(ms));
    }
  }

  lemma EmojiOrderStep(before: Counter<char>, after: Counter<char>, pre: string, text: string, post: string)
    requires before.Valid() && FirstUseOrder(before.order, pre)
    requires after == (if text != [] then CountEmoji(before, text) else before)
    requires post == pre + text
    ensures FirstUseOrder(after.order, post)
  {
    if text != [] {
      CountEmojiOrder(before, pre, text);
    } else {
      assert post == pre;
    }
  }
}
