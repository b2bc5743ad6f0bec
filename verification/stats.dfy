/** `compute_stats`: the per-conversation finalisation (averages and
    streaks), the best contact streak, the top contacts, the busiest day, the
    date span and the top emoji of one period's messages. */
module Stats {
  import opened Seqs
  import opened Text
  import opened Streaks
  import opened Aggregation

  const DEFAULT_TOP_N: nat := 15
  const DEFAULT_TOP_EMOJI_N: nat := 10

  /** An exact quotient num / den, standing for the source's float average. */
  datatype Ratio = Ratio(num: int, den: nat)

  /** `sum(...)` of a list of response times. */
  function IntSum(s: seq<int>): int {
    if s == [] then 0 else IntSum(s[..|s| - 1]) + s[|s| - 1]
  }

  /** The average of a list of response times, `None` for an empty list. */
  function Mean(s: seq<int>): Option<Ratio> {
    if s == [] then None else Some(Ratio(IntSum(s), |s|))
  }

  lemma {:induction false} IntSumInWindow(s: seq<int>)
    requires forall x :: x in s ==> 0 <= x <= RESPONSE_WINDOW
    ensures 0 <= IntSum(s) <= |s| * RESPONSE_WINDOW
    decreases |s|
  {
    if s != [] {
      var front := s[..|s| - 1];
      assert forall x :: x in front ==> x in s;
      IntSumInWindow(front);
      assert s[|s| - 1] in s;
    }
  }

  /** An average of times that all lie in the response window lies in it too. */
  lemma MeanInWindow(s: seq<int>)
    requires forall x :: x in s ==> 0 <= x <= RESPONSE_WINDOW
    ensures Mean(s).None? <==> s == []
    ensures Mean(s).Some? ==> Mean(s).value.den == |s| && 0 <= Mean(s).value.num <= |s| * RESPONSE_WINDOW
  {
    IntSumInWindow(s);
  }

  /** The average word count of the conversation's text messages; 0 when it
      has none. */
  function AvgLength(e: ConvEntry): Ratio {
    if e.textMessages > 0 then Ratio(e.textWords, e.textMessages) else Ratio(0, 1)
  }

  /** One conversation after the finalisation loop: its aggregate together
      with the values the loop adds to it. */
  datatype Summary = Summary(
    key: string,
    entry: ConvEntry,
    daysActiveCount: nat,
    avgLength: Ratio,
    yourAvgResponse: Option<Ratio>,
    theirAvgResponse: Option<Ratio>,
    streak: Streak)

  /** s is what the finalisation loop makes of conversation k's aggregate e. */
  ghost predicate Summarizes(k: string, e: ConvEntry, s: Summary) {
    && s.key == k
    && s.entry == e
    && s.daysActiveCount == |e.daysActive|
    && s.avgLength == AvgLength(e)
    && s.yourAvgResponse == Mean(e.yourResponseTimes)
    && s.theirAvgResponse == Mean(e.theirResponseTimes)
    && IsLongestRun(e.daysActive, s.streak)
  }

  /** The overall longest streak with one contact. */
  datatype ContactStreak = ContactStreak(name: string, length: nat, start: int, end: int)

  function BestLength(c: Option<ContactStreak>): nat {
    if c.None? then 0 else c.value.length
  }

  function StreakOf(s: Summary): ContactStreak
    requires s.streak.Run?
  {
    ContactStreak(s.entry.name, s.streak.length, s.streak.start, s.streak.end)
  }

  /** The best contact streak over the conversations in order: a streak
      replaces the best one only when it is strictly longer, so the first of
      the longest streaks wins; none when no conversation has a streak. */
  function BestStreak(ss: seq<Summary>): (b: Option<ContactStreak>)
    ensures b.None? <==> forall i :: 0 <= i < |ss| ==> StreakLength(ss[i].streak) == 0
    ensures forall i :: 0 <= i < |ss| ==> StreakLength(ss[i].streak) <= BestLength(b)
    ensures b.Some? ==> exists i :: 0 <= i < |ss| && ss[i].streak.Run? && b.value == StreakOf(ss[i])
                                    && forall j :: 0 <= j < i ==> StreakLength(ss[j].streak) < b.value.length
  {
    if ss == [] then None
    else
      var front := ss[..|ss| - 1];
      var best := BestStreak(front);
      var s := ss[|ss| - 1];
      assert forall i :: 0 <= i < |front| ==> front[i] == ss[i];
      if s.streak.Run? && s.streak.length > BestLength(best) then Some(StreakOf(s)) else best
  }

  /** The finalisation loop over the conversations in their table order:
      each conversation's active-day count, average length, average response
      times and longest streak, and the best contact streak so far. */
  method Finalize(t: Tally) returns (summaries: seq<Summary>, longest: Option<ContactStreak>)
    requires forall k :: k in t.convOrder ==> k in t.conv
    ensures |summaries| == |t.convOrder|
    ensures forall i :: 0 <= i < |summaries| ==> Summarizes(t.convOrder[i], t.conv[t.convOrder[i]], summaries[i])
    ensures longest == BestStreak(summaries)
  {
    summaries := [];
    longest := None;
    var bestLen := 0;
    for i := 0 to |t.convOrder|
      invariant |summaries| == i
      invariant forall j :: 0 <= j < i ==> Summarizes(t.convOrder[j], t.conv[t.convOrder[j]], summaries[j])
      invariant longest == BestStreak(summaries)
      invariant bestLen == BestLength(longest)
    {
      var key := t.convOrder[i];
      var s := Summarize(key, t.conv[key]);
      BestStreakSnoc(summaries, s);
      if s.streak.Run? && s.streak.length > bestLen {
        bestLen := s.streak.length;
        longest := Some(StreakOf(s));
      }
      SummariesSnoc(t, summaries, s);
      summaries := summaries + [s];
    }
  }

  lemma SummariesSnoc(t: Tally, ss: seq<Summary>, s: Summary)
    requires |ss| < |t.convOrder| && forall k :: k in t.convOrder ==> k in t.conv
    requires forall j :: 0 <= j < |ss| ==> Summarizes(t.convOrder[j], t.conv[t.convOrder[j]], ss[j])
    requires Summarizes(t.convOrder[|ss|], t.conv[t.convOrder[|ss|]], s)
    ensures forall j :: 0 <= j < |ss| + 1 ==> Summarizes(t.convOrder[j], t.conv[t.convOrder[j]], (ss + [s])[j])
  {
  }

  /** The body of the finalisation loop for one conversation: its active-day
      count, average length, average response times and longest streak. */
  method Summarize(key: string, e: ConvEntry) returns (s: Summary)
    ensures Summarizes(key, e, s)
  {
    var streak := LongestStreak(e.daysActive);
    s := Summary(key, e, |e.daysActive|, AvgLength(e), Mean(e.yourResponseTimes),
                 Mean(e.theirResponseTimes), streak);
  }

  /** One more conversation replaces the best contact streak only when its
      streak is strictly longer. */
  lemma BestStreakSnoc(ss: seq<Summary>, s: Summary)
    ensures BestStreak(ss + [s]) == if s.streak.Run? && s.streak.length > BestLength(BestStreak(ss))
                                    then Some(StreakOf(s)) else BestStreak(ss)
  {
    assert (ss + [s])[..|ss|] == ss;
  }

  // ---------------------------------------------------------------------------
  // Rankings

  /** The sort key of `sorted(..., key=total, reverse=True)`: Python's reverse
      sort is stable, so it is the stable sort by the negated total. */
  function NegTotal(s: Summary): int {
    -(s.entry.total as int)
  }

  /** One entry of `emoji_counter.most_common(n)`. */
  datatype EmojiCount = EmojiCount(emoji: char, count: nat)

  function NegCount(e: EmojiCount): int {
    -(e.count as int)
  }

  /** `emoji_counter.items()`, in insertion order. */
  function EmojiItems(c: Counter<char>): seq<EmojiCount> {
    seq(|c.order|, i requires 0 <= i < |c.order| => EmojiCount(c.order[i], c.Get(c.order[i])))
  }

  /** top ranks the keys of the emoji counter c as `most_common(n)` does:
      distinct emoji with their counts, most frequent first, and an emoji
      left out means the n places are taken by emoji occurring at least as
      often. */
  ghost predicate RanksCounter(c: Counter<char>, top: seq<EmojiCount>, n: nat) {
    && |top| == Min(n, |c.order|)
    && (forall i, j :: 0 <= i < j < |top| ==> top[j].count <= top[i].count)
    && (forall i, j :: 0 <= i < j < |top| ==> top[i].emoji != top[j].emoji)
    && (forall e :: e in top ==> e.emoji in c.order && e.count == c.Get(e.emoji))
    && (forall x :: x in c.order && (forall e :: e in top ==> e.emoji != x) ==>
          |top| == n && (n > 0 ==> c.Get(x) <= top[n - 1].count))
  }

  /** `most_common(n)`, the stable sort of the counter's items by
      decreasing count cut to n entries, ranks the counter's keys. */
  lemma TopEmojiRanks(c: Counter<char>, n: nat)
    requires c.Valid()
    ensures RanksCounter(c, TopBy(EmojiItems(c), NegCount, n), n)
  {
    var items := EmojiItems(c);
    ItemsDistinct(c);
    TopEntries(items, NegCount, n);
    RankedItems(c, items, TopBy(items, NegCount, n), n);
  }

  /** Among the entries of top with equal counts, the emoji that first
      occurs earlier in text comes first. */
  ghost predicate TiesByFirstUse(text: string, top: seq<EmojiCount>) {
    forall i, j :: 0 <= i < j < |top| && top[i].count == top[j].count ==>
      FirstPos(text, top[i].emoji) < FirstPos(text, top[j].emoji)
  }

  /** `most_common(n)` sorts stably, so emoji with equal counts keep the
      counter's insertion order; when that is the order of first occurrence
      in text, ties go to the emoji used first. */
  lemma TopEmojiTies(c: Counter<char>, text: string, n: nat)
    requires c.Valid() && FirstUseOrder(c.order, text)
    ensures TiesByFirstUse(text, TopBy(EmojiItems(c), NegCount, n))
  {
    var items := EmojiItems(c);
    var top := TopBy(items, NegCount, n);
    forall i, j | 0 <= i < j < |top| && top[i].count == top[j].count
      ensures exists a, b :: 0 <= a < b < |items| && items[a] == top[i] && items[b] == top[j]
    {
      TopByStable(items, NegCount, n, i, j);
    }
    TiesInCounterOrder(c, text, top);
  }

  /** Entries that stand in the counter's items in insertion order follow
      the order of first occurrence. */
  lemma TiesInCounterOrder(c: Counter<char>, text: string, top: seq<EmojiCount>)
    requires FirstUseOrder(c.order, text)
    requires forall i, j :: 0 <= i < j < |top| && top[i].count == top[j].count ==>
      exists a, b :: 0 <= a < b < |EmojiItems(c)| && EmojiItems(c)[a] == top[i] && EmojiItems(c)[b] == top[j]
    ensures TiesByFirstUse(text, top)
  {
    var items := EmojiItems(c);
    forall i, j | 0 <= i < j < |top| && top[i].count == top[j].count
      ensures FirstPos(text, top[i].emoji) < FirstPos(text, top[j].emoji)
    {
      var a, b :| 0 <= a < b < |items| && items[a] == top[i] && items[b] == top[j];
      assert items[a].emoji == c.order[a] && items[b].emoji == c.order[b];
    }
  }

  /** At the cut-off of top, a key of the counter c left out with the same
      count as a kept emoji was first used after it in text. */
  ghost predicate CounterCutByFirstUse(c: Counter<char>, text: string, top: seq<EmojiCount>) {
    forall i, x :: 0 <= i < |top| && 0 < c.Get(x) == top[i].count && (forall e :: e in top ==> e.emoji != x) ==>
      FirstPos(text, top[i].emoji) < FirstPos(text, x)
  }

  /** `most_common(n)` cuts a stable sort, so of the emoji with one count it
      keeps those inserted first; when the insertion order is the order of
      first occurrence in text, a left-out emoji was used after every kept
      emoji with its count. */
  lemma TopEmojiCut(c: Counter<char>, text: string, n: nat)
    requires c.Valid() && FirstUseOrder(c.order, text)
    ensures CounterCutByFirstUse(c, text, TopBy(EmojiItems(c), NegCount, n))
  {
    var top := TopBy(EmojiItems(c), NegCount, n);
    forall i, x | 0 <= i < |top| && 0 < c.Get(x) == top[i].count && (forall e :: e in top ==> e.emoji != x)
      ensures FirstPos(text, top[i].emoji) < FirstPos(text, x)
    {
      var a, b := CutPositions(c, n, i, x);
    }
  }

  /** A left-out emoji with the count of kept entry i was inserted into the
      counter after that entry's emoji. */
  lemma CutPositions(c: Counter<char>, n: nat, i: nat, x: char) returns (a: nat, b: nat)
    requires c.Valid()
    requires var top := TopBy(EmojiItems(c), NegCount, n);
      i < |top| && 0 < c.Get(x) == top[i].count && forall e :: e in top ==> e.emoji != x
    ensures a < b < |c.order| && c.order[a] == TopBy(EmojiItems(c), NegCount, n)[i].emoji && c.order[b] == x
  {
    var items := EmojiItems(c);
    var top := TopBy(items, NegCount, n);
    assert x in c.counts;
    b :| 0 <= b < |c.order| && c.order[b] == x;
    assert items[b] == EmojiCount(x, c.Get(x));
    assert items[b] !in top;
    TopByKeepsEarlier(items, NegCount, n, i, b);
    a :| 0 <= a < b && items[a] == top[i];
    assert items[a].emoji == c.order[a];
  }

  lemma ItemsDistinct(c: Counter<char>)
    requires c.Valid()
    ensures NoDuplicates(EmojiItems(c))
  {
    var items := EmojiItems(c);
    forall i, j | 0 <= i < j < |items| ensures items[i] != items[j] {
      assert items[i].emoji == c.order[i] && items[j].emoji == c.order[j];
    }
  }

  lemma RankedItems(c: Counter<char>, items: seq<EmojiCount>, top: seq<EmojiCount>, n: nat)
    requires c.Valid() && items == EmojiItems(c)
    requires SortedBy(top, NegCount) && NoDuplicates(top)
    requires forall e :: e in top ==> e in items
    requires forall e :: e in items && e !in top ==> |top| == n && (n > 0 ==> NegCount(top[n - 1]) <= NegCount(e))
    ensures forall i, j :: 0 <= i < j < |top| ==> top[j].count <= top[i].count
    ensures forall i, j :: 0 <= i < j < |top| ==> top[i].emoji != top[j].emoji
    ensures forall e :: e in top ==> e.emoji in c.order && e.count == c.Get(e.emoji)
    ensures forall x :: x in c.order && (forall e :: e in top ==> e.emoji != x) ==>
              |top| == n && (n > 0 ==> c.Get(x) <= top[n - 1].count)
  {
    forall e | e in top ensures e.emoji in c.order && e.count == c.Get(e.emoji) {
      var i :| 0 <= i < |items| && items[i] == e;
    }
    forall i, j | 0 <= i < j < |top| ensures top[i].emoji != top[j].emoji {
      assert top[i] in top && top[j] in top;
    }
    forall x | x in c.order && (forall e :: e in top ==> e.emoji != x)
      ensures |top| == n && (n > 0 ==> c.Get(x) <= top[n - 1].count)
    {
      var i :| 0 <= i < |c.order| && c.order[i] == x;
      assert items[i] in items && items[i] !in top;
    }
  }

  /** The top contact is the conversation with the most messages, and the
      first of them in table order. */
  ghost predicate IsTopContact(ss: seq<Summary>, c: Summary) {
    && (forall s :: s in ss ==> s.entry.total <= c.entry.total)
    && exists i :: 0 <= i < |ss| && ss[i] == c && forall j :: 0 <= j < i ==> ss[j].entry.total < c.entry.total
  }

  lemma TopContact(ss: seq<Summary>, n: nat)
    requires n > 0 && ss != []
    ensures var top := TopBy(ss, NegTotal, n);
      top != [] && IsTopContact(ss, top[0])
  {
    TopFirst(ss, NegTotal, n);
  }

  // ---------------------------------------------------------------------------
  // Busiest day

  datatype BusiestDay = BusiestDay(date: int, count: nat)

  /** Over time-sorted messages `max(day_counts.items())` is the earliest of
      the days with the most messages. */
  lemma BusiestIsEarliest(days: Counter<int>)
    requires days.Valid() && Increasing(days.order) && days.order != []
    ensures var b := days.MostCommonKey();
      && b.Some?
      && days.Get(b.value) > 0
      && (forall d :: days.Get(d) <= days.Get(b.value))
      && (forall d :: d < b.value ==> days.Get(d) < days.Get(b.value))
  {
    var b := days.MostCommonKey().value;
    EarliestMax(days, b);
  }

  /** A day whose count is largest and whose earlier days in the (increasing)
      key order all count less is the earliest of the days with most messages. */
  lemma EarliestMax(days: Counter<int>, b: int)
    requires days.Valid() && Increasing(days.order)
    requires exists i :: 0 <= i < |days.order| && days.order[i] == b
                         && (forall j :: 0 <= j < i ==> days.Get(days.order[j]) < days.Get(b))
    requires forall k :: k in days.order ==> days.Get(k) <= days.Get(b)
    ensures days.Get(b) > 0
    ensures forall d :: days.Get(d) <= days.Get(b)
    ensures forall d :: d < b ==> days.Get(d) < days.Get(b)
  {
    var i :| 0 <= i < |days.order| && days.order[i] == b
             && (forall j :: 0 <= j < i ==> days.Get(days.order[j]) < days.Get(b));
    assert b in days.counts;
    forall d | d < b ensures days.Get(d) < days.Get(b) {
      if d in days.order {
        var j :| 0 <= j < |days.order| && days.order[j] == d;
        assert j < i;
      }
    }
  }

  // ---------------------------------------------------------------------------
  // compute_stats, stated over the messages as given

  /** Start and end of the period: the earliest and the latest day of a message. */
  ghost predicate IsFirstDay(messages: seq<Message>, d: int) {
    && (exists m :: m in messages && Day(m.time) == d)
    && forall m :: m in messages ==> d <= Day(m.time)
  }

  ghost predicate IsLastDay(messages: seq<Message>, d: int) {
    && (exists m :: m in messages && Day(m.time) == d)
    && forall m :: m in messages ==> Day(m.time) <= d
  }

  /** The start date never follows the end date. */
  lemma FirstNotAfterLast(messages: seq<Message>, a: int, b: int)
    requires IsFirstDay(messages, a) && IsLastDay(messages, b)
    ensures a <= b
  {
    var m :| m in messages && Day(m.time) == a;
  }

  /** A finalised response-time average lies within the response window. */
  ghost predicate WithinWindow(a: Option<Ratio>) {
    a.Some? ==> a.value.den > 0 && 0 <= a.value.num <= a.value.den * RESPONSE_WINDOW
  }

  /** s describes conversation s.key of the messages: the name of its
      earliest message, its counts in each direction, its active days, its
      text-message and word counts with their average, its response times (the
      gaps after a message of the other side, within 48 hours) with their
      averages, the registers left by its last message in time order, and
      its longest streak. */
  ghost predicate Describes(messages: seq<Message>, s: Summary) {
    var k := s.key;
    && k in Keys(messages)
    && FirstName(SortBy(messages, TimeOf), k) == Some(s.entry.name)
    && s.entry.sent == Sum(messages, SentIn(k))
    && s.entry.received == Sum(messages, ReceivedIn(k))
    && s.entry.total == s.entry.messages == Sum(messages, InConv(k))
    && s.entry.daysActive == DaysOf(messages, k)
    && s.daysActiveCount == |DaysOf(messages, k)|
    && s.entry.textMessages == Sum(messages, TextIn(k))
    && s.entry.textWords == Sum(messages, WordsIn(k))
    && s.avgLength == (if Sum(messages, TextIn(k)) > 0
                       then Ratio(Sum(messages, WordsIn(k)), Sum(messages, TextIn(k)))
                       else Ratio(0, 1))
    && Paired(s.entry) && InWindow(s.entry)
    && Registers(s.entry, LastOf(SortBy(messages, TimeOf), k))
    && s.entry.yourResponseTimes == YourGaps(SortBy(messages, TimeOf), k)
    && s.entry.theirResponseTimes == TheirGaps(SortBy(messages, TimeOf), k)
    && s.yourAvgResponse == Mean(YourGaps(SortBy(messages, TimeOf), k))
    && s.theirAvgResponse == Mean(TheirGaps(SortBy(messages, TimeOf), k))
    && (s.yourAvgResponse.None? <==> s.entry.yourResponseTimes == [])
    && (s.theirAvgResponse.None? <==> s.entry.theirResponseTimes == [])
    && WithinWindow(s.yourAvgResponse) && WithinWindow(s.theirAvgResponse)
    && IsLongestRun(DaysOf(messages, k), s.streak)
  }

  /** The finalised table: one summary per conversation of the messages. */
  ghost predicate ListsConversations(messages: seq<Message>, cs: seq<Summary>) {
    && (forall i :: 0 <= i < |cs| ==> Describes(messages, cs[i]))
    && (forall i, j :: 0 <= i < j < |cs| ==> cs[i].key != cs[j].key)
    && (forall k :: k in Keys(messages) ==> exists i :: 0 <= i < |cs| && cs[i].key == k)
    && FirstSeenOrder(messages, cs)
  }

  /** The summaries follow the conversations' first messages in time order
      (ties in time keep their input order). */
  ghost predicate FirstSeenOrder(messages: seq<Message>, cs: seq<Summary>) {
    forall i, j :: 0 <= i < j < |cs| ==>
      FirstAt(SortBy(messages, TimeOf), cs[i].key) < FirstAt(SortBy(messages, TimeOf), cs[j].key)
  }

  /** The busiest day: the earliest of the days with the most messages,
      with its count; none without messages. */
  ghost predicate IsBusiestDay(messages: seq<Message>, b: Option<BusiestDay>) {
    && (b.None? <==> messages == [])
    && (b.Some? ==>
          && b.value.count == Sum(messages, OnDay(b.value.date)) > 0
          && (forall d :: Sum(messages, OnDay(d)) <= b.value.count)
          && (forall d :: d < b.value.date ==> Sum(messages, OnDay(d)) < b.value.count))
  }

  /** The top emoji: distinct emoji with how often they occur in the texts,
      most frequent first, and an emoji left out means all n places are taken
      by emoji occurring at least as often. */
  ghost predicate RanksEmoji(messages: seq<Message>, top: seq<EmojiCount>, n: nat) {
    && |top| <= n
    && (forall i, j :: 0 <= i < j < |top| ==> top[j].count <= top[i].count)
    && (forall i, j :: 0 <= i < j < |top| ==> top[i].emoji != top[j].emoji)
    && (forall e :: e in top ==> IsEmoji(e.emoji) && e.count == Sum(messages, EmojiIn(e.emoji)) > 0)
    && (forall x :: Sum(messages, EmojiIn(x)) > 0 && (forall e :: e in top ==> e.emoji != x) ==>
          |top| == n && (n > 0 ==> Sum(messages, EmojiIn(x)) <= top[n - 1].count))
  }

  /** top is `most_common(n)` of the emoji in the texts: it ranks them by
      count, and among equal counts, both in its order and at its cut-off,
      the emoji used first in the time-sorted stripped texts wins. */
  ghost predicate TopEmojiOf(messages: seq<Message>, top: seq<EmojiCount>, n: nat) {
    && RanksEmoji(messages, top, n)
    && TiesByFirstUse(StrippedTexts(SortBy(messages, TimeOf)), top)
    && CutByFirstUse(messages, StrippedTexts(SortBy(messages, TimeOf)), top)
  }

  /** At the cut-off of top, an emoji of the messages left out with the same
      count as a kept one was first used after it in text. */
  ghost predicate CutByFirstUse(messages: seq<Message>, text: string, top: seq<EmojiCount>) {
    forall i, x :: 0 <= i < |top| && 0 < Sum(messages, EmojiIn(x)) == top[i].count
                   && (forall e :: e in top ==> e.emoji != x) ==>
      FirstPos(text, top[i].emoji) < FirstPos(text, x)
  }

  lemma SameMembers(a: seq<Message>, b: seq<Message>)
    requires multiset(a) == multiset(b)
    ensures forall m :: m in a <==> m in b
    ensures Keys(a) == Keys(b)
    ensures forall k :: DaysOf(a, k) == DaysOf(b, k)
  {
    assert forall m :: m in a <==> m in multiset(a);
    assert forall m :: m in b <==> m in multiset(b);
  }

  /** A summary of the pass over the sorted messages describes its
      conversation of the messages as given. */
  lemma SummaryDescribes(messages: seq<Message>, k: string, s: Summary)
    requires var t := Accumulate(SortBy(messages, TimeOf));
      k in t.conv && Summarizes(k, t.conv[k], s)
    ensures Describes(messages, s)
  {
    var ms := SortBy(messages, TimeOf);
    SummaryCounts(messages, k, s);
    var e := Accumulate(ms).conv[k];
    SortBySorted(messages, TimeOf);
    ConvKeys(ms);
    SameMembers(ms, messages);
    EntryName(ms, k);
    EntryDays(ms, k);
    EntryPaired(ms, k);
    EntryGaps(ms, k);
    ResponseTimesInWindow(ms, k);
    MeanInWindow(e.yourResponseTimes);
    MeanInWindow(e.theirResponseTimes);
  }

  lemma SummaryCounts(messages: seq<Message>, k: string, s: Summary)
    requires var t := Accumulate(SortBy(messages, TimeOf));
      k in t.conv && Summarizes(k, t.conv[k], s)
    ensures s.entry.sent == Sum(messages, SentIn(k))
    ensures s.entry.received == Sum(messages, ReceivedIn(k))
    ensures s.entry.total == s.entry.messages == Sum(messages, InConv(k))
    ensures s.entry.textMessages == Sum(messages, TextIn(k)) && s.entry.textWords == Sum(messages, WordsIn(k))
    ensures s.avgLength == (if Sum(messages, TextIn(k)) > 0
                            then Ratio(Sum(messages, WordsIn(k)), Sum(messages, TextIn(k)))
                            else Ratio(0, 1))
  {
    var ms := SortBy(messages, TimeOf);
    EntryDirections(ms, k);
    EntryTotals(ms, k);
    EntryText(ms, k);
    SumPermutation(ms, messages, SentIn(k));
    SumPermutation(ms, messages, ReceivedIn(k));
    SumPermutation(ms, messages, InConv(k));
    SumPermutation(ms, messages, TextIn(k));
    SumPermutation(ms, messages, WordsIn(k));
  }

  /** The finalised table lists every conversation of the messages once. */
  lemma TableLists(messages: seq<Message>, cs: seq<Summary>)
    requires Finalized(Accumulate(SortBy(messages, TimeOf)), cs)
    ensures ListsConversations(messages, cs)
  {
    var ms := SortBy(messages, TimeOf);
    var t := Accumulate(ms);
    forall i | 0 <= i < |cs| ensures Describes(messages, cs[i]) {
      SummaryDescribes(messages, t.convOrder[i], cs[i]);
    }
    TableCovers(messages, ms, t.convOrder, t.conv, cs);
    ConvOrderFirstSeen(ms);
    TableFirstSeen(messages, ms, t.convOrder, Firsts(ms, t.convOrder), cs);
  }

  lemma TableFirstSeen(messages: seq<Message>, ms: seq<Message>, order: seq<string>, ps: seq<int>, cs: seq<Summary>)
    requires ms == SortBy(messages, TimeOf) && ps == Firsts(ms, order) && Increasing(ps)
    requires |cs| == |order| && forall i :: 0 <= i < |cs| ==> cs[i].key == order[i]
    ensures FirstSeenOrder(messages, cs)
  {
    forall i, j | 0 <= i < j < |cs| ensures FirstAt(ms, cs[i].key) < FirstAt(ms, cs[j].key) {
      FirstsAt(ms, order, i);
      FirstsAt(ms, order, j);
    }
  }

  lemma TableCovers(messages: seq<Message>, ms: seq<Message>, order: seq<string>, conv: map<string, ConvEntry>, cs: seq<Summary>)
    requires ms == SortBy(messages, TimeOf) && order == Accumulate(ms).convOrder && conv == Accumulate(ms).conv
    requires |cs| == |order| && forall i :: 0 <= i < |cs| ==> cs[i].key == order[i]
    ensures forall i, j :: 0 <= i < j < |cs| ==> cs[i].key != cs[j].key
    ensures forall k :: k in Keys(messages) ==> exists i :: 0 <= i < |cs| && cs[i].key == k
  {
    ConvOrder(ms);
    ConvKeys(ms);
    SameMembers(ms, messages);
    forall k | k in Keys(messages) ensures exists i :: 0 <= i < |cs| && cs[i].key == k {
      var i :| 0 <= i < |order| && order[i] == k;
      assert cs[i].key == k;
    }
  }

  /** With at least one message some conversation has a streak. */
  lemma StreakExists(messages: seq<Message>, cs: seq<Summary>)
    requires messages != [] && ListsConversations(messages, cs)
    ensures BestStreak(cs).Some?
  {
    var m := messages[0];
    var k := m.convKey;
    assert k in Keys(messages);
    var i :| 0 <= i < |cs| && cs[i].key == k;
    assert Describes(messages, cs[i]);
    assert Day(m.time) in DaysOf(messages, k);
    RunOfActiveDays(DaysOf(messages, k), cs[i].streak);
  }

  lemma RunOfActiveDays(days: set<int>, s: Streak)
    requires IsLongestRun(days, s) && days != {}
    ensures StreakLength(s) > 0
  {
  }

  lemma CountsTransfer(messages: seq<Message>)
    ensures var t := Accumulate(SortBy(messages, TimeOf));
      && t.sent == Sum(messages, SentMessage)
      && t.received == Sum(messages, ReceivedMessage)
  {
    var ms := SortBy(messages, TimeOf);
    Totals(ms);
    SumPermutation(ms, messages, SentMessage);
    SumPermutation(ms, messages, ReceivedMessage);
  }

  lemma DatesTransfer(messages: seq<Message>)
    requires messages != []
    ensures var a := Accumulate(SortBy(messages, TimeOf)).allDates;
      && a != []
      && IsFirstDay(messages, MinOf(a))
      && IsLastDay(messages, MaxOf(a))
  {
    var ms := SortBy(messages, TimeOf);
    var a := Accumulate(ms).allDates;
    AllDates(ms);
    SameMembers(ms, messages);
    DaySpan(messages, ms, a);
  }

  lemma DaySpan(messages: seq<Message>, ms: seq<Message>, a: seq<int>)
    requires forall m :: m in ms <==> m in messages
    requires |a| == |ms| && forall i :: 0 <= i < |ms| ==> a[i] == Day(ms[i].time)
    requires a != []
    ensures IsFirstDay(messages, MinOf(a)) && IsLastDay(messages, MaxOf(a))
  {
    var i :| 0 <= i < |a| && a[i] == MinOf(a);
    var j :| 0 <= j < |a| && a[j] == MaxOf(a);
    assert ms[i] in messages && ms[j] in messages;
    forall m | m in messages ensures MinOf(a) <= Day(m.time) <= MaxOf(a) {
      var k :| 0 <= k < |ms| && ms[k] == m;
      assert a[k] in a;
    }
  }

  lemma BusiestTransfer(messages: seq<Message>)
    requires messages != []
    ensures var days := Accumulate(SortBy(messages, TimeOf)).days;
      && days.Valid()
      && days.MostCommonKey().Some?
      && IsBusiestDay(messages, Some(BusiestDay(days.MostCommonKey().value, days.Get(days.MostCommonKey().value))))
  {
    var ms := SortBy(messages, TimeOf);
    var days := Accumulate(ms).days;
    SortBySorted(messages, TimeOf);
    DayCounts(ms);
    DayOrder(ms);
    BusiestIsEarliest(days);
    forall d ensures days.Get(d) == Sum(messages, OnDay(d)) {
      SumPermutation(ms, messages, OnDay(d));
    }
  }

  lemma EmojiTransfer(messages: seq<Message>, n: nat)
    ensures var c := Accumulate(SortBy(messages, TimeOf)).emoji;
      c.Valid() && RanksEmoji(messages, TopBy(EmojiItems(c), NegCount, n), n)
  {
    var ms := SortBy(messages, TimeOf);
    EmojiCounts(ms);
    EmojiRanksTransfer(messages, ms, Accumulate(ms).emoji, n);
  }

  /** The cut-off rule over the counter is the cut-off rule over the
      input's emoji counts. */
  lemma EmojiCutTransfer(messages: seq<Message>, n: nat)
    ensures var c := Accumulate(SortBy(messages, TimeOf)).emoji;
      CutByFirstUse(messages, StrippedTexts(SortBy(messages, TimeOf)), TopBy(EmojiItems(c), NegCount, n))
  {
    var ms := SortBy(messages, TimeOf);
    var c := Accumulate(ms).emoji;
    var text := StrippedTexts(ms);
    EmojiCounts(ms);
    CounterMatches(messages, ms, c);
    EmojiOrder(ms);
    TopEmojiCut(c, text, n);
    CutFromCounter(messages, c, text, TopBy(EmojiItems(c), NegCount, n));
  }

  lemma CutFromCounter(messages: seq<Message>, c: Counter<char>, text: string, top: seq<EmojiCount>)
    requires CounterCutByFirstUse(c, text, top) && forall x :: c.Get(x) == Sum(messages, EmojiIn(x))
    ensures CutByFirstUse(messages, text, top)
  {
  }

  lemma EmojiRanksTransfer(messages: seq<Message>, ms: seq<Message>, c: Counter<char>, n: nat)
    requires multiset(ms) == multiset(messages)
    requires c.Valid() && forall x :: c.Get(x) == Sum(ms, EmojiIn(x))
    ensures RanksEmoji(messages, TopBy(EmojiItems(c), NegCount, n), n)
  {
    CounterMatches(messages, ms, c);
    TopEmojiRanks(c, n);
    RanksFromCounter(messages, c, TopBy(EmojiItems(c), NegCount, n), n);
  }

  lemma CounterMatches(messages: seq<Message>, ms: seq<Message>, c: Counter<char>)
    requires multiset(ms) == multiset(messages)
    requires forall x :: c.Get(x) == Sum(ms, EmojiIn(x))
    ensures forall x :: c.Get(x) == Sum(messages, EmojiIn(x))
    ensures forall x :: !IsEmoji(x) ==> c.Get(x) == 0
  {
    forall x ensures c.Get(x) == Sum(messages, EmojiIn(x)) && (!IsEmoji(x) ==> c.Get(x) == 0) {
      SumPermutation(ms, messages, EmojiIn(x));
      if !IsEmoji(x) {
        SumZero(messages, EmojiIn(x));
      }
    }
  }

  lemma RanksFromCounter(messages: seq<Message>, c: Counter<char>, top: seq<EmojiCount>, n: nat)
    requires c.Valid()
    requires forall x :: c.Get(x) == Sum(messages, EmojiIn(x))
    requires forall x :: !IsEmoji(x) ==> c.Get(x) == 0
    requires RanksCounter(c, top, n)
    ensures RanksEmoji(messages, top, n)
  {
    forall x | Sum(messages, EmojiIn(x)) > 0 && (forall e :: e in top ==> e.emoji != x)
      ensures |top| == n && (n > 0 ==> Sum(messages, EmojiIn(x)) <= top[n - 1].count)
    {
      assert x in c.counts;
    }
  }

  /** The statistics of one period, as `compute_stats` returns them. */
  datatype PeriodStats = PeriodStats(
    totalMessages: nat,
    sentCount: nat,
    receivedCount: nat,
    startDate: Option<int>,
    endDate: Option<int>,
    topContacts: seq<Summary>,
    topContact: Option<Summary>,
    busiestDay: Option<BusiestDay>,
    longestContactStreak: Option<ContactStreak>,
    topEmoji: seq<EmojiCount>)

  /** The statistics of a period without messages. */
  const EmptyStats: PeriodStats := PeriodStats(0, 0, 0, None, None, [], None, None, None, [])

  /** cs is the finalised table of the tally t: one summary per entry of the
      table order, in that order. */
  ghost predicate Finalized(t: Tally, cs: seq<Summary>) {
    && |cs| == |t.convOrder|
    && forall i :: 0 <= i < |cs| ==>
         t.convOrder[i] in t.conv && Summarizes(t.convOrder[i], t.conv[t.convOrder[i]], cs[i])
  }

  /** What the pass over the sorted messages (t) and the finalisation loop
      (cs) establish about the messages as given: the day counter and the
      emoji counter are well formed, the top contact, the busiest day, the
      first and last day, the direction counts, the table itself, the
      existence of a streak and the emoji ranking. */
  ghost predicate Tabulated(messages: seq<Message>, topN: nat, topEmojiN: nat, t: Tally, cs: seq<Summary>) {
    && t.days.Valid() && t.days.MostCommonKey().Some? && t.allDates != [] && t.emoji.Valid()
    && (topN > 0 ==> var top := TopBy(cs, NegTotal, topN); top != [] && IsTopContact(cs, top[0]))
    && (var d := t.days.MostCommonKey().value; IsBusiestDay(messages, Some(BusiestDay(d, t.days.Get(d)))))
    && IsFirstDay(messages, MinOf(t.allDates)) && IsLastDay(messages, MaxOf(t.allDates))
    && t.sent == Sum(messages, SentMessage) && t.received == Sum(messages, ReceivedMessage)
    && ListsConversations(messages, cs) && BestStreak(cs).Some?
    && TopEmojiOf(messages, TopBy(EmojiItems(t.emoji), NegCount, topEmojiN), topEmojiN)
  }

  /** The facts of `Tabulated` hold for the pass over the time-sorted
      messages and its finalised table. */
  lemma StatsFacts(messages: seq<Message>, topN: nat, topEmojiN: nat, t: Tally, cs: seq<Summary>)
    requires messages != []
    requires t == Accumulate(SortBy(messages, TimeOf))
    requires Finalized(t, cs)
    ensures Tabulated(messages, topN, topEmojiN, t, cs)
  {
    TableLists(messages, cs);
    StreakExists(messages, cs);
    if topN > 0 {
      assert cs != [] by {
        assert messages[0].convKey in Keys(messages);
      }
      TopContact(cs, topN);
    }
    CountsTransfer(messages);
    DatesTransfer(messages);
    BusiestTransfer(messages);
    EmojiTransfer(messages, topEmojiN);
    EmojiOrder(SortBy(messages, TimeOf));
    TopEmojiTies(t.emoji, StrippedTexts(SortBy(messages, TimeOf)), topEmojiN);
    EmojiCutTransfer(messages, topEmojiN);
  }

  /** The first part of `compute_stats` on a non-empty list: the sort by
      time, the pass over the sorted messages and the finalisation loop, with
      what they establish about the messages as given. */
  method Tabulate(messages: seq<Message>, topN: nat, topEmojiN: nat)
    returns (t: Tally, conversations: seq<Summary>, longest: Option<ContactStreak>)
    requires messages != []
    ensures Tabulated(messages, topN, topEmojiN, t, conversations)
    ensures longest == BestStreak(conversations)
  {
    var ms := SortBy(messages, TimeOf);
    t := Scan(ms);
    ConvOrder(ms);
    conversations, longest := Finalize(t);
    StatsFacts(messages, topN, topEmojiN, t, conversations);
  }

  /** Without messages the statistics are the empty ones. */
  lemma EmptyStatsHold(topN: nat, topEmojiN: nat)
    ensures ListsConversations([], [])
    ensures TopBy([], NegTotal, topN) == [] && BestStreak([]) == None
    ensures IsBusiestDay([], None) && TopEmojiOf([], [], topEmojiN)
  {
  }

  /** `compute_stats(messages, top_n=15, top_emoji_n=10)`. The finalised
      table, local to the source function, is returned as `conversations`. */
  method ComputeStats(messages: seq<Message>, topN: nat := DEFAULT_TOP_N, topEmojiN: nat := DEFAULT_TOP_EMOJI_N)
    returns (stats: PeriodStats, conversations: seq<Summary>)
    ensures messages == [] ==> stats == EmptyStats && conversations == []
    ensures stats.totalMessages == |messages|
    ensures stats.sentCount == Sum(messages, SentMessage)
    ensures stats.receivedCount == Sum(messages, ReceivedMessage)
    ensures messages != [] ==> && stats.startDate.Some? && IsFirstDay(messages, stats.startDate.value)
                               && stats.endDate.Some? && IsLastDay(messages, stats.endDate.value)
    ensures ListsConversations(messages, conversations)
    ensures stats.topContacts == TopBy(conversations, NegTotal, topN)
    ensures stats.topContact == Head(stats.topContacts)
    ensures messages != [] && topN > 0 ==> stats.topContact.Some? && IsTopContact(conversations, stats.topContact.value)
    ensures stats.longestContactStreak == BestStreak(conversations)
    ensures messages != [] ==> stats.longestContactStreak.Some?
    ensures IsBusiestDay(messages, stats.busiestDay)
    ensures TopEmojiOf(messages, stats.topEmoji, topEmojiN)
  {
    if messages == [] {
      EmptyStatsHold(topN, topEmojiN);
      return EmptyStats, [];
    }
    var t, longest;
    t, conversations, longest := Tabulate(messages, topN, topEmojiN);

    var topContacts := TopBy(conversations, NegTotal, topN);
    var topContact := Head(topContacts);

    var busiestDay := None;
    var best := t.days.MostCommonKey();
    if best.Some? {
      busiestDay := Some(BusiestDay(best.value, t.days.Get(best.value)));
    }

    var startDate := MinOf(t.allDates);
    var endDate := MaxOf(t.allDates);
    var topEmoji := TopBy(EmojiItems(t.emoji), NegCount, topEmojiN);

    stats := PeriodStats(|messages|, t.sent, t.received, Some(startDate), Some(endDate),
                         topContacts, topContact, busiestDay, longest, topEmoji);
  }
}
