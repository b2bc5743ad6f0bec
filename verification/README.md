# iMessage Wrapped statistics, modelled in Dafny

iMessage Wrapped reads a copy of the macOS Messages database, puts each
message into a record, and computes a "Wrapped" summary of a period with
`compute_stats`. A record holds the direction, the time, the conversation
key, the conversation name and the text. The summary has these parts:

- the totals, and the sent and received counts;
- the first and last date;
- the top contacts by message count;
- the longest run of consecutive active days with one contact;
- the busiest day;
- the most used emoji.

The model covers this statistics engine. It also covers the address
normalisers and the naming of group chats, which decide how messages are
grouped into conversations.

The modules follow the program's structure:

- `Seqs` holds Python's building blocks as the engine uses them. These are:
  - the stable `sorted` (`SortBy`);
  - "the first n of a stable sort", for `sorted(...)[:n]` and
    `Counter.most_common(n)` (`TopBy`);
  - `collections.Counter` with its insertion order (`Counter`);
  - `min`/`max` over a list.
- `Text` holds:
  - `str.isspace`, `str.strip()`, `str.split()` and an ASCII `str.lower()`;
  - the emoji character class `EMOJI_RE`;
  - the decimal rendering of integers inside f-strings.
- `Addresses` holds `normalize_phone`, `normalize_email` and
  `normalize_address`.
- `GroupNames` names a group chat. It uses the display name when that is not
  blank. Otherwise it de-duplicates the participant names and formats them.
- `Streaks` finds one conversation's longest streak. It sorts the active
  days and scans them once. The method is proved against `IsLongestRun`,
  which says the streak is a run of active days, no run is longer, and no
  equally long run starts earlier.
- `Aggregation` is the single pass over the time-sorted messages, as the
  method `Scan`. `Scan` is proved equal to the fold `Accumulate`. Lemmas
  about `Accumulate` relate every tallied field to the messages. These
  fields are:
  - per conversation: sent, received, total, text messages and words
    (counts over the messages), active days (the set of their days), the
    name from the first message, and the response times (the lists
    `YourGaps` and `TheirGaps`, defined directly over the messages);
  - the day counter, and the emoji counter with its insertion order (the
    order in which the emoji first occur in the stripped texts);
  - the list of dates.
- `Stats` finalises each conversation with the method `Finalize`: the
  averages and the streak, and the best contact streak. It then assembles
  the result. `ComputeStats` states the whole result in terms of the input
  messages, including every field of each conversation entry. Counts,
  days and dates are stated over the input as given. Some parts depend on
  time order, so they are stated over the input sorted by time:
  - the first name;
  - the response times;
  - the pairing registers left by a conversation's last message;
  - which tied emoji come first in `top_emoji`;
  - which tied emoji are kept at its cut-off.

Timestamps are whole seconds, and a message's day is its time divided by
86400. The response window of 48 hours is `48 * 3600` seconds. Averages are
exact fractions (`Ratio`), not floating point.

## Model

| member | source | states |
|---|---|---|
| Seqs.SortBy | imessage_wrapped.py:370 | the result is a permutation of the input, and elements with equal keys keep their relative order (stable sort) |
| Seqs.SortBySorted | imessage_wrapped.py:370 | the result of the stable sort is ordered by its key |
| Seqs.SumPermutation | imessage_wrapped.py:370 | reordering the messages changes no count over them |
| Seqs.TopBy | imessage_wrapped.py:511-513 | `sorted(...)[:n]`: it has min(n, len) elements and is ordered by key; it is a sub-multiset of the input; equal keys keep their input order; every left-out element ranks no better than the last kept one; taking all elements keeps all of them |
| Seqs.TopFirst | imessage_wrapped.py:511-514 | with n > 0 and a non-empty input, the head has the best key, and no element before it in the input has an equally good key |
| Seqs.TopByStable | imessage_wrapped.py:511-513 | `sorted(...)[:n]` is stable: two kept elements with equal keys stand in the input in the same order |
| Seqs.TopByKeepsEarlier | imessage_wrapped.py:511-513 | of the elements with one key, `sorted(...)[:n]` keeps those that come first: a left-out element stands in the input after every kept element with its key |
| Seqs.TopEntries | imessage_wrapped.py:511-513 | the top entries come from the input and repeat nothing when the input does not; an input element left out means n entries were kept, and none of them ranks below it |
| Seqs.MinOf | imessage_wrapped.py:522 | `min(all_dates)` is an element and is at most every element |
| Seqs.MaxOf | imessage_wrapped.py:523 | `max(all_dates)` is an element and is at least every element |
| Seqs.Counter.Add | imessage_wrapped.py:387 | `counter[k] += 1` raises k's count by one, leaves every other count unchanged, keeps the counter well formed, and appends k to the order only when it is new |
| Seqs.Counter.MostCommonKey | imessage_wrapped.py:519 | `max(counter.items(), key=count)`: none only for an empty counter; otherwise a key with the highest count, with every key before it in insertion order counting strictly less |
| Seqs.FirstPos | imessage_wrapped.py:239-244 | the first position of x holds x and no earlier position does; it is past the end exactly when x does not occur |
| Seqs.EmptyCounter | imessage_wrapped.py:373-374 | a fresh `Counter()` is well formed and counts zero for every key |
| Text.StripSpec | imessage_wrapped.py:436 | `strip()` removes exactly the leading and trailing whitespace; the result is empty exactly when the text is all whitespace |
| Text.StripOfStripped | imessage_wrapped.py:436 | stripping a text without surrounding whitespace leaves it unchanged |
| Text.StripKeepsNonSpace | imessage_wrapped.py:436-442 | stripping keeps every occurrence of a non-space character, so emoji are counted over the stripped text as over the original |
| Text.Split | imessage_wrapped.py:438 | `split()` yields non-empty words without whitespace, whose concatenation is the text with its whitespace removed; which runs they are, and in what order, is stated by `Text.SplitRunsInOrder` |
| Text.SplitWordsMaximal | imessage_wrapped.py:438 | every word of `split()` sits in the text as a maximal run: whitespace or an end of the text on both sides |
| Text.SplitRunsInOrder | imessage_wrapped.py:438 | the words of `split()` are maximal runs at strictly increasing positions, word j at the j-th, so they come in text order and none repeats a run |
| Text.WordCountIsSplitLength | imessage_wrapped.py:438 | the number of words counted by the aggregation is `len(text.split())` |
| Text.StripKeepsWordCount | imessage_wrapped.py:436-438 | stripping first does not change the word count |
| Text.Lower | imessage_wrapped.py:77 | `lower()` keeps the length and maps each character through the lower-case mapping |
| Text.LowerIdempotent | imessage_wrapped.py:77 | lower-casing twice is lower-casing once |
| Text.EmojiIsNotSpace | imessage_wrapped.py:25-27 | no character of the emoji class is whitespace |
| Text.NatToDecimal | imessage_wrapped.py:254 | the decimal rendering of a count is non-empty, all digits, has no leading zero, and parses back to the count |
| Text.IntToDecimal | imessage_wrapped.py:247 | the rendering of a row id has a minus sign exactly for negatives, and its digits parse back to the absolute value without a leading zero (only 0 itself starts with `0`) |
| Addresses.Digits | imessage_wrapped.py:67 | the kept characters are all digits, no more than the input, and an all-digit input is kept whole |
| Addresses.DigitsKept | imessage_wrapped.py:67 | every digit of the input is kept, as many times as it occurs |
| Addresses.DigitsConcat | imessage_wrapped.py:67 | extracting digits distributes over concatenation |
| Addresses.NormalizePhone | imessage_wrapped.py:64-71 | the result is all digits; it is the digits of the input unless they number more than 10 and start with 1, in which case exactly that leading 1 is dropped |
| Addresses.CountryCodeDropped | imessage_wrapped.py:68-70 | a US number written with the country code 1 and the same 10-digit number without it normalise to the same digits |
| Addresses.NormalizePhoneNotIdempotent | imessage_wrapped.py:68-70 | normalising twice can drop a second leading 1 (an input of twelve 1s) |
| Addresses.NormalizeEmail | imessage_wrapped.py:74-77 | the result is the stripped input with each character lower-cased, position by position; so it has no surrounding whitespace, no upper-case ASCII letter, and is no longer than the input |
| Addresses.NormalizeEmailIdempotent | imessage_wrapped.py:74-77 | normalising an e-mail address twice is normalising it once |
| Addresses.NormalizeAddress | imessage_wrapped.py:80-86 | an input with `@` is normalised as an e-mail address and any other as a phone number; so the result contains `@` exactly when the input does, an input without `@` becomes digits only, and the empty input stays empty |
| Addresses.EmailKeepsAt | imessage_wrapped.py:84-85 | e-mail normalisation keeps the `@` |
| Addresses.NormalizeAddressIdempotentOnEmail | imessage_wrapped.py:80-86 | normalising an e-mail address twice is normalising it once |
| GroupNames.DedupNames | imessage_wrapped.py:238-244 | the result has no repeated name, has the same names as the input, and lists them in the order of their first occurrence |
| GroupNames.GroupChatName | imessage_wrapped.py:246-254 | the name is "Group chat #id" for no names, the name itself for one, both names joined by ", " for two, and the first two plus " + k others" for more |
| GroupNames.GroupChatNameReadsBack | imessage_wrapped.py:246-254 | the numbers in a formatted name read back: the row id after "Group chat #", signed exactly when negative, and the count between "A, B + " and " others", which is the number of names beyond the first two |
| GroupNames.NameGroupChat | imessage_wrapped.py:223-254 | a non-blank display name is used as given; otherwise the name is formatted from the de-duplicated participant names |
| Streaks.LongestRunUnique | imessage_wrapped.py:478-491 | the longest, earliest run of a set of days is unique, so the specification determines the scan's result |
| Streaks.SortedDays | imessage_wrapped.py:472 | `sorted(days_active)` is strictly increasing and has exactly the active days |
| Streaks.LongestStreak | imessage_wrapped.py:471-495 | the streak is a run of active days; no run is longer; no run of equal length starts earlier; its length is between 1 and the number of active days, and it is none without active days |
| Streaks.ScanRuns | imessage_wrapped.py:473-491 | the scan over the sorted days ends with the length, start and end of the first longest block of consecutive days |
| Streaks.SpecFromPositions | imessage_wrapped.py:478-491 | the first longest block of consecutive positions in the sorted days is the longest, earliest run of days |
| Aggregation.CountEmojiCounts | imessage_wrapped.py:441-442 | counting a text's emoji raises each emoji's count by its occurrences in the text, and leaves other characters uncounted |
| Aggregation.UpdateEntry | imessage_wrapped.py:405-440 | the update of one conversation for one message is the step `Record` of the fold |
| Aggregation.CountEmojiIn | imessage_wrapped.py:441-442 | the emoji loop over a text is the counter step of the fold |
| Aggregation.EntryFor | imessage_wrapped.py:389-405 | an unseen conversation gets a fresh entry named after the message and is appended to the table order; a known one keeps its entry and the order |
| Aggregation.Absorb | imessage_wrapped.py:382-442 | one iteration of the main loop is one step of the fold |
| Aggregation.Scan | imessage_wrapped.py:381-442 | the main loop computes the fold of the step over the messages |
| Aggregation.DirectionsAddUp | imessage_wrapped.py:407-421 | every message is either sent or received, so the two counts add up to the number of messages |
| Aggregation.ConvOrder | imessage_wrapped.py:389-405 | the conversation table has no repeated key, and its order lists exactly its keys |
| Aggregation.FirstAtSpec | imessage_wrapped.py:389 | the first position of a conversation holds one of its messages and no earlier one does; it is past the end exactly when the conversation has no message |
| Aggregation.ConvOrderFirstSeen | imessage_wrapped.py:389-405 | the table order (dict insertion order) follows the position of each conversation's first message |
| Aggregation.ConvKeys | imessage_wrapped.py:389-405 | the table has an entry exactly for the conversations that have messages |
| Aggregation.Totals | imessage_wrapped.py:376-378 | the loop's sent and received counts are the numbers of sent and of received messages, and they add up to the number of messages |
| Aggregation.NoEntryNoMessage | imessage_wrapped.py:389 | a conversation without an entry has no message |
| Aggregation.EntryDirections | imessage_wrapped.py:407-421 | a conversation's sent and received counts are its numbers of sent and received messages |
| Aggregation.EntryTotals | imessage_wrapped.py:432-433 | a conversation's total and messages are equal, equal sent plus received, and equal its number of messages |
| Aggregation.EntryText | imessage_wrapped.py:436-440 | a conversation's text-message count is its number of messages whose text is not blank; its word count is the sum of their `split()` lengths; there are no more text messages than messages |
| Aggregation.RecordText | imessage_wrapped.py:436-440 | one message adds one text message exactly when its text is not all whitespace, and adds its word count |
| Aggregation.RecordFields | imessage_wrapped.py:432-434 | one message keeps the name, adds one to total and messages, and adds its day to the active days |
| Aggregation.EntryName | imessage_wrapped.py:389-391 | a conversation has an entry exactly when it has a message, and its name is the name on its first message in time order |
| Aggregation.EntryDays | imessage_wrapped.py:434 | a conversation's active days are exactly the days of its messages |
| Aggregation.TotalsAddUp | imessage_wrapped.py:432 | the conversations' totals add up to the number of messages |
| Aggregation.RecordPaired | imessage_wrapped.py:407-430 | one message keeps the pairing bookkeeping; afterwards only the register of its own direction is set, and it holds the message's time |
| Aggregation.RecordGaps | imessage_wrapped.py:407-430 | with registers that reflect the conversation's last message, one message appends to its direction's response times exactly its gap from that last message when the last one came from the other side and the gap is within 48 hours, and the registers then reflect the new message |
| Aggregation.EntryGaps | imessage_wrapped.py:407-430 | a conversation's two response-time lists are `YourGaps` and `TheirGaps` of the messages: for each of your (their) messages whose previous message in the conversation was theirs (yours) and at most 48 hours older, the gap, in message order |
| Aggregation.EntryPaired | imessage_wrapped.py:407-430 | in every conversation, exactly one register is set; there are no more of your response times than received messages, and no more of theirs than sent messages |
| Aggregation.RegistersBounded | imessage_wrapped.py:418-430 | a pending register never holds a time later than every message seen |
| Aggregation.RecordInWindow | imessage_wrapped.py:411-416 | a response time is recorded only when it lies between 0 and 48 hours |
| Aggregation.ResponseTimesInWindow | imessage_wrapped.py:407-430 | over time-sorted messages, every recorded response time lies between 0 and 48 hours |
| Aggregation.DayCounts | imessage_wrapped.py:385-387 | the day counter counts, for every day, the messages on that day |
| Aggregation.DayOrder | imessage_wrapped.py:370 | over time-sorted messages, the day counter's insertion order is strictly increasing and ends with the last message's day |
| Aggregation.AllDates | imessage_wrapped.py:384-386 | `all_dates` has one day per message, in message order |
| Aggregation.EmojiCounts | imessage_wrapped.py:436-442 | the emoji counter counts, for every character, its occurrences as an emoji in the messages' texts |
| Aggregation.EmojiOrderSnoc | imessage_wrapped.py:441-442 | one more scanned character keeps the counter's insertion order the order of first occurrence: a new emoji goes last |
| Aggregation.CountEmojiOrder | imessage_wrapped.py:441-442 | counting the emoji of a text after earlier ones keeps the insertion order the order of first occurrence in all the text scanned |
| Aggregation.EmojiOrder | imessage_wrapped.py:436-442 | the emoji counter lists exactly the emoji of the stripped texts, each once, in the order of their first occurrence |
| Stats.IntSumInWindow | imessage_wrapped.py:455-464 | a sum of response times within the window is between 0 and their number times the window |
| Stats.MeanInWindow | imessage_wrapped.py:455-464 | the average response time is none exactly for no response times, and otherwise lies within the window |
| Stats.BestStreak | imessage_wrapped.py:497-504 | none exactly when no conversation has a streak; otherwise it is the streak of a conversation with the longest streak, and every conversation before it has a strictly shorter one, so the first wins ties |
| Stats.BestStreakSnoc | imessage_wrapped.py:497-504 | one more conversation replaces the best streak only when its streak is strictly longer |
| Stats.Summarize | imessage_wrapped.py:449-508 | one conversation's finalisation: its active-day count, the average length, both average response times (none when empty) and its longest streak |
| Stats.Finalize | imessage_wrapped.py:448-508 | one summary per conversation, in table order, and the best contact streak over them |
| Stats.TopEmojiRanks | imessage_wrapped.py:526-529 | `most_common(n)` has min(n, number of emoji) entries; counts do not increase; no emoji repeats; each count is the counter's; a left-out emoji means n were kept, and it counts no more than the last |
| Stats.TopEmojiTies | imessage_wrapped.py:526-529 | in `most_common(n)`, of two emoji with equal counts the one that first occurs earlier in the scanned text comes first |
| Stats.TopEmojiCut | imessage_wrapped.py:526-529 | at the cut-off of `most_common(n)`, an emoji left out with the same count as a kept one first occurs in the scanned text after it |
| Stats.EmojiCutTransfer | imessage_wrapped.py:526-529 | with the counter built over the time-sorted messages, the cut-off rule holds for the input's emoji counts and the time-sorted stripped texts |
| Stats.TopContact | imessage_wrapped.py:511-514 | the top contact has the most messages, and no conversation before it in the table has as many |
| Stats.BusiestIsEarliest | imessage_wrapped.py:516-520 | over day keys inserted in increasing order, the busiest day has the highest count, and every earlier day counts strictly less |
| Stats.FirstNotAfterLast | imessage_wrapped.py:522-523 | the start date is never after the end date |
| Stats.SummaryDescribes | imessage_wrapped.py:448-508 | a summary of the table describes its conversation in terms of the input messages: the name of its earliest message; its sent, received and total counts; its active days and their number; its text-message and word counts, and their average; its response-time lists, equal to the gaps over the time-sorted messages, with their means; the pairing registers, holding the time of the conversation's last message in time order in that message's direction only; and its longest streak |
| Stats.TableLists | imessage_wrapped.py:448-508 | the finalised table lists every conversation of the messages once, in the order of first messages |
| Stats.StreakExists | imessage_wrapped.py:497-504 | with at least one message some conversation has a streak, so the best contact streak is not none |
| Stats.CountsTransfer | imessage_wrapped.py:370-378 | the sent and received counts over the sorted messages are those of the input |
| Stats.DatesTransfer | imessage_wrapped.py:522-523 | `min` and `max` of `all_dates` are the first and last days of the input messages |
| Stats.BusiestTransfer | imessage_wrapped.py:516-520 | the busiest day is a day with the most input messages, and every earlier day has fewer |
| Stats.EmojiTransfer | imessage_wrapped.py:526-529 | the top emoji rank the input messages' emoji |
| Stats.StatsFacts | imessage_wrapped.py:370-529 | every part of the assembled statistics describes the input messages |
| Stats.Tabulate | imessage_wrapped.py:370-508 | the sort, the main loop and the finalisation produce a table and counters with all those properties |
| Stats.EmptyStatsHold | imessage_wrapped.py:355-367 | the empty result satisfies every property stated for the non-empty one |
| Stats.ComputeStats | imessage_wrapped.py:345-542 | the empty input gives the empty result. Otherwise: the total is the number of messages; sent and received are counted; the start and end dates are the first and last days; the table lists each conversation once in first-message order; the top contacts are the stable top n by total; the top contact is their head and has the most messages; each conversation's summary is as `Stats.SummaryDescribes` states, response times included; the longest streak is the first longest one and exists; the busiest day is the earliest day with the most messages; the top emoji rank the emoji counts; among equal counts the emoji used first in the time-sorted stripped texts comes first, and it is the one kept at the cut-off |

## Left out

- The web page and the Flask route are not modelled. Neither are reading
  the Messages and contacts databases, the SQL queries, copying the
  database, or decoding `attributedBody`. The records are given as a
  sequence of `Message` values.
- `apple_date_to_datetime` is not modelled. Its heuristics about time units
  are replaced by times already in whole seconds; sub-second parts of a
  timestamp are not modelled.
- Float arithmetic is not modelled. Response times are kept as whole
  seconds rather than fractional hours. `avg_length` and the average
  response times are exact fractions rather than rounded floats. The window
  test is `time_diff <= 48` hours, as in the code; the comment next to it
  says 24 hours, and the model follows the code.
- Stats.Summarize: the debug `print` for conversations with many messages
  and no text is not modelled, because it has no effect on the result.
- Text.Lower and Addresses.Digits: `str.lower()` and `str.isdigit()` are
  modelled on ASCII letters and digits only. Python's full Unicode case
  mapping and digit classes are not.
- A missing text (`None`) is the empty string, as `msg["text"] or ""` makes
  it. A missing display name is the empty string too.
- Stats.ComputeStats: `top_n` and `top_emoji_n` are natural numbers. Python's
  slicing with a negative bound is not modelled. Their defaults 15 and 10
  are the parameters' default values `DEFAULT_TOP_N` and
  `DEFAULT_TOP_EMOJI_N`.
- Stats.EmojiTransfer: it states the counts, ranks and bounds of the top
  emoji in terms of the input messages. It does not state the order among
  emoji with equal counts, or which of them are kept at the cut-off.
  `Stats.TopEmojiTies` and `Stats.EmojiCutTransfer`, with
  `Aggregation.EmojiOrder`, state both, and `Stats.ComputeStats` promises
  both.
- The naming of one-on-one chats and the lookup of contact names are not
  modelled. They are database queries with dictionary lookups.
- The per-conversation dictionary entries also get
  `streak_start`/`streak_end` set to `None` for a conversation without
  active days. The model's `NoStreak` stands for that case, which cannot
  occur for a conversation that has a message.
