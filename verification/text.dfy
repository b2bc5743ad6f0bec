/** The string operations the statistics engine and the address normalisers
    use: Python's whitespace test, `str.strip()`, `str.split()`, an ASCII
    `str.lower()`, the digit test, the emoji character class and the decimal
    rendering of integers in f-strings. */
module Text {

  /** Python's `str.isspace()`: the characters `strip()` and `split()` treat
      as whitespace (the ASCII controls 9-13 and 28-31, the space, and the
      Unicode spaces and separators). */
  predicate IsSpace(c: char) {
    c in SPACES
  }

  const SPACES: set<char> := {
    '\t', '\n', '\U{0B}', '\U{0C}', '\r', '\U{1C}', '\U{1D}', '\U{1E}', '\U{1F}', ' ',
    '\U{85}', '\U{A0}', '\U{1680}',
    '\U{2000}', '\U{2001}', '\U{2002}', '\U{2003}', '\U{2004}', '\U{2005}',
    '\U{2006}', '\U{2007}', '\U{2008}', '\U{2009}', '\U{200A}',
    '\U{2028}', '\U{2029}', '\U{202F}', '\U{205F}', '\U{3000}'
  }

  predicate IsDigit(c: char) {
    '0' <= c <= '9'
  }

  predicate AllSpace(s: string) {
    forall i :: 0 <= i < |s| ==> IsSpace(s[i])
  }

  // ---------------------------------------------------------------------------
  // strip

  /** s without its leading whitespace. */
  function TrimStart(s: string): string {
    if s != [] && IsSpace(s[0]) then TrimStart(s[1..]) else s
  }

  lemma {:induction false} TrimStartSpec(s: string)
    ensures var r := TrimStart(s);
      && |r| <= |s| && r == s[|s| - |r|..]
      && (forall k :: 0 <= k < |s| - |r| ==> IsSpace(s[k]))
      && (r != [] ==> !IsSpace(r[0]))
    decreases |s|
  {
    if s != [] && IsSpace(s[0]) {
      TrimStartSpec(s[1..]);
    }
  }

  /** s without its trailing whitespace. */
  function TrimEnd(s: string): string {
    if s != [] && IsSpace(s[|s| - 1]) then TrimEnd(s[..|s| - 1]) else s
  }

  lemma {:induction false} TrimEndSpec(s: string)
    ensures var r := TrimEnd(s);
      && |r| <= |s| && r == s[..|r|]
      && (forall k :: |r| <= k < |s| ==> IsSpace(s[k]))
      && (r != [] ==> !IsSpace(r[|r| - 1]))
    decreases |s|
  {
    if s != [] && IsSpace(s[|s| - 1]) {
      TrimEndSpec(s[..|s| - 1]);
    }
  }

  /** r is the slice s[i..i + |r|] and everything around it is whitespace. */
  ghost predicate StripsAt(s: string, r: string, i: int) {
    && 0 <= i <= |s| - |r|
    && s[i..i + |r|] == r
    && (forall k :: 0 <= k < i ==> IsSpace(s[k]))
    && (forall k :: i + |r| <= k < |s| ==> IsSpace(s[k]))
  }

  /** r is s with only whitespace removed at both ends, and none left there. */
  ghost predicate IsStripOf(s: string, r: string) {
    && (r != [] ==> !IsSpace(r[0]) && !IsSpace(r[|r| - 1]))
    && exists i :: StripsAt(s, r, i)
  }

  /** Python's `str.strip()` with no argument. */
  function Strip(s: string): string {
    TrimEnd(TrimStart(s))
  }

  /** `strip()` removes whitespace, and only whitespace, from both ends and
      leaves none there; it leaves nothing exactly when s is all whitespace. */
  lemma {:induction false} StripSpec(s: string)
    ensures IsStripOf(s, Strip(s))
    ensures Strip(s) == [] <==> AllSpace(s)
  {
    var a := TrimStart(s);
    TrimStartSpec(s);
    TrimEndSpec(a);
    TrimBoth(s, a, TrimEnd(a), |s| - |a|);
  }

  lemma {:induction false} TrimBoth(s: string, a: string, r: string, i: int)
    requires |a| <= |s| && i == |s| - |a| && a == s[i..] && (forall k :: 0 <= k < i ==> IsSpace(s[k]))
    requires |r| <= |a| && r == a[..|r|] && (forall k :: |r| <= k < |a| ==> IsSpace(a[k]))
    requires r != [] ==> !IsSpace(r[0]) && !IsSpace(r[|r| - 1])
    ensures StripsAt(s, r, i)
    ensures r == [] <==> AllSpace(s)
  {
    assert s[i..i + |r|] == r;
    forall k | i + |r| <= k < |s| ensures IsSpace(s[k]) {
      assert s[k] == a[k - i];
    }
    if r == [] {
      forall k | 0 <= k < |s| ensures IsSpace(s[k]) {
        if k >= i { assert s[k] == a[k - i]; }
      }
    } else {
      assert s[i] == r[0];
    }
  }

  /** Stripping removes no character that is not whitespace. */
  lemma {:induction false} StripKeepsNonSpace(s: string, c: char)
    requires !IsSpace(c)
    ensures multiset(Strip(s))[c] == multiset(s)[c]
  {
    var r := Strip(s);
    StripSpec(s);
    var i :| StripsAt(s, r, i);
    StrippedSliceKeeps(s, r, i, c);
  }

  lemma {:induction false} StrippedSliceKeeps(s: string, r: string, i: int, c: char)
    requires StripsAt(s, r, i)
    requires !IsSpace(c)
    ensures multiset(r)[c] == multiset(s)[c]
  {
    var front, back := s[..i], s[i + |r|..];
    assert s == front + r + back;
    assert c !in front;
    assert c !in back;
    assert multiset(s) == multiset(front) + multiset(r) + multiset(back);
  }

  /** Stripping a string that has no whitespace at either end changes nothing. */
  lemma {:induction false} StripOfStripped(s: string)
    requires s != [] ==> !IsSpace(s[0]) && !IsSpace(s[|s| - 1])
    ensures Strip(s) == s
  {
    assert TrimStart(s) == s;
    assert TrimEnd(s) == s;
  }

  // ---------------------------------------------------------------------------
  // split

  /** The longest prefix of s holding no whitespace. */
  function WordAt(s: string): (w: string)
    ensures |w| <= |s| && w == s[..|w|]
    ensures forall k :: 0 <= k < |w| ==> !IsSpace(w[k])
    ensures |w| < |s| ==> IsSpace(s[|w|])
  {
    if s == [] || IsSpace(s[0]) then [] else [s[0]] + WordAt(s[1..])
  }

  /** The characters of s that are not whitespace, in order. */
  function NonSpace(s: string): string {
    if s == [] then [] else (if IsSpace(s[0]) then [] else [s[0]]) + NonSpace(s[1..])
  }

  function Concat(words: seq<string>): string {
    if words == [] then [] else words[0] + Concat(words[1..])
  }

  /** Python's `str.split()` with no separator: the maximal runs of
      non-whitespace characters, in order. Each word is non-empty and holds
      no whitespace, and together they are exactly the non-whitespace
      characters of s. */
  function Split(s: string): (words: seq<string>)
    ensures forall w :: w in words ==> w != [] && forall k :: 0 <= k < |w| ==> !IsSpace(w[k])
    ensures Concat(words) == NonSpace(s)
    decreases |s|
  {
    if s == [] then []
    else if IsSpace(s[0]) then Split(s[1..])
    else
      var w := WordAt(s);
      var rest := Split(s[|w|..]);
      WordNonSpace(s, |w|);
      assert ([w] + rest)[1..] == rest;
      [w] + rest
  }

  /** w sits in s at position i as a maximal run: whitespace or an end of s
      on both sides. */
  ghost predicate IsWordAt(s: string, w: string, i: int) {
    && 0 <= i && i + |w| <= |s|
    && s[i..i + |w|] == w
    && (i == 0 || IsSpace(s[i - 1]))
    && (i + |w| == |s| || IsSpace(s[i + |w|]))
  }

  /** Every word `split()` returns is a maximal run of non-whitespace
      characters of s, so no word is cut in two. */
  lemma {:induction false} SplitWordsMaximal(s: string, w: string)
    requires w in Split(s)
    ensures exists i :: IsWordAt(s, w, i)
    decreases |s|
  {
    if IsSpace(s[0]) {
      SplitWordsMaximal(s[1..], w);
      var j :| IsWordAt(s[1..], w, j);
      WordShift(s, 1, w, j);
    } else {
      var a := WordAt(s);
      if w == a {
        assert IsWordAt(s, w, 0);
      } else {
        var t := s[|a|..];
        SplitWordsMaximal(t, w);
        var j :| IsWordAt(t, w, j);
        WordShift(s, |a|, w, j);
      }
    }
  }

  /** words sit in s at the strictly increasing positions ps, each as a
      maximal run. */
  ghost predicate WordsAt(s: string, words: seq<string>, ps: seq<int>) {
    && |ps| == |words|
    && (forall a, b :: 0 <= a < b < |ps| ==> ps[a] < ps[b])
    && forall j :: 0 <= j < |ps| ==> IsWordAt(s, words[j], ps[j])
  }

  /** The words of `split()` are the maximal runs of s in the order they
      occur: word j sits at the j-th of a strictly increasing list of
      positions. With `WordCountIsSplitLength`, which counts the runs, this
      fixes the whole list. */
  lemma SplitRunsInOrder(s: string)
    ensures exists ps :: WordsAt(s, Split(s), ps)
  {
    var ps := SplitPositions(s);
  }

  /** The positions of the words of `split()`, found by the same recursion. */
  lemma {:induction false} SplitPositions(s: string) returns (ps: seq<int>)
    ensures WordsAt(s, Split(s), ps)
    decreases |s|
  {
    if s == [] {
      ps := [];
    } else if IsSpace(s[0]) {
      var rest := SplitPositions(s[1..]);
      ShiftWords(s, 1, Split(s[1..]), rest);
      ps := Shifted(rest, 1);
    } else {
      var a := WordAt(s);
      var t := s[|a|..];
      assert Split(s) == [a] + Split(t);
      var rest := SplitPositions(t);
      ShiftWords(s, |a|, Split(t), rest);
      assert IsWordAt(s, a, 0);
      ConsWord(s, a, Split(t), Shifted(rest, |a|));
      ps := [0] + Shifted(rest, |a|);
    }
  }

  /** A maximal run at the start of s goes before runs found later. */
  lemma ConsWord(s: string, a: string, words: seq<string>, qs: seq<int>)
    requires WordsAt(s, words, qs) && IsWordAt(s, a, 0)
    requires forall j :: 0 <= j < |qs| ==> qs[j] > 0
    ensures WordsAt(s, [a] + words, [0] + qs)
  {
    var ws, ps := [a] + words, [0] + qs;
    forall i, j | 0 <= i < j < |ps| ensures ps[i] < ps[j] {
      assert ps[j] == qs[j - 1];
      if i > 0 {
        assert ps[i] == qs[i - 1];
      }
    }
    forall j | 0 <= j < |ps| ensures IsWordAt(s, ws[j], ps[j]) {
      if j > 0 {
        assert ws[j] == words[j - 1] && ps[j] == qs[j - 1];
      }
    }
  }

  /** Every position moved on by off. */
  function Shifted(ps: seq<int>, off: int): (qs: seq<int>)
    ensures |qs| == |ps| && forall i :: 0 <= i < |ps| ==> qs[i] == ps[i] + off
  {
    seq(|ps|, i requires 0 <= i < |ps| => ps[i] + off)
  }

  /** Maximal runs found in a suffix of s are maximal runs of s, at positions
      moved on by the length of the cut. */
  lemma ShiftWords(s: string, off: nat, words: seq<string>, ps: seq<int>)
    requires off <= |s| && WordsAt(s[off..], words, ps)
    requires forall w :: w in words ==> w != [] && !IsSpace(w[0])
    requires words != [] && 0 < off ==> IsSpace(s[off - 1]) || (off < |s| && IsSpace(s[off]))
    ensures WordsAt(s, words, Shifted(ps, off))
  {
    forall j | 0 <= j < |ps| ensures IsWordAt(s, words[j], ps[j] + off) {
      assert words[j] in words;
      WordShift(s, off, words[j], ps[j]);
    }
  }

  /** A maximal run found in a suffix of s, preceded by whitespace there or
      by whitespace at the cut, is a maximal run of s. */
  lemma WordShift(s: string, off: nat, w: string, j: int)
    requires off <= |s| && IsWordAt(s[off..], w, j)
    requires w != [] && !IsSpace(w[0])
    requires 0 < off ==> IsSpace(s[off - 1]) || IsSpace(s[off])
    ensures IsWordAt(s, w, off + j)
  {
    assert s[off + j..off + j + |w|] == s[off..][j..j + |w|];
    if j == 0 && off > 0 {
      assert s[off] == w[0];
    }
  }

  lemma {:induction false} WordNonSpace(s: string, n: nat)
    requires n <= |s| && forall k :: 0 <= k < n ==> !IsSpace(s[k])
    ensures NonSpace(s) == s[..n] + NonSpace(s[n..])
    decreases n
  {
    if n > 0 {
      WordNonSpace(s[1..], n - 1);
      assert s[1..][n - 1..] == s[n..];
      assert s[..n] == [s[0]] + s[1..][..n - 1];
    }
  }

  /** The number of words of s, counted as the places where a word starts;
      `WordCountIsSplitLength` shows it is Python's `len(s.split())`. */
  function WordCount(s: string): nat {
    WordStarts(true, s)
  }

  /** Counts the whitespace-to-word transitions of s, scanning left to right
      (`afterSpace` says whether the previous character was whitespace). */
  function WordStarts(afterSpace: bool, s: string): nat
    decreases |s|
  {
    if s == [] then 0
    else (if afterSpace && !IsSpace(s[0]) then 1 else 0) + WordStarts(IsSpace(s[0]), s[1..])
  }

  /** `len(s.split())`: the number of words `split()` returns is the word count. */
  lemma {:induction false} WordCountIsSplitLength(s: string)
    ensures |Split(s)| == WordCount(s)
    decreases |s|
  {
    if s == [] {
    } else if IsSpace(s[0]) {
      WordCountIsSplitLength(s[1..]);
    } else {
      var w := WordAt(s);
      WordCountIsSplitLength(s[|w|..]);
      InsideWord(s[1..], |w| - 1);
      assert s[1..][|w| - 1..] == s[|w|..];
    }
  }

  lemma {:induction false} InsideWord(s: string, n: nat)
    requires n <= |s|
    requires forall k :: 0 <= k < n ==> !IsSpace(s[k])
    requires n < |s| ==> IsSpace(s[n])
    ensures WordStarts(false, s) == WordStarts(true, s[n..])
    decreases n
  {
    if n > 0 {
      InsideWord(s[1..], n - 1);
      assert s[1..][n - 1..] == s[n..];
    }
  }

  /** Whitespace in front of a text starts no word. */
  lemma {:induction false} LeadingSpaceNoWord(p: string, r: string)
    requires AllSpace(p)
    ensures WordStarts(true, p + r) == WordStarts(true, r)
    decreases |p|
  {
    if p == [] {
      assert p + r == r;
    } else {
      assert (p + r)[0] == p[0] && (p + r)[1..] == p[1..] + r;
      LeadingSpaceNoWord(p[1..], r);
    }
  }

  /** Whitespace after a text starts no word. */
  lemma {:induction false} TrailingSpaceNoWord(b: bool, r: string, q: string)
    requires AllSpace(q)
    ensures WordStarts(b, r + q) == WordStarts(b, r)
    decreases |r| + |q|
  {
    if r == [] {
      assert r + q == q;
      if q != [] {
        assert [] + q[1..] == q[1..];
        TrailingSpaceNoWord(true, [], q[1..]);
      }
    } else {
      assert (r + q)[0] == r[0] && (r + q)[1..] == r[1..] + q;
      TrailingSpaceNoWord(IsSpace(r[0]), r[1..], q);
    }
  }

  /** Stripping does not change the word count: `len(s.strip().split()) == len(s.split())`. */
  lemma {:induction false} StripKeepsWordCount(s: string)
    ensures WordCount(Strip(s)) == WordCount(s)
  {
    var r := Strip(s);
    StripSpec(s);
    var i :| StripsAt(s, r, i);
    SpacesAroundNoWord(s, r, i);
  }

  lemma {:induction false} SpacesAroundNoWord(s: string, r: string, i: int)
    requires StripsAt(s, r, i)
    ensures WordStarts(true, s) == WordStarts(true, r)
  {
    var front, back := s[..i], s[i + |r|..];
    assert s == front + (r + back);
    forall k | 0 <= k < |front| ensures IsSpace(front[k]) {
      assert front[k] == s[k];
    }
    forall k | 0 <= k < |back| ensures IsSpace(back[k]) {
      assert back[k] == s[i + |r| + k];
    }
    LeadingSpaceNoWord(front, r + back);
    TrailingSpaceNoWord(true, r, back);
  }

  // ---------------------------------------------------------------------------
  // lower

  /** ASCII lower-casing of one character. */
  function LowerChar(c: char): (r: char)
    ensures !('A' <= r <= 'Z')
    ensures IsSpace(r) == IsSpace(c) && (r == '@') == (c == '@')
  {
    if 'A' <= c <= 'Z' then (c as int + 32) as char else c
  }

  /** `str.lower()`, restricted to ASCII letters. */
  function Lower(s: string): (r: string)
    ensures |r| == |s|
    ensures forall i :: 0 <= i < |r| ==> r[i] == LowerChar(s[i])
  {
    seq(|s|, i requires 0 <= i < |s| => LowerChar(s[i]))
  }

  lemma LowerIdempotent(s: string)
    ensures Lower(Lower(s)) == Lower(s)
  {
  }

  // ---------------------------------------------------------------------------
  // emoji

  /** The character class of the source's emoji matcher: the code points
      U+1F300..U+1FAFF, U+2700..U+27BF and U+2600..U+26FF. */
  predicate IsEmoji(c: char) {
    || ('\U{1F300}' <= c <= '\U{1FAFF}')
    || ('\U{2700}' <= c <= '\U{27BF}')
    || ('\U{2600}' <= c <= '\U{26FF}')
  }

  lemma EmojiIsNotSpace(c: char)
    requires IsEmoji(c)
    ensures !IsSpace(c)
  {
  }

  // ---------------------------------------------------------------------------
  // decimal rendering of integers (f-string interpolation)

  function DigitChar(d: nat): (c: char)
    requires d < 10
    ensures IsDigit(c)
  {
    ('0' as int + d) as char
  }

  function DigitValue(c: char): nat
    requires IsDigit(c)
  {
    c as int - '0' as int
  }

  predicate AllDigits(s: string) {
    forall i :: 0 <= i < |s| ==> IsDigit(s[i])
  }

  /** Reads a string of decimal digits. */
  function ParseDecimal(s: string): nat
    requires AllDigits(s)
  {
    if s == [] then 0 else ParseDecimal(s[..|s| - 1]) * 10 + DigitValue(s[|s| - 1])
  }

  /** `str(n)` for a natural number: non-empty, digits only, no leading zero,
      and reading it back gives n. */
  function NatToDecimal(n: nat): (r: string)
    ensures r != [] && AllDigits(r)
    ensures r[0] == '0' ==> r == "0"
    ensures ParseDecimal(r) == n
  {
    if n < 10 then [DigitChar(n)]
    else
      var r := NatToDecimal(n / 10) + [DigitChar(n % 10)];
      assert r[..|r| - 1] == NatToDecimal(n / 10);
      r
  }

  /** `str(n)` for an integer: a minus sign before the digits of |n| when n is negative. */
  function IntToDecimal(n: int): (r: string)
    ensures r != []
    ensures n < 0 <==> r[0] == '-'
    ensures n < 0 ==> AllDigits(r[1..]) && ParseDecimal(r[1..]) == -n
    ensures n >= 0 ==> AllDigits(r) && ParseDecimal(r) == n
    ensures n >= 0 && r[0] == '0' ==> r == "0"
    ensures n < 0 ==> |r| > 1 && r[1] != '0'
  {
    if n < 0 then "-" + NatToDecimal(-n) else NatToDecimal(n)
  }
}
