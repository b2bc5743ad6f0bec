/** The address normalisers that put phone numbers and e-mail addresses from
    the message database and the contacts database into one comparable form
    (`normalize_phone`, `normalize_email`, `normalize_address`). */
module Addresses {
  import opened Text

  /** The digits of s, in order: the join over the characters passing `isdigit()`. */
  function Digits(s: string): (r: string)
    ensures |r| <= |s| && AllDigits(r)
    ensures AllDigits(s) ==> r == s
    decreases |s|
  {
    if s == [] then []
    else
      var front := s[..|s| - 1];
      var last := s[|s| - 1];
      assert s == front + [last];
      Digits(front) + (if IsDigit(last) then [last] else [])
  }

  /** Every digit of s is kept, as often as it occurs in s. */
  lemma {:induction false} DigitsKept(s: string)
    ensures forall c :: IsDigit(c) ==> multiset(Digits(s))[c] == multiset(s)[c]
    decreases |s|
  {
    if s != [] {
      var front, last := s[..|s| - 1], s[|s| - 1];
      assert s == front + [last];
      DigitsKept(front);
    }
  }

  lemma {:induction false} DigitsConcat(a: string, b: string)
    ensures Digits(a + b) == Digits(a) + Digits(b)
    decreases |b|
  {
    if b == [] {
      assert a + b == a;
    } else {
      assert (a + b)[..|a + b| - 1] == a + b[..|b| - 1];
      DigitsConcat(a, b[..|b| - 1]);
    }
  }

  /** `normalize_phone`: the digits of the number, without the leading
      country code "1" when more than ten digits remain. Only digits come out,
      never more characters than went in, and at most one leading '1' is
      dropped, only from a number of more than ten digits. */
  function NormalizePhone(raw: string): (r: string)
    ensures AllDigits(r) && |r| <= |raw|
    ensures r == Digits(raw) <==> !(|Digits(raw)| > 10 && Digits(raw)[0] == '1')
    ensures r != Digits(raw) ==> ['1'] + r == Digits(raw) && |r| >= 10
  {
    if raw == [] then ""
    else
      var digits := Digits(raw);
      if |digits| > 10 && digits[0] == '1' then digits[1..] else digits
  }

  /** A number written with the US country code and the same number written
      without it normalise alike, whatever punctuation either carries. */
  lemma CountryCodeDropped(withCode: string, without: string)
    requires Digits(withCode) == "1" + Digits(without)
    requires |Digits(without)| == 10
    ensures NormalizePhone(withCode) == NormalizePhone(without) == Digits(without)
  {
    assert withCode != [] && without != [];
    assert ("1" + Digits(without))[1..] == Digits(without);
  }

  /** `normalize_email`: surrounding whitespace removed, letters lower-cased. */
  function NormalizeEmail(raw: string): (r: string)
    ensures |r| <= |raw|
    ensures r != [] ==> !IsSpace(r[0]) && !IsSpace(r[|r| - 1])
    ensures forall i :: 0 <= i < |r| ==> !('A' <= r[i] <= 'Z')
    ensures |r| == |Strip(raw)| && forall i :: 0 <= i < |r| ==> r[i] == LowerChar(Strip(raw)[i])
  {
    if raw == [] then ""
    else
      StripSpec(raw);
      Lower(Strip(raw))
  }

  /** Normalising an e-mail address twice gives the same as once. */
  lemma {:induction false} NormalizeEmailIdempotent(raw: string)
    ensures NormalizeEmail(NormalizeEmail(raw)) == NormalizeEmail(raw)
  {
    var r := NormalizeEmail(raw);
    if r != [] {
      var stripped := Strip(raw);
      assert r == Lower(stripped);
      StripOfStripped(r);
      LowerIdempotent(stripped);
    }
  }

  /** `normalize_address`: an address holding '@' is an e-mail address, any
      other is a phone number. The result keeps an '@' exactly when the input
      had one, so the kind of address can be read back from it; a phone
      number comes out as digits only. */
  function NormalizeAddress(raw: string): (r: string)
    ensures '@' in r <==> '@' in raw
    ensures '@' !in raw ==> AllDigits(r)
    ensures raw == [] ==> r == []
    ensures '@' in raw ==> r == NormalizeEmail(raw)
    ensures '@' !in raw ==> r == NormalizePhone(raw)
  {
    if raw == [] then ""
    else if '@' in raw then
      EmailKeepsAt(raw);
      NormalizeEmail(raw)
    else NormalizePhone(raw)
  }

  lemma {:induction false} EmailKeepsAt(raw: string)
    requires raw != [] && '@' in raw
    ensures '@' in NormalizeEmail(raw)
  {
    StripKeepsNonSpace(raw, '@');
    var stripped := Strip(raw);
    assert multiset(stripped)['@'] > 0;
    var i :| 0 <= i < |stripped| && stripped[i] == '@';
    assert Lower(stripped)[i] == '@';
  }

  /** Normalising an e-mail address twice gives the same as once. */
  lemma {:induction false} NormalizeAddressIdempotentOnEmail(raw: string)
    requires '@' in raw
    ensures NormalizeAddress(NormalizeAddress(raw)) == NormalizeAddress(raw)
  {
    var r := NormalizeAddress(raw);
    assert r == NormalizeEmail(raw);
    assert '@' in r;
    NormalizeEmailIdempotent(raw);
  }

  /** Phone normalisation is not idempotent: a number with several leading
      ones loses one '1' on every pass. */
  lemma NormalizePhoneNotIdempotent()
    ensures NormalizePhone(NormalizePhone("111111111111")) != NormalizePhone("111111111111")
  {
    assert Digits("111111111111") == "111111111111";
    assert NormalizePhone("111111111111") == "11111111111";
    assert Digits("11111111111") == "11111111111";
    assert NormalizePhone("11111111111") == "1111111111";
  }
}
