/**
 * The text-level parts of reading Last.fm's HTML pages, once the document
 * has been reduced to the texts and attributes the parser selects: count
 * texts, the "Page 1 of 42" pagination text and a row's play count.
 */
module PageParsing {
  import opened Wrappers
  import opened Text
  import opened LastFmTypes

  /** `extract_number_from_count_text`: commas dropped, the first word read as a `u32`. */
  function CountTextNumber(text: string): (r: Option<nat>)
    ensures r.Some? ==> r.value <= U32_MAX
  {
    var cleaned := RemoveChar(text, ',');
    match FirstToken(cleaned)
    case None => None
    case Some(word) => ParseU32(word)
  }

  /** The first word of a space-free word followed by a space is that word. */
  lemma {:induction false} FirstTokenOfWord(word: string, rest: string)
    requires |word| > 0 && (forall i :: 0 <= i < |word| ==> !IsSpace(word[i]))
    requires |rest| > 0 && IsSpace(rest[0])
    ensures FirstToken(word + rest) == Some(word)
  {
    assert TrimStart(word + rest) == word + rest by {
      assert (word + rest)[0] == word[0];
    }
    TakeWordPrefix(word, rest);
  }

  lemma {:induction false} TakeWordPrefix(word: string, rest: string)
    requires (forall i :: 0 <= i < |word| ==> !IsSpace(word[i]))
    requires |rest| > 0 && IsSpace(rest[0])
    ensures TakeWord(word + rest) == word
    decreases |word|
  {
    if |word| == 0 {
      assert word + rest == rest;
    } else {
      assert (word + rest)[1..] == word[1..] + rest;
      TakeWordPrefix(word[1..], rest);
    }
  }

  /** Digits followed by a comma-free word read as their value, when it fits a `u32`. */
  lemma CountTextDigits(digits: string, word: string)
    requires |digits| > 0 && AllDigits(digits) && DigitsValue(digits) <= U32_MAX && ',' !in word
    ensures CountTextNumber(digits + " " + word) == Some(DigitsValue(digits))
  {
    LeadingDigitsToken(digits, word);
    ParseU32Digits(digits);
    CountTextOfToken(digits + " " + word, digits);
  }

  /** Digits, a space and a comma-free word have no comma and the digits as their first word. */
  lemma LeadingDigitsToken(digits: string, word: string)
    requires |digits| > 0 && AllDigits(digits) && ',' !in word
    ensures ',' !in digits + " " + word && FirstToken(digits + " " + word) == Some(digits)
  {
    var rest := " " + word;
    assert digits + " " + word == digits + rest;
    assert ',' !in rest;
    DigitsNotSpace(digits);
    FirstTokenOfWord(digits, rest);
  }

  /** Digits whose value fits a `u32` parse as that value. */
  lemma ParseU32Digits(digits: string)
    requires |digits| > 0 && AllDigits(digits) && DigitsValue(digits) <= U32_MAX
    ensures ParseU32(digits) == Some(DigitsValue(digits))
  {
    assert IsDigit(digits[0]);
  }

  /** A comma-free text is read through its first word. */
  lemma CountTextOfToken(text: string, word: string)
    requires ',' !in text && FirstToken(text) == Some(word)
    ensures CountTextNumber(text) == ParseU32(word)
  {
    assert RemoveChar(text, ',') == text;
  }

  /** A number followed by a comma-free word reads back as itself. */
  lemma CountTextRoundTrip(n: nat, word: string)
    requires n <= U32_MAX && ',' !in word
    ensures CountTextNumber(NatToString(n) + " " + word) == Some(n)
  {
    NatToStringValue(n);
    CountTextDigits(NatToString(n), word);
  }

  /** Thousands separators do not change the number read. */
  lemma CountTextIgnoresCommas(text: string)
    ensures CountTextNumber(RemoveChar(text, ',')) == CountTextNumber(text)
  {
    var once := RemoveChar(text, ',');
    assert RemoveChar(once, ',') == once;
  }

  /** Removing a character from two texts in a row removes it from each. */
  lemma {:induction false} RemoveCharAppend(a: string, b: string, c: char)
    ensures RemoveChar(a + b, c) == RemoveChar(a, c) + RemoveChar(b, c)
    decreases |a|
  {
    if |a| == 0 {
      assert a + b == b;
    } else {
      assert (a + b)[1..] == a[1..] + b;
      RemoveCharAppend(a[1..], b, c);
    }
  }

  lemma NoCommaInDigits(digits: string)
    requires AllDigits(digits)
    ensures ',' !in digits
  {
    forall i | 0 <= i < |digits| ensures digits[i] != ',' { assert IsDigit(digits[i]); }
  }

  /** Removing the one comma between two comma-free texts joins them. */
  lemma DropSeparator(high: string, low: string, tail: string)
    requires ',' !in high && ',' !in low && ',' !in tail
    ensures RemoveChar(high + ("," + (low + tail)), ',') == high + (low + tail)
  {
    RemoveCharAppend(low, tail, ',');
    RemoveCharAppend(",", low + tail, ',');
    assert RemoveChar(",", ',') == "" by { assert ","[1..] == ""; }
    RemoveCharAppend(high, "," + (low + tail), ',');
  }

  /** Removing the commas from digits, a comma, digits and a comma-free word leaves the digits joined. */
  lemma DropThousandsSeparator(high: string, low: string, word: string)
    requires AllDigits(high) && AllDigits(low) && ',' !in word
    ensures RemoveChar(high + "," + low + " " + word, ',') == (high + low) + " " + word
  {
    var tail := " " + word;
    assert ',' !in tail by {
      forall i | 0 <= i < |tail| ensures tail[i] != ',' {
        if i > 0 { assert tail[i] == word[i - 1]; }
      }
    }
    var grouped := high + ("," + (low + tail));
    assert high + "," + low + " " + word == grouped by { Regroup(high, ",", low, " ", word); }
    assert RemoveChar(grouped, ',') == high + (low + tail) by {
      NoCommaInDigits(high);
      NoCommaInDigits(low);
      DropSeparator(high, low, tail);
    }
    assert high + (low + tail) == (high + low) + " " + word by { Regroup(high, [], low, " ", word); }
  }

  lemma Regroup(a: string, b: string, c: string, d: string, e: string)
    ensures a + b + c + d + e == a + (b + (c + (d + e)))
    ensures (a + c) + d + e == a + (c + (d + e))
  {
  }

  /** A comma between two runs of digits, as in "3,395 scrobbles", is skipped: the digits read as one number. */
  lemma CountTextThousands(high: string, low: string, word: string)
    requires |high| > 0 && AllDigits(high) && AllDigits(low) && ',' !in word
    requires DigitsValue(high + low) <= U32_MAX
    ensures CountTextNumber(high + "," + low + " " + word) == Some(DigitsValue(high + low))
  {
    var digits := high + low;
    var text := high + "," + low + " " + word;
    assert AllDigits(digits) by {
      forall i | 0 <= i < |digits| ensures IsDigit(digits[i]) {
        if i >= |high| { assert digits[i] == low[i - |high|]; }
      }
    }
    assert RemoveChar(text, ',') == digits + " " + word by { DropThousandsSeparator(high, low, word); }
    assert CountTextNumber(digits + " " + word) == Some(DigitsValue(digits)) by { CountTextDigits(digits, word); }
    CountTextIgnoresCommas(text);
  }

  /** The index of the first character of `s` that is not an ASCII digit. */
  function FirstNonDigit(s: string): (r: Option<nat>)
    ensures r.Some? ==> r.value < |s| && !IsDigit(s[r.value]) && AllDigits(s[..r.value])
    ensures r.None? <==> AllDigits(s)
    decreases |s|
  {
    if |s| == 0 then None
    else if !IsDigit(s[0]) then Some(0)
    else match FirstNonDigit(s[1..])
      case None => None
      case Some(i) =>
        assert s[..i + 1] == [s[0]] + s[1..][..i];
        Some(i + 1)
  }

  /**
   * `extract_total_pages_from_pagination` on the pagination's text: the run
   * of digits right after the first " of ", as a `u32`; when nothing but
   * digits follows, the trimmed rest; with no " of ", nothing.
   */
  function TotalPagesFromText(text: string): (r: Option<nat>)
    ensures Find(text, " of ").None? ==> r.None?
    ensures r.Some? ==> r.value <= U32_MAX
  {
    match Find(text, " of ")
    case None => None
    case Some(pos) =>
      var after := text[pos + 4..];
      match FirstNonDigit(after)
      case Some(end) => ParseU32(after[..end])
      case None => ParseU32(Trim(after))
  }

  /** A run of digits is its own trimmed form. */
  lemma TrimDigits(digits: string)
    requires |digits| > 0 && AllDigits(digits)
    ensures Trim(digits) == digits
  {
    DigitsNotSpace(digits);
    assert !IsSpace(digits[0]);
    assert TrimStart(digits) == digits;
    assert !IsSpace(digits[|digits| - 1]);
    assert TrimEnd(digits) == digits;
  }

  /**
   * The total after the first " of " is read back: "Page 1 of 42" and
   * "1 of 42 pages" give 42.
   */
  lemma TotalPagesRoundTrip(prefix: string, n: nat, suffix: string)
    requires n <= U32_MAX
    requires Find(prefix + " of " + NatToString(n) + suffix, " of ") == Some(|prefix|)
    requires suffix == [] || !IsDigit(suffix[0])
    ensures TotalPagesFromText(prefix + " of " + NatToString(n) + suffix) == Some(n)
  {
    ParseNatToString(n, U32_MAX);
    TotalPagesOfText(prefix, NatToString(n), suffix);
  }

  /** Digits after the first " of ", then the end or a non-digit, are the total read. */
  lemma TotalPagesOfText(prefix: string, digits: string, suffix: string)
    requires |digits| > 0 && AllDigits(digits)
    requires Find(prefix + " of " + digits + suffix, " of ") == Some(|prefix|)
    requires suffix == [] || !IsDigit(suffix[0])
    ensures TotalPagesFromText(prefix + " of " + digits + suffix) == ParseU32(digits)
  {
    TextAfterOf(prefix, digits, suffix);
    TotalPagesOfDigits(prefix + " of " + digits + suffix, |prefix|, digits, suffix);
  }

  /** The total is read from a run of digits after the first " of ", followed by the end or a non-digit. */
  lemma TotalPagesOfDigits(text: string, pos: nat, digits: string, suffix: string)
    requires Find(text, " of ") == Some(pos)
    requires text[pos + 4..] == digits + suffix && |digits| > 0 && AllDigits(digits)
    requires suffix == [] || !IsDigit(suffix[0])
    ensures TotalPagesFromText(text) == ParseU32(digits)
  {
    if suffix == [] {
      assert digits + suffix == digits;
      TotalPagesDigitsOnly(text, pos, digits);
    } else {
      TotalPagesDigitsThenMore(text, pos, digits, suffix);
    }
  }

  lemma TextAfterOf(prefix: string, digits: string, suffix: string)
    ensures (prefix + " of " + digits + suffix)[|prefix| + 4..] == digits + suffix
  {
    SliceAfter(prefix, " of ", digits, suffix);
  }

  lemma SliceAfter(a: string, b: string, c: string, d: string)
    ensures (a + b + c + d)[|a| + |b|..] == c + d
  {
    assert a + b + c + d == (a + b) + (c + d);
  }

  lemma TotalPagesDigitsThenMore(text: string, pos: nat, digits: string, suffix: string)
    requires Find(text, " of ") == Some(pos)
    requires text[pos + 4..] == digits + suffix && AllDigits(digits)
    requires suffix != [] && !IsDigit(suffix[0])
    ensures TotalPagesFromText(text) == ParseU32(digits)
  {
    FirstNonDigitAfterDigits(digits, suffix);
    assert (digits + suffix)[..|digits|] == digits;
  }

  lemma TotalPagesDigitsOnly(text: string, pos: nat, digits: string)
    requires Find(text, " of ") == Some(pos)
    requires text[pos + 4..] == digits && |digits| > 0 && AllDigits(digits)
    ensures TotalPagesFromText(text) == ParseU32(digits)
  {
    TrimDigits(digits);
  }

  lemma {:induction false} FirstNonDigitAfterDigits(digits: string, rest: string)
    requires AllDigits(digits) && |rest| > 0 && !IsDigit(rest[0])
    ensures FirstNonDigit(digits + rest) == Some(|digits|)
    decreases |digits|
  {
    if |digits| == 0 {
      assert digits + rest == rest;
    } else {
      assert (digits + rest)[1..] == digits[1..] + rest;
      FirstNonDigitAfterDigits(digits[1..], rest);
    }
  }

  /** The source's example: "Page 1 of 42" has 42 pages. */
  lemma TotalPagesExample()
    ensures TotalPagesFromText("Page 1 of 42") == Some(42)
  {
    var text := "Page 1 of 42";
    assert NatToString(42) == "42" by { assert NatToString(4) == "4"; }
    assert text == "Page 1" + " of " + NatToString(42) + "";
    assert text[6..10] == " of ";
    forall j | 0 <= j < 6 ensures !OccursAt(text, " of ", j) {
      assert text[j..j + 4][0] == text[j] && text[j..j + 4][1] == text[j + 1];
    }
    FindFromIsFirst(text, " of ", 0, 6);
    TotalPagesRoundTrip("Page 1", 42, "");
  }

  /** `extract_playcount_from_row`: the first word of the count text as a `u32`, else 1. */
  function RowPlaycount(countText: Option<string>): (n: nat)
    ensures countText.None? ==> n == 1
    ensures countText.Some? && FirstToken(Trim(countText.value)).Some? && ParseU32(FirstToken(Trim(countText.value)).value).Some?
            ==> n == ParseU32(FirstToken(Trim(countText.value)).value).value
    ensures countText.Some? && (FirstToken(Trim(countText.value)).None? || ParseU32(FirstToken(Trim(countText.value)).value).None?)
            ==> n == 1
  {
    if countText.None? then 1
    else match FirstToken(Trim(countText.value))
      case None => 1
      case Some(word) => ParseU32(word).UnwrapOr(1)
  }

  /** The parts of a `.pagination-list` the parser reads: whether it links to a next page, and its text. */
  datatype Pagination = Pagination(hasNextLink: bool, text: string)

  /** `parse_pagination`: without a pagination list the page is the only one. */
  function ParsePagination(pagination: Option<Pagination>): (r: (bool, Option<nat>))
    ensures pagination.None? ==> r == (false, Some(1))
    ensures pagination.Some? ==> r.0 == pagination.value.hasNextLink && r.1 == TotalPagesFromText(pagination.value.text)
  {
    match pagination
    case None => (false, Some(1))
    case Some(p) => (p.hasNextLink, TotalPagesFromText(p.text))
  }
}
