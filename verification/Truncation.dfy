/**
 Cutting diagnostics to their UTF-8 limits (`_keep_start`, `_keep_end`) and the length check that
 reads them afterwards (`normalize_text`).
 */
module Truncation {
  import opened Utf8

  const VERSION_LIMIT: nat := 32
  const LAST_ERROR_LIMIT: nat := 2000
  const LOG_EXCERPT_LIMIT: nat := 12000

  /** `str.isspace` */
  predicate IsSpace(c: char) {
    var n := c as int;
    || 9 <= n <= 13 || 0x1C <= n <= 0x20 || n == 0x85 || n == 0xA0 || n == 0x1680
    || 0x2000 <= n <= 0x200A || n == 0x2028 || n == 0x2029 || n == 0x202F || n == 0x205F || n == 0x3000
  }

  predicate IsSeparator(c: char) {
    c == ' ' || c == '\n' || c == '\t'
  }

  /** Where the character last occurs, or -1. */
  function RFind(text: string, c: char): (k: int)
    ensures -1 <= k < |text|
    ensures k >= 0 ==> text[k] == c
    ensures forall i :: k < i < |text| ==> text[i] != c
  {
    if text == [] then -1
    else if text[|text| - 1] == c then |text| - 1
    else RFind(text[..|text| - 1], c)
  }

  /** Where the character first occurs, or -1. */
  function Find(text: string, c: char): (k: int)
    ensures -1 <= k < |text|
    ensures k >= 0 ==> text[k] == c && c !in text[..k]
    ensures k == -1 <==> c !in text
  {
    if text == [] then -1
    else if text[0] == c then 0
    else
      var k := Find(text[1..], c);
      if k == -1 then -1 else k + 1
  }

  function Max(a: int, b: int): int {
    if a < b then b else a
  }

  /** `str.rstrip` */
  function RStrip(text: string): (r: string)
    ensures r <= text
    ensures r != [] ==> !IsSpace(r[|r| - 1])
    ensures forall i :: |r| <= i < |text| ==> IsSpace(text[i])
  {
    if text != [] && IsSpace(text[|text| - 1]) then RStrip(text[..|text| - 1]) else text
  }

  /** `_keep_start` */
  function KeepStart(text: string, limit: nat): string {
    var encoded := Encode(text);
    if |encoded| <= limit then text else UpToWholeWord(DecodeIgnore(encoded[..limit]))
  }

  /** What precedes the last separator, unless that is the first character. */
  function UpToWholeWord(kept: string): string {
    var boundary := Max(Max(RFind(kept, ' '), RFind(kept, '\n')), RFind(kept, '\t'));
    if boundary > 0 then RStrip(kept[..boundary]) else kept
  }

  /** What a slice from `-limit` leaves of something longer: all of it when the limit is zero. */
  function LastBytes(encoded: seq<Byte>, limit: nat): seq<Byte>
    requires limit < |encoded|
  {
    if limit == 0 then encoded else encoded[|encoded| - limit..]
  }

  /** `_keep_end` */
  function KeepEnd(text: string, limit: nat): string {
    var encoded := Encode(text);
    if |encoded| <= limit then text else FromWholeLine(DecodeIgnore(LastBytes(encoded, limit)))
  }

  /** What follows the first line break, or else the first blank. */
  function FromWholeLine(kept: string): string {
    var newline := Find(kept, '\n');
    if newline >= 0 then kept[newline + 1..]
    else
      var space := Find(kept, ' ');
      if space >= 0 then kept[space + 1..] else kept
  }

  // ----- sizes of parts

  lemma PartIsSmaller(a: string, b: string)
    ensures Bytes(a) <= Bytes(a + b) && Bytes(b) <= Bytes(a + b)
  {
    EncodeAppend(a, b);
  }

  lemma PrefixIsSmaller(part: string, text: string)
    requires part <= text
    ensures Bytes(part) <= Bytes(text)
  {
    PartIsSmaller(part, text[|part|..]);
    assert part + text[|part|..] == text;
  }

  lemma SuffixIsSmaller(text: string, k: nat)
    requires k <= |text|
    ensures Bytes(text[k..]) <= Bytes(text)
  {
    PartIsSmaller(text[..k], text[k..]);
    assert text[..k] + text[k..] == text;
  }

  // ----- what the two cuts promise

  /** `r` ends between two words of `kept` and what is lost holds one word at most; or nothing is
      lost, because no separator follows the first character. */
  ghost predicate CutBetweenWords(kept: string, r: string) {
    && r <= kept
    && if r == kept then forall i :: 1 <= i < |kept| ==> !IsSeparator(kept[i])
       else
         && IsSpace(kept[|r|])
         && (r != [] ==> !IsSpace(r[|r| - 1]))
         && (forall i, j :: |r| <= i <= j < |kept| && !IsSpace(kept[i]) ==> !IsSeparator(kept[j]))
  }

  lemma UpToWholeWordCuts(kept: string)
    ensures CutBetweenWords(kept, UpToWholeWord(kept))
  {
    var boundary := Max(Max(RFind(kept, ' '), RFind(kept, '\n')), RFind(kept, '\t'));
    var r := UpToWholeWord(kept);
    assert forall j :: boundary < j < |kept| ==> !IsSeparator(kept[j]);
    if boundary > 0 {
      assert IsSeparator(kept[boundary]) && IsSpace(kept[boundary]);
      assert forall i :: |r| <= i < boundary ==> kept[..boundary][i] == kept[i] && IsSpace(kept[i]);
    }
  }

  /** The kept start is a prefix of the text within the limit, and nothing is cut that fits. What is
      cut is cut from the longest prefix that fits, between words. */
  lemma KeepStartKeeps(text: string, limit: nat)
    ensures KeepStart(text, limit) <= text
    ensures Bytes(KeepStart(text, limit)) <= limit
    ensures Bytes(text) <= limit ==> KeepStart(text, limit) == text
    ensures Bytes(text) > limit ==>
              exists kept :: LongestPrefix(text, limit, kept) && CutBetweenWords(kept, KeepStart(text, limit))
  {
    if limit < Bytes(text) {
      PrefixDecodes(text, limit);
      var kept := DecodeIgnore(Encode(text)[..limit]);
      UpToWholeWordCuts(kept);
      PrefixIsSmaller(KeepStart(text, limit), kept);
    }
  }

  lemma LongestPrefixIsUnique(text: string, limit: nat, a: string, b: string)
    requires LongestPrefix(text, limit, a) && LongestPrefix(text, limit, b)
    ensures a == b
  {
    if |a| < |b| {
      PrefixIsSmaller(text[..|a| + 1], b);
    } else if |b| < |a| {
      PrefixIsSmaller(text[..|b| + 1], a);
    }
  }

  /** `r` is what follows the first line break of `kept`; without one, what follows the first blank;
      without either, all of it. */
  ghost predicate StartsALine(kept: string, r: string) {
    && |r| <= |kept| && r == kept[|kept| - |r|..]
    && if r == kept then '\n' !in kept && ' ' !in kept
       else
         var before := |kept| - |r| - 1;
         && (kept[before] == '\n' || (kept[before] == ' ' && '\n' !in kept))
         && kept[before] !in kept[..before]
  }

  lemma FromWholeLineStarts(kept: string)
    ensures StartsALine(kept, FromWholeLine(kept))
    ensures Bytes(FromWholeLine(kept)) <= Bytes(kept)
  {
    SuffixIsSmaller(kept, |kept| - |FromWholeLine(kept)|);
  }

  lemma SuffixOfSuffix(text: string, kept: string, r: string)
    requires |kept| <= |text| && kept == text[|text| - |kept|..]
    requires |r| <= |kept| && r == kept[|kept| - |r|..]
    ensures r == text[|text| - |r|..]
  {
  }

  lemma SuffixesNest(text: string, i: nat, j: nat)
    requires i <= j <= |text|
    ensures Bytes(text[j..]) <= Bytes(text[i..])
  {
    SuffixIsSmaller(text[i..], j - i);
    assert text[i..][j - i..] == text[j..];
  }

  lemma NoLongerSuffix(text: string, limit: nat, i: nat, j: nat)
    requires i <= |text| && Bytes(text[i..]) <= limit
    requires 0 < j <= |text| && Bytes(text[j - 1..]) > limit
    ensures j <= i
  {
    if i < j {
      SuffixesNest(text, i, j - 1);
    }
  }

  lemma LongestSuffixIsUnique(text: string, limit: nat, a: string, b: string)
    requires LongestSuffix(text, limit, a) && LongestSuffix(text, limit, b)
    ensures a == b
  {
    if |a| < |text| {
      NoLongerSuffix(text, limit, |text| - |b|, |text| - |a|);
    }
    if |b| < |text| {
      NoLongerSuffix(text, limit, |text| - |a|, |text| - |b|);
    }
  }

  lemma KeepEndCuts(text: string, limit: nat) returns (kept: string)
    requires limit < Bytes(text)
    ensures LongestSuffix(text, if limit == 0 then Bytes(text) else limit, kept)
    ensures KeepEnd(text, limit) == FromWholeLine(kept)
  {
    var drop := if limit == 0 then 0 else Bytes(text) - limit;
    SuffixDecodes(text, drop);
    assert LastBytes(Encode(text), limit) == Encode(text)[drop..];
    kept := DecodeIgnore(Encode(text)[drop..]);
  }

  lemma CutEndKeeps(text: string, limit: nat, kept: string, r: string)
    requires LongestSuffix(text, limit, kept) && r == FromWholeLine(kept)
    ensures StartsALine(kept, r) && Bytes(r) <= limit
    ensures |r| <= |text| && r == text[|text| - |r|..]
  {
    FromWholeLineStarts(kept);
    SuffixOfSuffix(text, kept, r);
  }

  /** The kept end is a suffix of the text, and nothing is cut that fits. With a positive limit it
      is within the limit, and starts at a line of the longest suffix that fits. */
  lemma KeepEndKeeps(text: string, limit: nat)
    ensures |KeepEnd(text, limit)| <= |text| && KeepEnd(text, limit) == text[|text| - |KeepEnd(text, limit)|..]
    ensures limit > 0 ==> Bytes(KeepEnd(text, limit)) <= limit
    ensures Bytes(text) <= limit ==> KeepEnd(text, limit) == text
    ensures 0 < limit < Bytes(text) ==>
              exists kept :: LongestSuffix(text, limit, kept) && StartsALine(kept, KeepEnd(text, limit))
  {
    if limit < Bytes(text) {
      var kept := KeepEndCuts(text, limit);
      CutEndKeeps(text, if limit == 0 then Bytes(text) else limit, kept, KeepEnd(text, limit));
    } else {
      assert text[0..] == text;
    }
  }

  lemma OnlyEmptyTakesNoBytes(text: string)
    ensures Bytes(text) == 0 <==> text == []
  {
  }

  /** With a zero limit the slice keeps everything, so the limit is kept exactly when nothing
      follows the first line break, or, without one, the first blank. */
  lemma KeepEndAtZero(text: string)
    ensures Bytes(KeepEnd(text, 0)) <= 0 <==>
              || text == []
              || Find(text, '\n') == |text| - 1
              || (Find(text, '\n') == -1 && Find(text, ' ') == |text| - 1)
  {
    RoundTrip(text);
    OnlyEmptyTakesNoBytes(text);
    assert KeepEnd(text, 0) == if text == [] then [] else FromWholeLine(text);
    OnlyEmptyTakesNoBytes(KeepEnd(text, 0));
  }

  lemma KeepEndBreaksZero()
    ensures Bytes(KeepEnd("ab", 0)) > 0
  {
    KeepEndAtZero("ab");
    assert Find("ab", '\n') == -1 && Find("ab", ' ') == -1;
  }

  // ----- the later check

  /** Line ends as `normalize_text` writes them. */
  function UnixLines(text: string): string {
    if text == [] then []
    else if text[0] == '\r' then
      ['\n'] + UnixLines(if |text| > 1 && text[1] == '\n' then text[2..] else text[1..])
    else [text[0]] + UnixLines(text[1..])
  }

  datatype Verdict = Accepted(text: string) | ControlCharacter | TooShort | Blank | TooLong

  /** Unicode category Cc, apart from line break and tab. */
  predicate IsControl(c: char) {
    (c as int < 0x20 || 0x7F <= c as int < 0xA0) && c != '\n' && c != '\t'
  }

  predicate IsBlank(text: string) {
    forall i :: 0 <= i < |text| ==> IsSpace(text[i])
  }

  /** `normalize_text` */
  function NormalizeText(value: string, minimum: nat, maximum: nat): Verdict {
    var text := UnixLines(value);
    if exists c :: c in text && IsControl(c) then ControlCharacter
    else if Bytes(text) < minimum then TooShort
    else if IsBlank(text) then Blank
    else if Bytes(text) > maximum then TooLong
    else Accepted(text)
  }

  lemma {:induction false} UnixLinesShrinks(text: string)
    ensures Bytes(UnixLines(text)) <= Bytes(text)
    decreases |text|
  {
    if text != [] {
      if text[0] == '\r' {
        var rest := if |text| > 1 && text[1] == '\n' then text[2..] else text[1..];
        UnixLinesShrinks(rest);
        PartIsSmaller(text[1..|text| - |rest|], rest);
        assert text[1..] == text[1..|text| - |rest|] + rest;
      } else {
        UnixLinesShrinks(text[1..]);
      }
    }
  }

  lemma WithinIsNeverTooLong(text: string, minimum: nat, maximum: nat)
    requires Bytes(text) <= maximum
    ensures NormalizeText(text, minimum, maximum) != TooLong
  {
    UnixLinesShrinks(text);
  }

  /** A cleaned version, last error or log excerpt is never refused for its length, whatever the
      text and wherever the cut falls. */
  lemma CleanedIsNeverTooLong(text: string)
    ensures NormalizeText(KeepStart(text, VERSION_LIMIT), 1, VERSION_LIMIT) != TooLong
    ensures NormalizeText(KeepStart(text, LAST_ERROR_LIMIT), 1, LAST_ERROR_LIMIT) != TooLong
    ensures NormalizeText(KeepEnd(text, LOG_EXCERPT_LIMIT), 1, LOG_EXCERPT_LIMIT) != TooLong
  {
    KeepStartKeeps(text, VERSION_LIMIT);
    WithinIsNeverTooLong(KeepStart(text, VERSION_LIMIT), 1, VERSION_LIMIT);
    KeepStartKeeps(text, LAST_ERROR_LIMIT);
    WithinIsNeverTooLong(KeepStart(text, LAST_ERROR_LIMIT), 1, LAST_ERROR_LIMIT);
    KeepEndKeeps(text, LOG_EXCERPT_LIMIT);
    WithinIsNeverTooLong(KeepEnd(text, LOG_EXCERPT_LIMIT), 1, LOG_EXCERPT_LIMIT);
  }

  /** What is accepted is within both limits, and line ends are all the check changes. */
  lemma AcceptedIsWithinLimits(value: string, minimum: nat, maximum: nat)
    ensures NormalizeText(value, minimum, maximum).Accepted? ==>
              var text := NormalizeText(value, minimum, maximum).text;
              && minimum <= Bytes(text) <= maximum
              && '\r' !in text
              && NormalizeText(text, minimum, maximum) == Accepted(text)
  {
    var verdict := NormalizeText(value, minimum, maximum);
    if verdict.Accepted? {
      assert !(exists c :: c in UnixLines(value) && IsControl(c));
      assert IsControl('\r');
      WithoutReturnsIsUnchanged(UnixLines(value));
    }
  }

  /** `replace("\r\n", "\n")` */
  function WithoutPairs(text: string): string {
    if |text| < 2 then text
    else if text[0] == '\r' && text[1] == '\n' then ['\n'] + WithoutPairs(text[2..])
    else [text[0]] + WithoutPairs(text[1..])
  }

  /** `replace("\r", "\n")` */
  function WithoutReturns(text: string): (r: string)
    ensures |r| == |text|
    ensures forall i :: 0 <= i < |text| ==> r[i] == if text[i] == '\r' then '\n' else text[i]
  {
    seq(|text|, i requires 0 <= i < |text| => if text[i] == '\r' then '\n' else text[i])
  }

  lemma WithoutReturnsCons(c: char, rest: string)
    ensures WithoutReturns([c] + rest) == [if c == '\r' then '\n' else c] + WithoutReturns(rest)
  {
  }

  /** The one pass over the line ends does what the two replacements do one after the other. */
  lemma {:induction false} LineEndsAreReplaced(text: string)
    ensures UnixLines(text) == WithoutReturns(WithoutPairs(text))
    decreases |text|
  {
    if |text| == 1 {
      assert text[1..] == [];
    } else if |text| > 1 {
      var pair := text[0] == '\r' && text[1] == '\n';
      var rest := if pair then text[2..] else text[1..];
      LineEndsAreReplaced(rest);
      WithoutReturnsCons(if pair then '\n' else text[0], WithoutPairs(rest));
    }
  }

  /** Which verdict: after the replacements a control character refuses first, then too few bytes,
      then nothing but white space, then too many bytes; anything else is accepted as replaced. */
  lemma VerdictExactly(value: string, minimum: nat, maximum: nat)
    ensures var t := WithoutReturns(WithoutPairs(value));
            var v := NormalizeText(value, minimum, maximum);
            var control := exists i :: 0 <= i < |t| && t[i] != '\n' && t[i] != '\t' && (t[i] as int < 32 || 127 <= t[i] as int < 160);
            var blank := forall i :: 0 <= i < |t| ==> IsSpace(t[i]);
            && (v == ControlCharacter <==> control)
            && (v == TooShort <==> !control && Bytes(t) < minimum)
            && (v == Blank <==> !control && minimum <= Bytes(t) && blank)
            && (v == TooLong <==> !control && minimum <= Bytes(t) && !blank && maximum < Bytes(t))
            && (v == Accepted(t) <==> !control && minimum <= Bytes(t) <= maximum && !blank)
  {
    LineEndsAreReplaced(value);
    var t := UnixLines(value);
    if c :| c in t && IsControl(c) {
      var i :| 0 <= i < |t| && t[i] == c;
    }
    if i :| 0 <= i < |t| && t[i] != '\n' && t[i] != '\t' && (t[i] as int < 32 || 127 <= t[i] as int < 160) {
      assert IsControl(t[i]) && t[i] in t;
    }
  }

  lemma {:induction false} WithoutReturnsIsUnchanged(text: string)
    requires '\r' !in text
    ensures UnixLines(text) == text
  {
    if text != [] {
      WithoutReturnsIsUnchanged(text[1..]);
    }
  }
}
