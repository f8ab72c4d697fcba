/**
 UTF-8 as section 3 of RFC 3629 defines it, and decoding that ignores what is not UTF-8. A
 `char` is a Unicode scalar value, so surrogates are not characters here.
 */
module Utf8 {
  import opened Common

  type Byte = b: int | 0 <= b < 256

  function EncodeChar(c: char): (e: seq<Byte>)
    ensures 1 <= |e| <= 4
  {
    EncodeNumber(c as int)
  }

  /** Six bits a byte, from the right; what is left goes into the first byte. */
  function EncodeNumber(n: int): (e: seq<Byte>)
    requires 0 <= n < 0x11_0000
    ensures 1 <= |e| <= 4
  {
    var a := n / 64;
    var b := a / 64;
    if n < 0x80 then [n]
    else if n < 0x800 then [0xC0 + a, 0x80 + n % 64]
    else if n < 0x1_0000 then [0xE0 + b, 0x80 + a % 64, 0x80 + n % 64]
    else [0xF0 + b / 64, 0x80 + b % 64, 0x80 + a % 64, 0x80 + n % 64]
  }

  function Encode(text: string): (e: seq<Byte>)
    ensures |e| >= |text|
  {
    if text == [] then [] else EncodeChar(text[0]) + Encode(text[1..])
  }

  /** How many bytes a text takes. */
  function Bytes(text: string): nat {
    |Encode(text)|
  }

  predicate IsContinuation(b: Byte) {
    0x80 <= b < 0xC0
  }

  /** How many bytes a sequence with this first byte has; 0 when none starts with it. */
  function SequenceLength(lead: Byte): (n: nat)
    ensures n <= 4
  {
    if lead < 0x80 then 1
    else if 0xC2 <= lead < 0xE0 then 2
    else if 0xE0 <= lead < 0xF0 then 3
    else if 0xF0 <= lead < 0xF5 then 4
    else 0
  }

  /** The number a well-shaped sequence stands for. */
  function Number(s: seq<Byte>): int
    requires 1 <= |s| <= 4
  {
    var lead: int := s[0];
    if |s| == 1 then lead
    else if |s| == 2 then Shift(lead - 0xC0, s[1])
    else if |s| == 3 then Shift(Shift(lead - 0xE0, s[1]), s[2])
    else Shift(Shift(Shift(lead - 0xF0, s[1]), s[2]), s[3])
  }

  /** Six more bits, taken from a continuation byte. */
  function Shift(n: int, b: Byte): int {
    n * 64 + (b as int - 0x80)
  }

  /** Whether a number needs exactly this many bytes and is a Unicode scalar value. */
  predicate Fits(n: int, length: nat) {
    && (if length == 1 then 0 <= n < 0x80
        else if length == 2 then 0x80 <= n < 0x800
        else if length == 3 then 0x800 <= n < 0x1_0000
        else length == 4 && 0x1_0000 <= n < 0x11_0000)
    && !(0xD800 <= n < 0xE000)
  }

  /** The character at the front of the bytes, when they start with a well-formed sequence. */
  function FirstChar(bs: seq<Byte>): (r: Option<char>)
    requires bs != []
  {
    var n := SequenceLength(bs[0]);
    if 1 <= n <= |bs| && (forall i :: 1 <= i < n ==> IsContinuation(bs[i])) && Fits(Number(bs[..n]), n)
    then Some(Number(bs[..n]) as char)
    else None
  }

  /** Decoding that drops a byte at which no character starts. Dropping one byte at a time gives
      the same text as dropping a whole cut-off sequence, whose later bytes start nothing. */
  function DecodeIgnore(bs: seq<Byte>): string
    decreases |bs|
  {
    if bs == [] then []
    else
      match FirstChar(bs)
      case Some(c) => if |EncodeChar(c)| <= |bs| then [c] + DecodeIgnore(bs[|EncodeChar(c)|..]) else []
      case None => DecodeIgnore(bs[1..])
  }

  // ----- one character

  lemma ShiftInverts(n: nat)
    ensures Shift(n / 64, 0x80 + n % 64) == n
  {
  }

  lemma InvertsShift(n: int, b: Byte)
    requires IsContinuation(b)
    ensures Shift(n, b) / 64 == n && 0x80 + Shift(n, b) % 64 == b
  {
  }

  lemma EncodedShape(c: char)
    ensures var e := EncodeChar(c);
            && SequenceLength(e[0]) == |e|
            && (forall i :: 1 <= i < |e| ==> IsContinuation(e[i]))
            && Number(e) == c as int && Fits(c as int, |e|)
  {
    var n := c as int;
    ShiftInverts(n);
    ShiftInverts(n / 64);
    ShiftInverts(n / 64 / 64);
  }

  lemma TwoBytes(s: seq<Byte>)
    requires |s| == 2 && 0xC2 <= s[0] < 0xE0 && IsContinuation(s[1]) && Fits(Number(s), 2)
    ensures EncodeNumber(Number(s)) == s
  {
    InvertsShift(s[0] as int - 0xC0, s[1]);
  }

  lemma ThreeBytes(s: seq<Byte>)
    requires |s| == 3 && 0xE0 <= s[0] < 0xF0 && IsContinuation(s[1]) && IsContinuation(s[2]) && Fits(Number(s), 3)
    ensures EncodeNumber(Number(s)) == s
  {
    var b := Shift(s[0] as int - 0xE0, s[1]);
    InvertsShift(s[0] as int - 0xE0, s[1]);
    InvertsShift(b, s[2]);
  }

  lemma FourBytes(s: seq<Byte>)
    requires |s| == 4 && 0xF0 <= s[0] < 0xF5 && Fits(Number(s), 4)
    requires IsContinuation(s[1]) && IsContinuation(s[2]) && IsContinuation(s[3])
    ensures EncodeNumber(Number(s)) == s
  {
    var b := Shift(s[0] as int - 0xF0, s[1]);
    var a := Shift(b, s[2]);
    InvertsShift(s[0] as int - 0xF0, s[1]);
    InvertsShift(b, s[2]);
    InvertsShift(a, s[3]);
  }

  lemma ShapeIsEncoded(s: seq<Byte>)
    requires 1 <= |s| <= 4 && SequenceLength(s[0]) == |s| && Fits(Number(s), |s|)
    requires forall i :: 1 <= i < |s| ==> IsContinuation(s[i])
    ensures EncodeChar(Number(s) as char) == s
  {
    if |s| == 2 {
      TwoBytes(s);
    } else if |s| == 3 {
      ThreeBytes(s);
    } else if |s| == 4 {
      FourBytes(s);
    }
  }

  /** A character is found at the front exactly when its encoding stands there. */
  lemma FirstCharExactly(bs: seq<Byte>, c: char)
    requires bs != []
    ensures FirstChar(bs) == Some(c) <==> EncodeChar(c) <= bs
  {
    var e := EncodeChar(c);
    EncodedShape(c);
    if e <= bs {
      assert bs[..|e|] == e;
    }
    if FirstChar(bs) == Some(c) {
      var n := SequenceLength(bs[0]);
      ShapeIsEncoded(bs[..n]);
    }
  }

  // ----- texts

  lemma DecodeStep(c: char, rest: seq<Byte>)
    ensures DecodeIgnore(EncodeChar(c) + rest) == [c] + DecodeIgnore(rest)
  {
    var bs := EncodeChar(c) + rest;
    FirstCharExactly(bs, c);
    assert bs[|EncodeChar(c)|..] == rest;
  }

  /** Decoding gives back every encoded text. */
  lemma {:induction false} RoundTrip(text: string)
    ensures DecodeIgnore(Encode(text)) == text
  {
    if text != [] {
      DecodeStep(text[0], Encode(text[1..]));
      RoundTrip(text[1..]);
    }
  }

  lemma {:induction false} EncodeAppend(a: string, b: string)
    ensures Encode(a + b) == Encode(a) + Encode(b)
  {
    if a == [] {
      assert a + b == b;
    } else {
      assert (a + b)[1..] == a[1..] + b;
      EncodeAppend(a[1..], b);
    }
  }

  /** Continuation bytes without their first byte decode to nothing. */
  lemma {:induction false} ContinuationsVanish(bs: seq<Byte>, rest: seq<Byte>)
    requires forall i :: 0 <= i < |bs| ==> IsContinuation(bs[i])
    ensures DecodeIgnore(bs + rest) == DecodeIgnore(rest)
  {
    if bs == [] {
      assert bs + rest == rest;
    } else {
      assert (bs + rest)[1..] == bs[1..] + rest;
      assert SequenceLength(bs[0]) == 0;
      ContinuationsVanish(bs[1..], rest);
    }
  }

  /** An encoding that is cut off decodes to nothing. */
  lemma CutCharVanishes(c: char, k: nat)
    requires k < |EncodeChar(c)|
    ensures DecodeIgnore(EncodeChar(c)[..k]) == []
  {
    var bs := EncodeChar(c)[..k];
    EncodedShape(c);
    if k > 0 {
      assert FirstChar(bs) == None;
      ContinuationsVanish(bs[1..], []);
      assert bs[1..] + [] == bs[1..];
    }
  }

  /** `kept` is the longest prefix of the text within the limit. */
  ghost predicate LongestPrefix(text: string, limit: nat, kept: string) {
    kept <= text && Bytes(kept) <= limit && (|kept| < |text| ==> Bytes(text[..|kept| + 1]) > limit)
  }

  ghost predicate LongestSuffix(text: string, limit: nat, kept: string) {
    && |kept| <= |text| && kept == text[|text| - |kept|..] && Bytes(kept) <= limit
    && (|kept| < |text| ==> Bytes(text[|text| - |kept| - 1..]) > limit)
  }

  lemma PrefixGrows(text: string, limit: nat, kept: string)
    requires text != [] && |EncodeChar(text[0])| <= limit
    requires LongestPrefix(text[1..], limit - |EncodeChar(text[0])|, kept)
    ensures LongestPrefix(text, limit, [text[0]] + kept)
  {
    var all := [text[0]] + kept;
    assert all[1..] == kept;
    if |all| < |text| {
      assert text[..|all| + 1][1..] == text[1..][..|kept| + 1];
    }
  }

  /** A byte prefix, wherever it ends, decodes to the longest text prefix that fits it. */
  lemma {:induction false} PrefixDecodes(text: string, limit: nat)
    requires limit <= Bytes(text)
    ensures LongestPrefix(text, limit, DecodeIgnore(Encode(text)[..limit]))
  {
    if text != [] {
      var e, rest := EncodeChar(text[0]), text[1..];
      if limit < |e| {
        assert Encode(text)[..limit] == e[..limit];
        CutCharVanishes(text[0], limit);
        assert Encode(text[..1]) == e + Encode([]);
      } else {
        assert Encode(text)[..limit] == e + Encode(rest)[..limit - |e|];
        DecodeStep(text[0], Encode(rest)[..limit - |e|]);
        PrefixDecodes(rest, limit - |e|);
        PrefixGrows(text, limit, DecodeIgnore(Encode(rest)[..limit - |e|]));
      }
    }
  }

  lemma DropFromFirst(a: seq<Byte>, b: seq<Byte>, k: nat)
    requires k <= |a|
    ensures (a + b)[k..] == a[k..] + b
  {
  }

  lemma CutIntoFirst(text: string, drop: nat)
    requires text != [] && 0 < drop <= |EncodeChar(text[0])|
    ensures DecodeIgnore(Encode(text)[drop..]) == text[1..]
  {
    var e, rest := EncodeChar(text[0]), Encode(text[1..]);
    EncodedShape(text[0]);
    var tail := e[drop..];
    assert forall i :: 0 <= i < |tail| ==> tail[i] == e[drop + i];
    DropFromFirst(e, rest, drop);
    ContinuationsVanish(tail, rest);
    RoundTrip(text[1..]);
    assert Encode(text)[drop..] == tail + rest;
  }

  lemma DropPastFirst(a: seq<Byte>, b: seq<Byte>, k: nat)
    requires |a| <= k <= |a| + |b|
    ensures (a + b)[k..] == b[k - |a|..]
  {
  }

  /** The text from `k` on fits the limit and no longer suffix does. */
  ghost predicate FitsFrom(text: string, limit: nat, k: nat) {
    k <= |text| && Bytes(text[k..]) <= limit && (k > 0 ==> Bytes(text[k - 1..]) > limit)
  }

  lemma FitsFromRest(text: string, limit: nat, k: nat)
    requires text != [] && FitsFrom(text[1..], limit, k) && limit < Bytes(text)
    ensures FitsFrom(text, limit, k + 1) && text[1..][k..] == text[k + 1..]
  {
    assert text[1..][k..] == text[k + 1..];
    if k > 0 {
      assert text[1..][k - 1..] == text[k..];
    } else {
      assert text[0..] == text;
    }
  }

  lemma {:induction false} SuffixFrom(text: string, drop: nat) returns (k: nat)
    requires drop <= Bytes(text)
    ensures FitsFrom(text, Bytes(text) - drop, k)
    ensures DecodeIgnore(Encode(text)[drop..]) == text[k..]
    decreases |text|
  {
    if drop == 0 {
      assert Encode(text)[0..] == Encode(text) && text[0..] == text;
      RoundTrip(text);
      k := 0;
    } else if drop <= |EncodeChar(text[0])| {
      CutIntoFirst(text, drop);
      assert text[0..] == text;
      k := 1;
    } else {
      var e, rest := EncodeChar(text[0]), text[1..];
      DropPastFirst(e, Encode(rest), drop);
      k := SuffixFrom(rest, drop - |e|);
      FitsFromRest(text, Bytes(text) - drop, k);
      k := k + 1;
    }
  }

  /** A byte suffix, wherever it starts, decodes to the longest text suffix that fits it. */
  lemma SuffixDecodes(text: string, drop: nat)
    requires drop <= Bytes(text)
    ensures LongestSuffix(text, Bytes(text) - drop, DecodeIgnore(Encode(text)[drop..]))
  {
    var k := SuffixFrom(text, drop);
    assert |text[k..]| == |text| - k;
  }
}
