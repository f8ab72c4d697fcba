/**
 Crockford base 32 as `review.py` decodes it, and the timestamp of a ULID.
 */
module Crockford {
  import opened Common
  import opened Sorting

  const ALPHABET: string := "0123456789ABCDEFGHJKMNPQRSTVWXYZ"

  function Plus(c: char, n: nat): char
    requires c < 128 as char && n < 128
  {
    (c as int + n) as char
  }

  /** The alphabet by ranges: ten digits, then the letters without I, L, O and U. */
  function Letter(i: nat): char
    requires i < 32
  {
    if i < 10 then Plus('0', i)
    else if i < 18 then Plus('A', i - 10)
    else if i < 20 then Plus('J', i - 18)
    else if i < 22 then Plus('M', i - 20)
    else if i < 27 then Plus('P', i - 22)
    else Plus('V', i - 27)
  }

  function Minus(c: char, first: char, from: nat): Option<nat>
    requires first <= c
  {
    Some(c as int - first as int + from)
  }

  /** The upper-case form of an ASCII letter. */
  function Upper(c: char): char {
    if 'a' <= c <= 'z' then Plus('A', c as int - 'a' as int) else c
  }

  function UpperValue(c: char): Option<nat> {
    if '0' <= c <= '9' then Minus(c, '0', 0)
    else if 'A' <= c <= 'H' then Minus(c, 'A', 10)
    else if c == 'I' || c == 'L' then Some(1)
    else if 'J' <= c <= 'K' then Minus(c, 'J', 18)
    else if 'M' <= c <= 'N' then Minus(c, 'M', 20)
    else if c == 'O' then Some(0)
    else if 'P' <= c <= 'T' then Minus(c, 'P', 22)
    else if 'V' <= c <= 'Z' then Minus(c, 'V', 27)
    else None
  }

  /** `_CROCKFORD_DECODE`: the alphabet in either case, and the aliases I, L and O. */
  function Value(c: char): (v: Option<nat>)
    ensures v.Some? ==> v.value < 32
  {
    UpperValue(Upper(c))
  }

  // ----- digits

  lemma AlphabetLetters()
    ensures |ALPHABET| == 32
    ensures forall i :: 0 <= i < 32 ==> ALPHABET[i] == Letter(i)
  {
    assert ALPHABET == [
      Letter(0), Letter(1), Letter(2), Letter(3), Letter(4), Letter(5), Letter(6), Letter(7),
      Letter(8), Letter(9), Letter(10), Letter(11), Letter(12), Letter(13), Letter(14), Letter(15),
      Letter(16), Letter(17), Letter(18), Letter(19), Letter(20), Letter(21), Letter(22), Letter(23),
      Letter(24), Letter(25), Letter(26), Letter(27), Letter(28), Letter(29), Letter(30), Letter(31)
    ];
  }

  /** A character written as the alphabet writes it. */
  predicate IsCanonical(c: char) {
    Value(c).Some? && Letter(Value(c).value) == c
  }

  lemma LetterValue(i: nat)
    requires i < 32
    ensures Value(Letter(i)) == Some(i) && Upper(Letter(i)) == Letter(i)
  {
  }

  lemma InAlphabet(c: char)
    ensures IsCanonical(c) <==> c in ALPHABET
    ensures IsCanonical(c) ==> ALPHABET[Value(c).value] == c
  {
    AlphabetLetters();
    if c in ALPHABET {
      var i :| 0 <= i < |ALPHABET| && ALPHABET[i] == c;
      LetterValue(i);
    }
    if IsCanonical(c) {
      assert ALPHABET[Value(c).value] == c;
    }
  }

  lemma UpperDecides(c: char)
    ensures Value(c) == Value(Upper(c))
    ensures Value(c).Some? <==> IsCanonical(Upper(c)) || Upper(c) == 'I' || Upper(c) == 'L' || Upper(c) == 'O'
    ensures Upper(c) == 'I' || Upper(c) == 'L' ==> Value(c) == Some(1) && !IsCanonical(Upper(c))
    ensures Upper(c) == 'O' ==> Value(c) == Some(0) && !IsCanonical(Upper(c))
  {
  }

  /** The table against the alphabet it is built from: each letter has its index as value, whatever
      its case, and the only other characters with a value are the aliases. */
  lemma ValueIsIndex(c: char)
    ensures IsCanonical(c) <==> c in ALPHABET
    ensures Value(c).Some? <==> Upper(c) in ALPHABET || Upper(c) == 'I' || Upper(c) == 'L' || Upper(c) == 'O'
    ensures Upper(c) in ALPHABET ==> Value(c).Some? && ALPHABET[Value(c).value] == Upper(c)
    ensures Upper(c) == 'I' || Upper(c) == 'L' ==> Value(c) == Some(1)
    ensures Upper(c) == 'O' ==> Value(c) == Some(0)
    ensures 'a' <= c <= 'z' ==> Upper(c) as int == c as int - 32
    ensures !('a' <= c <= 'z') ==> Upper(c) == c
  {
    UpperDecides(c);
    InAlphabet(c);
    InAlphabet(Upper(c));
  }

  lemma LettersAscend(c: char, d: char)
    requires IsCanonical(c) && IsCanonical(d)
    ensures c < d <==> Value(c).value < Value(d).value
  {
  }

  // ----- numbers

  function Fold(digits: seq<nat>): nat {
    if digits == [] then 0 else Fold(digits[..|digits| - 1]) * 32 + digits[|digits| - 1]
  }

  predicate Decodes(s: string) {
    forall i :: 0 <= i < |s| ==> Value(s[i]).Some?
  }

  function Digits(s: string): (ds: seq<nat>)
    requires Decodes(s)
    ensures |ds| == |s|
    ensures forall i :: 0 <= i < |s| ==> Some(ds[i]) == Value(s[i]) && ds[i] < 32
  {
    seq(|s|, i requires 0 <= i < |s| => Value(s[i]).value)
  }

  function Decode(s: string): Option<nat> {
    if Decodes(s) then Some(Fold(Digits(s))) else None
  }

  /** `_crockford_base32_decode`; None is its ValueError. */
  method DecodeBase32(s: string) returns (r: Option<nat>)
    ensures r == Decode(s)
  {
    var result := 0;
    for i := 0 to |s|
      invariant Decodes(s[..i]) && result == Fold(Digits(s[..i]))
    {
      var v := Value(s[i]);
      if v.None? {
        return None;
      }
      assert Digits(s[..i + 1])[..i] == Digits(s[..i]);
      result := result * 32 + v.value;
    }
    assert s[..|s|] == s;
    r := Some(result);
  }

  function Pow32(n: nat): nat {
    if n == 0 then 1 else 32 * Pow32(n - 1)
  }

  ghost predicate AreDigits(ds: seq<nat>) {
    forall i :: 0 <= i < |ds| ==> ds[i] < 32
  }

  lemma {:induction false} FoldBound(ds: seq<nat>)
    requires AreDigits(ds)
    ensures Fold(ds) < Pow32(|ds|)
  {
    if ds != [] {
      FoldBound(ds[..|ds| - 1]);
    }
  }

  /** A number with its first digit taken first. */
  lemma {:induction false} FoldHead(ds: seq<nat>)
    requires ds != []
    ensures Fold(ds) == ds[0] * Pow32(|ds| - 1) + Fold(ds[1..])
  {
    var last := |ds| - 1;
    if last == 0 {
      assert ds[..0] == [] && ds[1..] == [];
    } else {
      FoldHead(ds[..last]);
      assert ds[1..][..last - 1] == ds[..last][1..];
      Distribute(ds[0], Pow32(last - 1));
    }
  }

  lemma Distribute(v: nat, p: nat)
    ensures v * p * 32 == v * (32 * p)
  {
  }

  lemma LessHead(a: nat, b: nat, p: nat, r: nat)
    requires a < b && r < p
    ensures a * p + r < b * p
  {
    assert (a + 1) * p <= b * p;
  }

  /** Decoding is bounded by 32 to the length. */
  lemma DecodeBound(s: string)
    ensures Decode(s).Some? ==> Decode(s).value < Pow32(|s|)
  {
    if Decodes(s) {
      FoldBound(Digits(s));
    }
  }

  lemma SameValuesSameNumber(s: string, t: string)
    requires |s| == |t| && forall i :: 0 <= i < |s| ==> Value(s[i]) == Value(t[i])
    ensures Decode(s) == Decode(t)
  {
    if Decodes(s) {
      assert Digits(s) == Digits(t);
    }
  }

  /** The character as the alphabet writes it: upper case, 1 for I and L, 0 for O. */
  function PlainChar(c: char): char {
    var u := Upper(c);
    if u == 'I' || u == 'L' then '1' else if u == 'O' then '0' else u
  }

  function Plain(s: string): (r: string)
    ensures |r| == |s| && forall i :: 0 <= i < |s| ==> r[i] == PlainChar(s[i])
  {
    seq(|s|, i requires 0 <= i < |s| => PlainChar(s[i]))
  }

  lemma PlainCharValue(c: char)
    ensures Value(PlainChar(c)) == Value(c)
    ensures Value(c).Some? ==> IsCanonical(PlainChar(c))
  {
  }

  /** Neither case nor the choice of an alias matters: a string decodes as its plain spelling does,
      which is canonical whenever it decodes. */
  lemma AliasesDoNotMatter(s: string)
    ensures Decode(Plain(s)) == Decode(s)
    ensures Decode(s).Some? ==> Canonical(Plain(s))
  {
    forall i | 0 <= i < |s|
      ensures Value(Plain(s)[i]) == Value(s[i]) && (Value(s[i]).Some? ==> IsCanonical(Plain(s)[i]))
    {
      PlainCharValue(s[i]);
    }
    SameValuesSameNumber(Plain(s), s);
  }

  ghost predicate Canonical(s: string) {
    forall i :: 0 <= i < |s| ==> IsCanonical(s[i])
  }

  ghost predicate CanonicalPair(s: string, t: string) {
    Canonical(s) && Canonical(t) && |s| == |t|
  }

  lemma LessFirst(ds: seq<nat>, es: seq<nat>)
    requires AreDigits(ds) && AreDigits(es) && |ds| == |es| > 0 && ds[0] < es[0]
    ensures Fold(ds) < Fold(es)
  {
    FoldHead(ds);
    FoldHead(es);
    FoldBound(ds[1..]);
    LessHead(ds[0], es[0], Pow32(|ds| - 1), Fold(ds[1..]));
  }

  /** Main result: on canonical strings of one length, string order is numeric order. */
  lemma {:induction false} OrderIsNumeric(s: string, t: string)
    requires CanonicalPair(s, t)
    ensures Decodes(s) && Decodes(t)
    ensures LexLe(s, t) <==> Fold(Digits(s)) <= Fold(Digits(t))
    decreases |s|
  {
    if s != "" {
      OrderIsNumeric(s[1..], t[1..]);
      var ds, es := Digits(s), Digits(t);
      assert ds[1..] == Digits(s[1..]) && es[1..] == Digits(t[1..]);
      LettersAscend(s[0], t[0]);
      LettersAscend(t[0], s[0]);
      if s[0] < t[0] {
        LessFirst(ds, es);
      } else if t[0] < s[0] {
        LessFirst(es, ds);
      } else {
        FoldHead(ds);
        FoldHead(es);
      }
    }
  }

  /** Different canonical strings of one length decode to different numbers. */
  lemma DecodeIsInjective(s: string, t: string)
    requires CanonicalPair(s, t) && Decode(s) == Decode(t)
    ensures s == t
  {
    OrderIsNumeric(s, t);
    OrderIsNumeric(t, s);
    LexTotal(s, t);
  }

  /** The canonical string of a number, with leading zeros. */
  function Encode(n: nat, length: nat): string
    requires n < Pow32(length)
    ensures |Encode(n, length)| == length
  {
    if length == 0 then "" else Encode(n / 32, length - 1) + [Letter(n % 32)]
  }

  /** Every number below 32 to the length has a canonical string of that length. */
  lemma {:induction false} EncodeRoundTrip(n: nat, length: nat)
    requires n < Pow32(length)
    ensures Canonical(Encode(n, length)) && Decode(Encode(n, length)) == Some(n)
    decreases length
  {
    if length > 0 {
      var init := Encode(n / 32, length - 1);
      EncodeRoundTrip(n / 32, length - 1);
      LetterValue(n % 32);
      var s := init + [Letter(n % 32)];
      assert Digits(s)[..length - 1] == Digits(init);
    }
  }

  /** And every canonical string is the one of its number. */
  lemma EncodeAfterDecode(s: string)
    requires Canonical(s)
    ensures Decode(s).Some? && Decode(s).value < Pow32(|s|) && Encode(Decode(s).value, |s|) == s
  {
    DecodeBound(s);
    var n := Decode(s).value;
    EncodeRoundTrip(n, |s|);
    DecodeIsInjective(Encode(n, |s|), s);
  }

  // ----- the timestamp of a ULID

  /** The first millisecond of the year 10000, which `datetime` cannot represent. */
  const TOO_LATE: nat := 253402300800000

  /** `_decode_ulid_timestamp`, in milliseconds since the epoch. */
  function UlidMilliseconds(id: string): Option<nat> {
    if |id| != 26 then None
    else
      var n := Decode(id[..10]);
      if n.Some? && n.value < TOO_LATE then n else None
  }

  lemma TenCharacters(s: string)
    requires |s| == 10 && Decode(s).Some?
    ensures Decode(s).value < 0x4_0000_0000_0000
  {
    DecodeBound(s);
    assert Pow32(5) == 0x200_0000;
    assert Pow32(10) == 32 * (32 * (32 * (32 * (32 * Pow32(5)))));
  }

  /** A timestamp is read from 26 characters of which the first ten decode, whatever the others
      are: it is the number these stand for. It is below 2 to the 50 even where the calendar ends earlier. */
  lemma TimestampExactly(id: string)
    ensures UlidMilliseconds(id).Some? <==>
              |id| == 26 && Decodes(id[..10]) && Fold(Digits(id[..10])) < 253402300800000
    ensures UlidMilliseconds(id).Some? ==> UlidMilliseconds(id).value == Fold(Digits(id[..10]))
    ensures |id| == 26 && Decodes(id[..10]) ==> Fold(Digits(id[..10])) < 0x4_0000_0000_0000
  {
    if |id| == 26 && Decodes(id[..10]) {
      TenCharacters(id[..10]);
    }
  }

  /** Among canonical ids, an earlier id has no later timestamp. */
  lemma IdsSortByTime(a: string, b: string)
    requires |a| == 26 && CanonicalPair(a, b) && LexLe(a, b)
    requires UlidMilliseconds(a).Some? && UlidMilliseconds(b).Some?
    ensures UlidMilliseconds(a).value <= UlidMilliseconds(b).value
  {
    PrefixLexLe(a, b, 10);
    OrderIsNumeric(a[..10], b[..10]);
  }

  lemma {:induction false} PrefixLexLe(a: string, b: string, n: nat)
    requires n <= |a| && n <= |b| && LexLe(a, b)
    ensures LexLe(a[..n], b[..n])
    decreases n
  {
    if n > 0 && a[0] == b[0] {
      PrefixLexLe(a[1..], b[1..], n - 1);
      assert a[..n][1..] == a[1..][..n - 1] && b[..n][1..] == b[1..][..n - 1];
    }
  }
}
