/** Consumer keys in the names of collector routes: two hexadecimal digits for each byte. */
module RouteKeys {
  import opened Options

  type Byte = x: int | 0 <= x < 256

  /** A lower-case hexadecimal digit, in ASCII. */
  function Digit(n: nat): Byte
    requires n < 16
  {
    if n < 10 then 48 + n else 87 + n
  }

  /** The value of a hexadecimal digit of either case. */
  function DigitValue(c: Byte): Option<nat> {
    if 48 <= c <= 57 then Some(c - 48)
    else if 97 <= c <= 102 then Some(c - 87)
    else if 65 <= c <= 70 then Some(c - 55)
    else None
  }

  function Encode(key: seq<Byte>): (r: seq<Byte>)
    ensures |r| == 2 * |key|
  {
    if key == [] then [] else [Digit(key[0] / 16), Digit(key[0] % 16)] + Encode(key[1..])
  }

  /** `u8::from_str_radix(pair, 16)`: a plus sign may stand before the digits. */
  function ParsePair(a: Byte, b: Byte): Option<Byte> {
    if DigitValue(b).None? then None
    else if a == 43 then DigitValue(b)
    else if DigitValue(a).None? then None
    else Some(16 * DigitValue(a).value + DigitValue(b).value)
  }

  /** `c` is the hexadecimal digit for `n`, in either case. */
  ghost predicate IsDigitFor(c: Byte, n: nat) {
    if n < 10 then c == '0' as int + n else n < 16 && (c == 'a' as int + (n - 10) || c == 'A' as int + (n - 10))
  }

  lemma DigitLaw(c: Byte, n: nat)
    ensures DigitValue(c) == Some(n) <==> IsDigitFor(c, n)
    ensures n < 16 ==> IsDigitFor(Digit(n), n) && !('A' as int <= Digit(n) <= 'F' as int)
  {
  }

  /** `high` and `low` are the digits of a pair; a plus sign stands for no digit. */
  ghost predicate AreDigitsFor(a: Byte, b: Byte, high: nat, low: nat) {
    IsDigitFor(b, low) && if a == '+' as int then high == 0 else IsDigitFor(a, high)
  }

  /** Two digits, or one after a plus sign. */
  lemma PairLaw(a: Byte, b: Byte, value: Byte)
    ensures ParsePair(a, b) == Some(value) <==>
            exists high: nat, low: nat :: AreDigitsFor(a, b, high, low) && value == 16 * high + low
  {
    hide DigitValue, IsDigitFor;
    forall n: nat ensures DigitValue(a) == Some(n) <==> IsDigitFor(a, n) { DigitLaw(a, n); }
    forall n: nat ensures DigitValue(b) == Some(n) <==> IsDigitFor(b, n) { DigitLaw(b, n); }
    if ParsePair(a, b) == Some(value) {
      assert AreDigitsFor(a, b, if a == '+' as int then 0 else DigitValue(a).value, DigitValue(b).value);
    }
    if exists high: nat, low: nat :: AreDigitsFor(a, b, high, low) && value == 16 * high + low {
      var high: nat, low: nat :| AreDigitsFor(a, b, high, low) && value == 16 * high + low;
      assert DigitValue(b) == Some(low) && (a == '+' as int || DigitValue(a) == Some(high));
    }
  }

  /** Inside a multi-byte character, where a string slice may not begin or end. */
  predicate IsContinuation(c: Byte) {
    0x80 <= c < 0xC0
  }

  /** A continuation byte of UTF-8 begins with the bits 10. */
  lemma ContinuationLaw(c: Byte)
    ensures IsContinuation(c) <==> c / 64 == 2
  {
  }

  /** Slicing a string inside a character panics. */
  datatype Outcome = Key(bytes: seq<Byte>) | NoKey | Panic

  /** Pairs in turn, until one is no number or ends inside a character. */
  function ParsePairs(s: seq<Byte>): Outcome {
    if s == [] then Key([])
    else if |s| == 1 then NoKey
    else if |s| > 2 && IsContinuation(s[2]) then Panic
    else
      var value := ParsePair(s[0], s[1]);
      if value.None? then NoKey
      else
        match ParsePairs(s[2..])
        case Key(bytes) => Key([value.value] + bytes)
        case other => other
  }

  /** `isUtf8` says which byte sequences are strings. */
  function Decode(s: seq<Byte>, isUtf8: seq<Byte> -> bool): Outcome {
    if |s| % 2 != 0 then NoKey
    else
      match ParsePairs(s)
      case Key(bytes) => if isUtf8(bytes) then Key(bytes) else NoKey
      case other => other
  }

  method EncodeKey(key: seq<Byte>) returns (encoded: seq<Byte>)
    ensures encoded == Encode(key)
  {
    encoded := [];
    for i := 0 to |key|
      invariant encoded + Encode(key[i..]) == Encode(key)
    {
      assert key[i..][0] == key[i] && key[i..][1..] == key[i + 1..];
      var pair := [Digit(key[i] / 16), Digit(key[i] % 16)];
      assert encoded + (pair + Encode(key[i + 1..])) == (encoded + pair) + Encode(key[i + 1..]);
      encoded := encoded + pair;
    }
    assert key[|key|..] == [];
  }

  method DecodeKey(s: seq<Byte>, isUtf8: seq<Byte> -> bool) returns (outcome: Outcome)
    ensures outcome == Decode(s, isUtf8)
  {
    if |s| % 2 != 0 {
      return NoKey;
    }
    var bytes: seq<Byte> := [];
    var index := 0;
    while index < |s|
      invariant 0 <= index <= |s| && index % 2 == 0
      invariant ParsePairs(s) == Prefixed(bytes, ParsePairs(s[index..]))
    {
      var rest := s[index..];
      assert rest[0] == s[index] && rest[1] == s[index + 1] && rest[2..] == s[index + 2..];
      assert |rest| > 2 ==> rest[2] == s[index + 2];
      if index + 2 < |s| && IsContinuation(s[index + 2]) {
        return Panic;
      }
      var value := ParsePair(s[index], s[index + 1]);
      if value.None? {
        return NoKey;
      }
      PrefixedTwice(bytes, value.value, ParsePairs(rest[2..]));
      bytes := bytes + [value.value];
      index := index + 2;
    }
    assert s[index..] == [] && bytes + [] == bytes;
    outcome := if isUtf8(bytes) then Key(bytes) else NoKey;
  }

  function Prefixed(bytes: seq<Byte>, outcome: Outcome): Outcome {
    if outcome.Key? then Key(bytes + outcome.bytes) else outcome
  }

  lemma PrefixedTwice(bytes: seq<Byte>, value: Byte, outcome: Outcome)
    ensures Prefixed(bytes, Prefixed([value], outcome)) == Prefixed(bytes + [value], outcome)
  {
    if outcome.Key? {
      assert bytes + ([value] + outcome.bytes) == (bytes + [value]) + outcome.bytes;
    }
  }

  predicate IsLowerDigit(c: Byte) {
    48 <= c <= 57 || 97 <= c <= 102
  }

  lemma LowerDigitsAreWritten(c: Byte)
    ensures IsLowerDigit(c) <==> exists n: nat :: n < 16 && Digit(n) == c
  {
    if IsLowerDigit(c) {
      assert Digit(if c <= 57 then c - 48 else c - 87) == c;
    }
  }

  predicate AllLower(s: seq<Byte>) {
    forall i :: 0 <= i < |s| ==> IsLowerDigit(s[i])
  }

  lemma {:induction false} EncodedIsLower(key: seq<Byte>)
    ensures AllLower(Encode(key))
  {
    if key != [] {
      EncodedIsLower(key[1..]);
    }
  }

  lemma {:induction false} ParsesBack(key: seq<Byte>)
    ensures ParsePairs(Encode(key)) == Key(key)
  {
    if key != [] {
      var rest := Encode(key[1..]);
      EncodedIsLower(key);
      assert Encode(key)[2..] == rest;
      assert |rest| > 0 ==> IsLowerDigit(Encode(key)[2]);
      ParsesBack(key[1..]);
      assert key == [key[0]] + key[1..];
    }
  }

  /** Every consumer key is read back from the name of its route. */
  lemma KeyReadsBack(key: seq<Byte>, isUtf8: seq<Byte> -> bool)
    requires isUtf8(key)
    ensures Decode(Encode(key), isUtf8) == Key(key)
  {
    hide ParsePairs;
    ParsesBack(key);
  }

  lemma AllLowerByPairs(s: seq<Byte>)
    requires |s| >= 2
    ensures AllLower(s) <==> IsLowerDigit(s[0]) && IsLowerDigit(s[1]) && AllLower(s[2..])
  {
    assert forall i :: 2 <= i < |s| ==> s[i] == s[2..][i - 2];
  }

  lemma PairReencodes(a: Byte, b: Byte)
    requires ParsePair(a, b).Some?
    ensures var value := ParsePair(a, b).value;
            Digit(value / 16) == a && Digit(value % 16) == b <==> IsLowerDigit(a) && IsLowerDigit(b)
  {
  }

  lemma {:induction false} ReencodedPairs(s: seq<Byte>)
    requires ParsePairs(s).Key?
    ensures Encode(ParsePairs(s).bytes) == s <==> AllLower(s)
  {
    if s != [] {
      var bytes, rest := ParsePairs(s).bytes, s[2..];
      ReencodedPairs(rest);
      AllLowerByPairs(s);
      PairReencodes(s[0], s[1]);
      assert bytes[1..] == ParsePairs(rest).bytes;
      hide IsLowerDigit, AllLower, ParsePair, Digit;
      var encoded := Encode(bytes);
      assert encoded[2..] == Encode(bytes[1..]);
      assert encoded == [encoded[0], encoded[1]] + encoded[2..] && s == [s[0], s[1]] + rest;
    }
  }

  /** A name that reads as a key is the name of that key exactly when it is all lower-case digits. */
  lemma NameOfItsKey(s: seq<Byte>, isUtf8: seq<Byte> -> bool)
    requires Decode(s, isUtf8).Key?
    ensures Encode(Decode(s, isUtf8).bytes) == s <==> AllLower(s)
  {
    ReencodedPairs(s);
  }

  /** A run of whole pairs that all parse. */
  predicate ParsesUpTo(s: seq<Byte>, n: nat)
    requires 2 * n <= |s|
  {
    forall i :: 0 <= i < n ==> ParsePair(s[2 * i], s[2 * i + 1]).Some?
  }

  /** A pair that ends inside a character, with only numbers before it. */
  predicate SplitsAt(s: seq<Byte>, n: nat) {
    2 * n + 2 < |s| && IsContinuation(s[2 * n + 2]) && ParsesUpTo(s, n)
  }

  lemma {:induction false} PanicsWhenSplit(s: seq<Byte>)
    requires |s| % 2 == 0
    ensures ParsePairs(s).Panic? <==> exists n: nat :: SplitsAt(s, n)
  {
    if s != [] && !(|s| > 2 && IsContinuation(s[2])) {
      var rest := s[2..];
      PanicsWhenSplit(rest);
      if ParsePairs(s).Panic? {
        var n: nat :| SplitsAt(rest, n);
        SplitShifts(s, n);
      }
      if n: nat :| SplitsAt(s, n) {
        assert n > 0;
        assert ParsePair(s[2 * 0], s[2 * 0 + 1]).Some?;
        SplitShifts(s, n - 1);
      }
    } else if s != [] {
      assert SplitsAt(s, 0);
    }
  }

  lemma SplitShifts(s: seq<Byte>, n: nat)
    requires |s| >= 2 && ParsePair(s[0], s[1]).Some?
    ensures SplitsAt(s[2..], n) <==> SplitsAt(s, n + 1)
  {
    var rest := s[2..];
    if 2 * (n + 1) + 2 < |s| {
      assert rest[2 * n + 2] == s[2 * (n + 1) + 2];
      forall i | 0 <= i < n
        ensures ParsePair(rest[2 * i], rest[2 * i + 1]) == ParsePair(s[2 * (i + 1)], s[2 * (i + 1) + 1])
      {
      }
      if ParsesUpTo(rest, n) {
        forall i | 0 <= i < n + 1 ensures ParsePair(s[2 * i], s[2 * i + 1]).Some? {
          if i > 0 {
            assert ParsePair(rest[2 * (i - 1)], rest[2 * (i - 1) + 1]).Some?;
          }
        }
      }
      if ParsesUpTo(s, n + 1) {
        forall i | 0 <= i < n ensures ParsePair(rest[2 * i], rest[2 * i + 1]).Some? {
          assert ParsePair(s[2 * (i + 1)], s[2 * (i + 1) + 1]).Some?;
        }
      }
    }
  }

  /**
   Decoding panics exactly when a pair ends inside a character and all pairs before it are numbers;
   never, then, on a name in ASCII.
   */
  lemma DecodePanicsExactly(s: seq<Byte>, isUtf8: seq<Byte> -> bool)
    ensures Decode(s, isUtf8).Panic? <==> |s| % 2 == 0 && exists n: nat :: SplitsAt(s, n)
  {
    if |s| % 2 == 0 {
      PanicsWhenSplit(s);
    }
  }

  /** The text `0é0` in UTF-8: its first pair ends inside the accented letter. */
  lemma AccentedNamePanics(isUtf8: seq<Byte> -> bool)
    ensures Decode([0x30, 0xC3, 0xA9, 0x30], isUtf8) == Panic
  {
    var s: seq<Byte> := [0x30, 0xC3, 0xA9, 0x30];
    assert IsContinuation(s[2]);
  }
}
