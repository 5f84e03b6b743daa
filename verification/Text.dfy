/** String helpers shared by the models: decimal numerals, joining and trimming. */
module Text {

  function Digit(n: nat): char
    requires n < 10
  {
    "0123456789"[n]
  }

  /** The decimal numeral of `n`, without leading zeros. */
  function Decimal(n: nat): (s: string)
    ensures s != ""
  {
    if n < 10 then [Digit(n)] else Decimal(n / 10) + [Digit(n % 10)]
  }

  /** The number a string of decimal digits spells. */
  function DecimalValue(s: string): int {
    if s == "" then 0 else 10 * DecimalValue(s[..|s| - 1]) + (s[|s| - 1] as int - '0' as int)
  }

  lemma {:induction false} DecimalRoundTrip(n: nat)
    ensures DecimalValue(Decimal(n)) == n
  {
    if n < 10 {
      assert Decimal(n)[..0] == "";
    } else {
      DecimalRoundTrip(n / 10);
      assert Decimal(n)[..|Decimal(n)| - 1] == Decimal(n / 10);
    }
  }

  lemma DecimalIsInjective(a: nat, b: nat)
    requires Decimal(a) == Decimal(b)
    ensures a == b
  {
    DecimalRoundTrip(a);
    DecimalRoundTrip(b);
  }

  /** `segments.join("/")` */
  function JoinPath(segments: seq<string>): string {
    if segments == [] then ""
    else if |segments| == 1 then segments[0]
    else segments[0] + "/" + JoinPath(segments[1..])
  }

  /** What a path segment looks like once blank ones are dropped. */
  predicate IsSegment(s: string) {
    s != "" && '/' !in s
  }

  predicate AreSegments(path: seq<string>) {
    forall i :: 0 <= i < |path| ==> IsSegment(path[i])
  }

  function FirstSlash(s: string): (n: nat)
    ensures n <= |s|
  {
    if s == "" || s[0] == '/' then 0 else 1 + FirstSlash(s[1..])
  }

  lemma {:induction false} SlashAfterSegment(a: string, b: string)
    requires '/' !in a
    ensures FirstSlash(a + "/" + b) == |a|
  {
    var s := a + "/" + b;
    if a == "" {
      assert s[0] == '/';
    } else {
      assert s[0] == a[0] && s[1..] == a[1..] + "/" + b;
      SlashAfterSegment(a[1..], b);
    }
  }

  lemma SlashSplitsOnce(a: string, b: string, c: string, d: string)
    requires '/' !in a && '/' !in c
    requires a + "/" + b == c + "/" + d
    ensures a == c && b == d
  {
    var s := a + "/" + b;
    SlashAfterSegment(a, b);
    SlashAfterSegment(c, d);
    assert a == s[..|a|] && c == s[..|c|];
    assert b == s[|a| + 1..] && d == s[|c| + 1..];
  }

  lemma JoinHasSlash(a: seq<string>)
    requires AreSegments(a)
    ensures '/' in JoinPath(a) <==> |a| >= 2
    ensures JoinPath(a) == "" <==> a == []
  {
    if |a| >= 2 {
      assert JoinPath(a)[|a[0]|] == '/';
    } else if |a| == 1 {
      assert IsSegment(a[0]);
    }
  }

  /** Joining non-empty segments without slashes loses nothing. */
  lemma {:induction false} JoinIsInjective(a: seq<string>, b: seq<string>)
    requires AreSegments(a) && AreSegments(b)
    requires JoinPath(a) == JoinPath(b)
    ensures a == b
    decreases |a|
  {
    JoinHasSlash(a);
    JoinHasSlash(b);
    if |a| == 1 {
      assert a == [a[0]] && b == [b[0]];
    } else if |a| >= 2 {
      assert IsSegment(a[0]) && IsSegment(b[0]);
      SlashSplitsOnce(a[0], JoinPath(a[1..]), b[0], JoinPath(b[1..]));
      JoinIsInjective(a[1..], b[1..]);
      assert a == [a[0]] + a[1..] && b == [b[0]] + b[1..];
    }
  }

  // ---------------------------------------------------------------------------

  /** Two notions of a blank: the Unicode property White_Space, and the `\s` of script patterns. */
  datatype Blanks = WhiteSpace | ScriptSpace

  predicate IsBlankIn(c: char, blanks: Blanks) {
    var n := c as int;
    || 0x9 <= n <= 0xD || n == 0x20 || n == 0xA0 || n == 0x1680
    || 0x2000 <= n <= 0x200A || n == 0x2028 || n == 0x2029 || n == 0x202F || n == 0x205F || n == 0x3000
    || n == (match blanks case WhiteSpace => 0x85 case ScriptSpace => 0xFEFF)
  }

  function TrimStart(s: string, blanks: Blanks): (r: string)
    ensures r != "" ==> !IsBlankIn(r[0], blanks)
    ensures |r| <= |s|
  {
    if s != "" && IsBlankIn(s[0], blanks) then TrimStart(s[1..], blanks) else s
  }

  function TrimEnd(s: string, blanks: Blanks): (r: string)
    ensures r != "" ==> !IsBlankIn(r[|r| - 1], blanks)
    ensures |r| <= |s|
  {
    if s != "" && IsBlankIn(s[|s| - 1], blanks) then TrimEnd(s[..|s| - 1], blanks) else s
  }

  lemma {:induction false} TrimStartIsSuffix(s: string, blanks: Blanks)
    ensures var r := TrimStart(s, blanks); s[|s| - |r|..] == r
  {
    if s != "" && IsBlankIn(s[0], blanks) {
      TrimStartIsSuffix(s[1..], blanks);
    }
  }

  lemma {:induction false} TrimEndIsPrefix(s: string, blanks: Blanks)
    ensures var r := TrimEnd(s, blanks); s[..|r|] == r
  {
    if s != "" && IsBlankIn(s[|s| - 1], blanks) {
      TrimEndIsPrefix(s[..|s| - 1], blanks);
    }
  }

  /** Removes blanks from both ends. */
  function Trim(s: string, blanks: Blanks): (r: string)
    ensures r != "" ==> !IsBlankIn(r[0], blanks) && !IsBlankIn(r[|r| - 1], blanks)
    ensures |r| <= |s|
  {
    TrimEndIsPrefix(TrimStart(s, blanks), blanks);
    TrimEnd(TrimStart(s, blanks), blanks)
  }

  lemma TrimIsIdempotent(s: string, blanks: Blanks)
    ensures Trim(Trim(s, blanks), blanks) == Trim(s, blanks)
  {
  }

  predicate AreBlankIn(s: string, blanks: Blanks) {
    forall i :: 0 <= i < |s| ==> IsBlankIn(s[i], blanks)
  }

  lemma {:induction false} TrimStartLaw(before: string, s: string, blanks: Blanks)
    requires AreBlankIn(before, blanks) && (s == "" || !IsBlankIn(s[0], blanks))
    ensures TrimStart(before + s, blanks) == s
  {
    hide IsBlankIn;
    if before == "" {
      assert before + s == s;
    } else {
      assert (before + s)[0] == before[0] && (before + s)[1..] == before[1..] + s;
      TrimStartLaw(before[1..], s, blanks);
    }
  }

  lemma {:induction false} TrimEndLaw(s: string, after: string, blanks: Blanks)
    requires AreBlankIn(after, blanks) && (s == "" || !IsBlankIn(s[|s| - 1], blanks))
    ensures TrimEnd(s + after, blanks) == s
  {
    hide IsBlankIn;
    if after == "" {
      assert s + after == s;
    } else {
      var n := |after| - 1;
      assert (s + after)[|s| + n] == after[n] && (s + after)[..|s| + n] == s + after[..n];
      TrimEndLaw(s, after[..n], blanks);
    }
  }

  /** Blanks at both ends go, and nothing else. */
  lemma TrimLaw(before: string, s: string, after: string, blanks: Blanks)
    requires AreBlankIn(before, blanks) && AreBlankIn(after, blanks)
    requires s == "" || (!IsBlankIn(s[0], blanks) && !IsBlankIn(s[|s| - 1], blanks))
    ensures Trim(before + s + after, blanks) == s
  {
    hide IsBlankIn;
    if s == "" {
      assert before + s + after == (before + after) + "";
      TrimStartLaw(before + after, "", blanks);
    } else {
      assert before + s + after == before + (s + after);
      TrimStartLaw(before, s + after, blanks);
    }
    TrimEndLaw(s, after, blanks);
  }

  lemma {:induction false} TrimStartCutsBlanks(s: string, blanks: Blanks)
    ensures AreBlankIn(s[..|s| - |TrimStart(s, blanks)|], blanks)
  {
    hide IsBlankIn;
    if s != "" && IsBlankIn(s[0], blanks) {
      TrimStartCutsBlanks(s[1..], blanks);
      var n := |s| - |TrimStart(s, blanks)|;
      assert s[..n] == [s[0]] + s[1..][..n - 1];
    }
  }

  lemma {:induction false} TrimEndCutsBlanks(s: string, blanks: Blanks)
    ensures AreBlankIn(s[|TrimEnd(s, blanks)|..], blanks)
  {
    hide IsBlankIn;
    if s != "" && IsBlankIn(s[|s| - 1], blanks) {
      var front := s[..|s| - 1];
      TrimEndCutsBlanks(front, blanks);
      var n := |TrimEnd(s, blanks)|;
      assert s[n..] == front[n..] + [s[|s| - 1]];
    }
  }

  /** `s` is `core` with blanks around it, and `core` has none at its ends. */
  ghost predicate IsCore(core: string, s: string, blanks: Blanks) {
    && (core == "" || (!IsBlankIn(core[0], blanks) && !IsBlankIn(core[|core| - 1], blanks)))
    && exists before, after :: AreBlankIn(before, blanks) && AreBlankIn(after, blanks) && s == before + core + after
  }

  lemma TrimIsCore(s: string, core: string, blanks: Blanks)
    ensures Trim(s, blanks) == core <==> IsCore(core, s, blanks)
  {
    hide AreBlankIn, IsBlankIn, TrimStart, TrimEnd;
    if IsCore(core, s, blanks) {
      var before, after :| AreBlankIn(before, blanks) && AreBlankIn(after, blanks) && s == before + core + after;
      TrimLaw(before, core, after, blanks);
    }
    if Trim(s, blanks) == core {
      var before, after := TrimmedOff(s, blanks);
    }
  }

  lemma TrimmedOff(s: string, blanks: Blanks) returns (before: string, after: string)
    ensures AreBlankIn(before, blanks) && AreBlankIn(after, blanks) && s == before + Trim(s, blanks) + after
  {
    hide AreBlankIn, IsBlankIn, TrimStart, TrimEnd;
    var rest := TrimStart(s, blanks);
    TrimStartIsSuffix(s, blanks);
    TrimStartCutsBlanks(s, blanks);
    TrimEndIsPrefix(rest, blanks);
    TrimEndCutsBlanks(rest, blanks);
    before, after := s[..|s| - |rest|], rest[|Trim(s, blanks)|..];
    assert s == before + rest;
  }

  /** The 25 characters with the Unicode property White_Space. */
  const WHITE_SPACE: set<int> := {
    0x9, 0xA, 0xB, 0xC, 0xD, 0x20, 0x85, 0xA0, 0x1680, 0x2000, 0x2001, 0x2002, 0x2003, 0x2004, 0x2005, 0x2006, 0x2007,
    0x2008, 0x2009, 0x200A, 0x2028, 0x2029, 0x202F, 0x205F, 0x3000}

  /** Script patterns take the byte order mark for a blank, and not the next-line control. */
  lemma BlankCharacters(c: char)
    ensures IsBlankIn(c, WhiteSpace) <==> c as int in WHITE_SPACE
    ensures IsBlankIn(c, ScriptSpace) <==> c as int in WHITE_SPACE - {0x85} + {0xFEFF}
  {
  }

  lemma {:induction false} DecimalHasNoLeadingZero(n: nat)
    ensures Decimal(n)[0] == '0' ==> n == 0
    ensures forall i :: 0 <= i < |Decimal(n)| ==> '0' <= Decimal(n)[i] <= '9'
  {
    if n >= 10 {
      DecimalHasNoLeadingZero(n / 10);
    }
  }
}
