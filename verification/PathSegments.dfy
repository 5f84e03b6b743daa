/** The segments of an HTTP path: what stands between slashes, without blanks too many and without the query. */
module PathSegments {
  import opened Text

  predicate IsBlank(c: char) {
    IsBlankIn(c, ScriptSpace)
  }

  /** Runs of blanks become one space. */
  function CollapseBlanks(s: string): (r: string)
    ensures '/' !in s ==> '/' !in r
  {
    if s == "" then ""
    else if !IsBlank(s[0]) then [s[0]] + CollapseBlanks(s[1..])
    else if |s| > 1 && IsBlank(s[1]) then CollapseBlanks(s[1..])
    else " " + CollapseBlanks(s[1..])
  }

  lemma {:induction false} TrimKeepsOut(s: string, c: char)
    requires c !in s
    ensures c !in Trim(s, ScriptSpace)
  {
    var t := TrimStart(s, ScriptSpace);
    TrimStartIsSuffix(s, ScriptSpace);
    TrimEndIsPrefix(t, ScriptSpace);
  }

  function NormalizeSegment(s: string): string {
    CollapseBlanks(Trim(s, ScriptSpace))
  }

  function UpTo(s: string, c: char): (r: string)
    ensures |r| <= |s|
  {
    if s == "" || s[0] == c then "" else [s[0]] + UpTo(s[1..], c)
  }

  lemma {:induction false} UpToKeepsOut(s: string, c: char)
    ensures c !in UpTo(s, c)
  {
    if s != "" && s[0] != c { UpToKeepsOut(s[1..], c); }
  }

  /** The non-blank parts between slashes. */
  function SegmentsOf(s: string): seq<string>
    decreases |s|
  {
    var head := UpTo(s, '/');
    var first := NormalizeSegment(head);
    var rest := if |head| < |s| then SegmentsOf(s[|head| + 1..]) else [];
    if first == "" then rest else [first] + rest
  }

  lemma {:induction false} SegmentsAreSegments(s: string)
    ensures AreSegments(SegmentsOf(s))
    decreases |s|
  {
    var head := UpTo(s, '/');
    UpToKeepsOut(s, '/');
    TrimKeepsOut(head, '/');
    if |head| < |s| {
      SegmentsAreSegments(s[|head| + 1..]);
    }
  }

  function SplitPathSegments(path: string): seq<string> {
    SegmentsOf(UpTo(path, '?'))
  }

  // ---------------------------------------------------------------------------
  // Which segments a path has.

  predicate AreBlank(s: string) {
    forall i :: 0 <= i < |s| ==> IsBlank(s[i])
  }

  /** Neither begins nor ends with a blank, and is not empty. */
  predicate HasFirmEnds(s: string) {
    s != "" && !IsBlank(s[0]) && !IsBlank(s[|s| - 1])
  }

  /** Single spaces are the only blanks, and all are inside. */
  predicate IsTidyText(s: string) {
    && HasFirmEnds(s)
    && forall i :: 0 <= i < |s| && IsBlank(s[i]) ==> s[i] == ' ' && i + 1 < |s| && !IsBlank(s[i + 1])
  }

  lemma {:induction false} UpToNothing(s: string, c: char)
    requires c !in s
    ensures UpTo(s, c) == s
  {
    if s != "" { UpToNothing(s[1..], c); }
  }

  lemma {:induction false} UpToFirst(a: string, rest: string, c: char)
    ensures UpTo(a + [c] + rest, c) == UpTo(a, c)
  {
    var s := a + [c] + rest;
    if a == "" {
      assert s[0] == c;
    } else {
      assert s[0] == a[0] && s[1..] == a[1..] + [c] + rest;
      UpToFirst(a[1..], rest, c);
    }
  }

  lemma {:induction false} UpToAfter(a: string, b: string, c: char)
    requires c !in a
    ensures UpTo(a + b, c) == a + UpTo(b, c)
  {
    var s := a + b;
    if a == "" {
      assert s == b;
    } else {
      assert s[0] == a[0] && s[1..] == a[1..] + b;
      UpToAfter(a[1..], b, c);
      assert [a[0]] + (a[1..] + UpTo(b, c)) == a + UpTo(b, c);
    }
  }

  /** What comes after the first question mark does not matter. */
  lemma QueryIsIgnored(path: string, query: string)
    ensures SplitPathSegments(path + "?" + query) == SplitPathSegments(path)
  {
    UpToFirst(path, query, '?');
  }

  lemma FirstPart(head: string, rest: string)
    requires '/' !in head
    ensures SegmentsOf(head + "/" + rest) == SegmentsOf(head) + SegmentsOf(rest)
  {
    hide NormalizeSegment;
    var s := head + "/" + rest;
    UpToFirst(head, rest, '/');
    UpToNothing(head, '/');
    assert s[|head| + 1..] == rest;
  }

  lemma {:induction false} SegmentsOfParts(a: string, b: string)
    ensures SegmentsOf(a + "/" + b) == SegmentsOf(a) + SegmentsOf(b)
    decreases |a|
  {
    hide SegmentsOf;
    if '/' !in a {
      FirstPart(a, b);
    } else {
      var head, rest := SplitsAtSlash(a);
      FirstPart(head, rest);
      FirstPart(head, rest + "/" + b);
      SegmentsOfParts(rest, b);
      assert a + "/" + b == head + "/" + (rest + "/" + b);
      assert SegmentsOf(head) + (SegmentsOf(rest) + SegmentsOf(b)) == (SegmentsOf(head) + SegmentsOf(rest)) + SegmentsOf(b);
    }
  }

  lemma {:induction false} SplitsAtSlash(s: string) returns (head: string, rest: string)
    requires '/' in s
    ensures '/' !in head && s == head + "/" + rest
  {
    if s[0] == '/' {
      head, rest := "", s[1..];
    } else {
      head, rest := SplitsAtSlash(s[1..]);
      head := [s[0]] + head;
    }
  }

  /** A slash separates: the segments before it, then those after it. */
  lemma SlashesSeparate(a: string, b: string)
    requires '?' !in a
    ensures SplitPathSegments(a + "/" + b) == SplitPathSegments(a) + SplitPathSegments(b)
  {
    UpToNothing(a, '?');
    UpToAfter(a + "/", b, '?');
    SegmentsOfParts(a, UpTo(b, '?'));
    assert a + "/" + UpTo(b, '?') == (a + "/") + UpTo(b, '?');
  }

  /** The text between two slashes. */
  predicate IsPart(s: string) {
    '/' !in s && '?' !in s
  }

  lemma PartIsNormalized(part: string)
    requires IsPart(part)
    ensures SplitPathSegments(part) == if NormalizeSegment(part) == "" then [] else [NormalizeSegment(part)]
  {
    UpToNothing(part, '?');
    UpToNothing(part, '/');
  }

  lemma {:induction false} TidyIsCollapsed(s: string)
    requires forall i :: 0 <= i < |s| && IsBlank(s[i]) ==> s[i] == ' ' && i + 1 < |s| && !IsBlank(s[i + 1])
    ensures CollapseBlanks(s) == s
  {
    if s != "" {
      forall i | 0 <= i < |s[1..]| && IsBlank(s[1..][i])
        ensures s[1..][i] == ' ' && i + 1 < |s[1..]| && !IsBlank(s[1..][i + 1])
      {
        assert s[1..][i] == s[i + 1];
      }
      TidyIsCollapsed(s[1..]);
    }
  }

  /** A part that is empty or blank is no segment; a tidy one is itself, whatever blanks stand around it. */
  lemma PartLaw(before: string, part: string, after: string)
    requires AreBlank(before) && AreBlank(after) && IsPart(part) && (part == "" || IsTidyText(part))
    ensures SplitPathSegments(before + part + after) == if part == "" then [] else [part]
  {
    var s := before + part + after;
    TrimLaw(before, part, after, ScriptSpace);
    TidyIsCollapsed(part);
    assert IsPart(s);
    PartIsNormalized(s);
  }

  lemma {:induction false} CollapseRun(a: string, run: string, b: string)
    requires run != "" && AreBlank(run)
    ensures CollapseBlanks(a + run + b) == CollapseBlanks(a + " " + b)
    decreases |a| + |run|
  {
    var s, t := a + run + b, a + " " + b;
    if a == "" {
      assert t[0] == ' ' && t[1..] == b && IsBlank(' ');
      assert s[0] == run[0] && s[1..] == run[1..] + b;
      if |run| > 1 {
        assert s[1] == run[1];
        CollapseRun("", run[1..], b);
        assert "" + run[1..] + b == run[1..] + b && "" + " " + b == t;
      } else {
        assert s[1..] == b;
      }
    } else {
      assert s[0] == t[0] == a[0] && s[1..] == a[1..] + run + b && t[1..] == a[1..] + " " + b;
      assert |a| == 1 ==> s[1] == run[0] && t[1] == ' ';
      assert |a| > 1 ==> s[1] == a[1] == t[1];
      CollapseRun(a[1..], run, b);
    }
  }

  lemma FirmIsTrimmed(s: string)
    requires HasFirmEnds(s)
    ensures Trim(s, ScriptSpace) == s
  {
    TrimLaw("", s, "", ScriptSpace);
    assert "" + s + "" == s;
  }

  lemma FirmAround(a: string, run: string, b: string)
    requires IsPart(a) && IsPart(b) && HasFirmEnds(a) && HasFirmEnds(b) && AreBlank(run)
    ensures HasFirmEnds(a + run + b) && IsPart(a + run + b)
  {
    var s := a + run + b;
    assert s[0] == a[0] && s[|s| - 1] == b[|b| - 1];
  }

  /** Blanks inside a part count as one space, however many and whatever they are. */
  lemma BlanksWithinAreOne(a: string, run: string, b: string)
    requires IsPart(a) && IsPart(b) && HasFirmEnds(a) && HasFirmEnds(b) && run != "" && AreBlank(run)
    ensures SplitPathSegments(a + run + b) == SplitPathSegments(a + " " + b)
  {
    FirmAround(a, run, b);
    FirmAround(a, " ", b);
    hide CollapseBlanks, Trim, HasFirmEnds, IsPart, SplitPathSegments, AreBlank;
    FirmIsTrimmed(a + run + b);
    FirmIsTrimmed(a + " " + b);
    CollapseRun(a, run, b);
    PartIsNormalized(a + run + b);
    PartIsNormalized(a + " " + b);
  }

  /** A path written from tidy segments has these segments. */
  lemma {:induction false} SegmentsReadBack(path: seq<string>)
    requires forall i :: 0 <= i < |path| ==> IsPart(path[i]) && IsTidyText(path[i])
    ensures SplitPathSegments(JoinPath(path)) == path && SplitPathSegments("/" + JoinPath(path)) == path
  {
    hide SplitPathSegments;
    PartLaw("", "", "");
    assert "" + "" + "" == "";
    if |path| > 0 {
      PartLaw("", path[0], "");
      assert "" + path[0] + "" == path[0];
      if |path| == 1 {
        assert path == [path[0]];
      } else {
        SegmentsReadBack(path[1..]);
        SlashesSeparate(path[0], JoinPath(path[1..]));
        assert JoinPath(path) == path[0] + "/" + JoinPath(path[1..]);
        assert [path[0]] + path[1..] == path;
      }
    } else {
      assert path == [] && JoinPath(path) == "";
    }
    SlashesSeparate("", JoinPath(path));
    assert "" + "/" + JoinPath(path) == "/" + JoinPath(path) && [] + path == path;
  }

  lemma LettersAreTidy(word: string)
    requires word != "" && forall i :: 0 <= i < |word| ==> 'a' <= word[i] <= 'z'
    ensures IsPart(word) && IsTidyText(word)
  {
  }

  lemma TwoWordsAreTidy(a: string, b: string)
    requires a != "" && forall i :: 0 <= i < |a| ==> 'a' <= a[i] <= 'z'
    requires b != "" && forall i :: 0 <= i < |b| ==> 'a' <= b[i] <= 'z'
    ensures IsPart(a + " " + b) && IsTidyText(a + " " + b)
  {
    var s := a + " " + b;
    assert forall i :: 0 <= i < |s| ==> s[i] == if i < |a| then a[i] else if i == |a| then ' ' else b[i - |a| - 1];
  }

  lemma PathOfTwo(a: string, b: string)
    requires IsPart(a) && IsTidyText(a) && IsPart(b) && IsTidyText(b)
    ensures SplitPathSegments("/" + a + "/" + b) == [a, b]
  {
    hide SplitPathSegments, IsPart, IsTidyText;
    SegmentsReadBack([a, b]);
    assert JoinPath([a, b]) == a + "/" + b;
    assert "/" + (a + "/" + b) == "/" + a + "/" + b;
  }

  /** Two paths of one server whose leaves belong in different groups. */
  lemma OrdersAndUsers()
    ensures SplitPathSegments("/orders/a") == ["orders", "a"]
    ensures SplitPathSegments("/users/new ones?x=/y") == ["users", "new ones"]
  {
    hide *;
    LettersAreTidy("orders");
    LettersAreTidy("a");
    LettersAreTidy("users");
    TwoWordsAreTidy("new", "ones");
    assert "new" + " " + "ones" == "new ones";
    PathOfTwo("orders", "a");
    PathOfTwo("users", "new ones");
    assert "/" + "orders" + "/" + "a" == "/orders/a" && "/" + "users" + "/" + "new ones" == "/users/new ones";
    QueryIsIgnored("/users/new ones", "x=/y");
    assert "/users/new ones" + "?" + "x=/y" == "/users/new ones?x=/y";
  }
}
