/**
  The .NET string operations the game relies on, stated on `seq<char>`:
  `char.IsWhiteSpace`, `string.IsNullOrWhiteSpace`, `Trim`, `ToLower`,
  `IndexOf(char)`, `Split(char)` and the case-insensitive comparison.
  Case folding is ASCII only.
 */
module Text {

  /** `char.IsWhiteSpace`: the white-space controls, the Unicode space
      separators and the line and paragraph separators. */
  predicate IsWhiteSpace(c: char) {
    ('\t' <= c <= '\r') || c == ' ' || c == '\U{85}' || c == '\U{A0}' || c == '\U{1680}'
    || ('\U{2000}' <= c <= '\U{200A}') || c == '\U{2028}' || c == '\U{2029}'
    || c == '\U{202F}' || c == '\U{205F}' || c == '\U{3000}'
  }

  /** `string.IsNullOrWhiteSpace` of a (non-null) string: empty or all white space. */
  predicate IsBlank(s: string) {
    forall i :: 0 <= i < |s| ==> IsWhiteSpace(s[i])
  }

  /** `TrimStart()`: drops the longest all-white prefix. */
  function TrimStart(s: string): string {
    if s != [] && IsWhiteSpace(s[0]) then TrimStart(s[1..]) else s
  }

  /** `TrimEnd()`: drops the longest all-white suffix. */
  function TrimEnd(s: string): string {
    if s != [] && IsWhiteSpace(s[|s| - 1]) then TrimEnd(s[..|s| - 1]) else s
  }

  /** `Trim()`: the string without surrounding white space. */
  function Trim(s: string): string {
    TrimEnd(TrimStart(s))
  }

  lemma {:induction false} TrimStartSpec(s: string)
    ensures var r := TrimStart(s);
      |r| <= |s| && r == s[|s| - |r|..] && IsBlank(s[..|s| - |r|]) && (r == [] || !IsWhiteSpace(r[0]))
  {
    if s != [] && IsWhiteSpace(s[0]) {
      TrimStartSpec(s[1..]);
    }
  }

  lemma {:induction false} TrimEndSpec(s: string)
    ensures var r := TrimEnd(s);
      |r| <= |s| && r == s[..|r|] && IsBlank(s[|r|..]) && (r == [] || !IsWhiteSpace(r[|r| - 1]))
  {
    if s != [] && IsWhiteSpace(s[|s| - 1]) {
      var init := s[..|s| - 1];
      TrimEndSpec(init);
      var r := TrimEnd(init);
      assert TrimEnd(s) == r;
      assert s[|r|..] == init[|r|..] + [s[|s| - 1]];
    }
  }

  /** What `Trim` promises: a slice of `s` that neither starts nor ends with
      white space, empty exactly when `s` is blank, and `s` itself when `s`
      has no white space at its ends. */
  lemma TrimSpec(s: string)
    ensures |Trim(s)| <= |s|
    ensures Trim(s) == [] || (!IsWhiteSpace(Trim(s)[0]) && !IsWhiteSpace(Trim(s)[|Trim(s)| - 1]))
    ensures Trim(s) == [] <==> IsBlank(s)
    ensures s == [] || (!IsWhiteSpace(s[0]) && !IsWhiteSpace(s[|s| - 1])) ==> Trim(s) == s
  {
    var t := TrimStart(s);
    TrimStartSpec(s);
    TrimEndSpec(t);
    var r := TrimEnd(t);
    if r == [] {
      assert s == s[..|s| - |t|] + t;
    }
    if r != [] {
      assert r[0] == t[0];
    }
  }

  /** Trimming twice is trimming once. */
  lemma TrimIdempotent(s: string)
    ensures Trim(Trim(s)) == Trim(s)
  {
    TrimSpec(s);
    TrimSpec(Trim(s));
  }

  /** White space at the end does not survive `TrimEnd`. */
  lemma {:induction false} TrimEndBlankSuffix(x: string, y: string)
    requires IsBlank(y)
    ensures TrimEnd(x + y) == TrimEnd(x)
    decreases |y|
  {
    if y != [] {
      var y' := y[..|y| - 1];
      assert (x + y)[..|x + y| - 1] == x + y';
      TrimEndBlankSuffix(x, y');
    } else {
      assert x + y == x;
    }
  }

  /** `TrimStart` only looks at the front while something is left there. */
  lemma {:induction false} TrimStartPrefix(x: string, y: string)
    requires !IsBlank(x)
    ensures TrimStart(x + y) == TrimStart(x) + y
    decreases |x|
  {
    assert (x + y)[0] == x[0];
    if IsWhiteSpace(x[0]) {
      assert (x + y)[1..] == x[1..] + y;
      TrimStartPrefix(x[1..], y);
    }
  }

  /** Cutting white space off the end does not change the trimmed text. */
  lemma TrimBlankTail(s: string, n: nat)
    requires n <= |s|
    requires IsBlank(s[n..])
    ensures Trim(s[..n]) == Trim(s)
  {
    assert s == s[..n] + s[n..];
    if IsBlank(s[..n]) {
      TrimSpec(s[..n]);
      TrimSpec(s);
    } else {
      TrimStartPrefix(s[..n], s[n..]);
      TrimEndBlankSuffix(TrimStart(s[..n]), s[n..]);
    }
  }

  /** `char.ToLower` restricted to ASCII letters. */
  function LowerChar(c: char): char {
    if 'A' <= c <= 'Z' then (c as int + 32) as char else c
  }

  /** `ToLower()`: every ASCII capital replaced by its small letter. */
  function ToLower(s: string): string {
    seq(|s|, i requires 0 <= i < |s| => LowerChar(s[i]))
  }

  /** Lower-casing twice is lower-casing once. */
  lemma ToLowerIdempotent(s: string)
    ensures ToLower(ToLower(s)) == ToLower(s)
  {
  }

  /** `string.Equals(a, b, StringComparison.OrdinalIgnoreCase)`. */
  predicate EqualsIgnoreCase(a: string, b: string) {
    ToLower(a) == ToLower(b)
  }

  /** `IndexOf(char)`: the first position of `c`, or -1. */
  function IndexOf(s: string, c: char): (r: int)
    ensures -1 <= r < |s|
  {
    if s == [] then -1
    else if s[0] == c then 0
    else
      var k := IndexOf(s[1..], c);
      if k < 0 then -1 else k + 1
  }

  /** `IndexOf` finds the first occurrence: -1 exactly when there is none,
      otherwise a position holding `c` with no `c` before it. */
  lemma {:induction false} IndexOfSpec(s: string, c: char)
    ensures IndexOf(s, c) == -1 <==> c !in s
    ensures 0 <= IndexOf(s, c) ==> s[IndexOf(s, c)] == c && c !in s[..IndexOf(s, c)]
  {
    if s != [] && s[0] != c {
      var k := IndexOf(s[1..], c);
      IndexOfSpec(s[1..], c);
      assert s == [s[0]] + s[1..];
      if 0 <= k {
        assert s[..k + 1] == [s[0]] + s[1..][..k];
      }
    }
  }

  /** The inverse of `Split`: the parts separated by `d`. */
  function Join(parts: seq<string>, d: char): string
    requires |parts| >= 1
  {
    if |parts| == 1 then parts[0] else parts[0] + [d] + Join(parts[1..], d)
  }

  /** `Split(char)`: the pieces of `s` between occurrences of `d`. */
  function Split(s: string, d: char): (parts: seq<string>)
    ensures |parts| >= 1
    decreases |s|
  {
    var i := IndexOf(s, d);
    if i < 0 then [s] else [s[..i]] + Split(s[i + 1..], d)
  }

  /** There is more than one piece exactly when `s` contains a separator. */
  lemma SplitCount(s: string, d: char)
    ensures |Split(s, d)| == 1 <==> d !in s
  {
    IndexOfSpec(s, d);
    var i := IndexOf(s, d);
    if 0 <= i {
      var tail := Split(s[i + 1..], d);
      assert Split(s, d) == [s[..i]] + tail;
      assert |Split(s, d)| == 1 + |tail|;
    } else {
      assert Split(s, d) == [s];
    }
  }

  lemma JoinCons(p: string, rest: seq<string>, d: char)
    requires |rest| >= 1
    ensures Join([p] + rest, d) == p + [d] + Join(rest, d)
  {
    assert ([p] + rest)[1..] == rest;
  }

  /** `Join` undoes `Split`. */
  lemma {:induction false} SplitJoin(s: string, d: char)
    ensures Join(Split(s, d), d) == s
    decreases |s|
  {
    IndexOfSpec(s, d);
    var i := IndexOf(s, d);
    if 0 <= i {
      var rest := s[i + 1..];
      var tail := Split(rest, d);
      assert s == s[..i] + [d] + rest by {
        assert s[i] == d;
      }
      calc {
        Join(Split(s, d), d);
        Join([s[..i]] + tail, d);
        { JoinCons(s[..i], tail, d); }
        s[..i] + [d] + Join(tail, d);
        { SplitJoin(rest, d); }
        s[..i] + [d] + rest;
      }
    } else {
      assert Split(s, d) == [s];
    }
  }

  /** No piece of a split contains the separator; with `SplitJoin` this
      determines the pieces. */
  lemma {:induction false} SplitPiecesFree(s: string, d: char)
    ensures forall k :: 0 <= k < |Split(s, d)| ==> d !in Split(s, d)[k]
    decreases |s|
  {
    IndexOfSpec(s, d);
    var i := IndexOf(s, d);
    if 0 <= i {
      var rest := s[i + 1..];
      var tail := Split(rest, d);
      SplitPiecesFree(rest, d);
      var parts := Split(s, d);
      assert parts == [s[..i]] + tail;
      forall k | 0 <= k < |parts|
        ensures d !in parts[k]
      {
        if k > 0 {
          assert parts[k] == tail[k - 1];
        }
      }
    }
  }

  /** The text before the first `d`, or all of `s` if there is none. */
  function Before(s: string, d: char): (r: string)
    ensures d !in r
  {
    IndexOfSpec(s, d);
    var i := IndexOf(s, d);
    if i < 0 then s else s[..i]
  }

  /** The first two pieces of a split, written without `Split`. */
  lemma {:induction false} SplitFirstTwo(s: string, d: char)
    requires d in s
    ensures |Split(s, d)| >= 2
    ensures Split(s, d)[0] == Before(s, d)
    ensures Split(s, d)[1] == Before(s[IndexOf(s, d) + 1..], d)
  {
    IndexOfSpec(s, d);
    var rest := s[IndexOf(s, d) + 1..];
    if d in rest {
      assert Split(rest, d)[0] == Before(rest, d);
    }
  }
}
