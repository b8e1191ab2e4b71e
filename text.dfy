/**
 * The Python string primitives the service relies on: `str.isspace`, `str.strip`,
 * `startswith`/`endswith`, `find`/`rfind`, prefix slicing `s[:n]`, `split("\n")` and
 * `"\n".join`.  Strings are sequences of code points.
 */
module Text {

  /** Python's `str.isspace()` for a single code point. */
  predicate IsSpace(c: char) {
    || c == ' '
    || ('\t' <= c <= '\r')
    || ('\U{1C}' <= c <= '\U{1F}')
    || c == '\U{85}' || c == '\U{A0}' || c == '\U{1680}'
    || ('\U{2000}' <= c <= '\U{200A}')
    || c == '\U{2028}' || c == '\U{2029}' || c == '\U{202F}' || c == '\U{205F}' || c == '\U{3000}'
  }

  /** True when `s.strip()` is empty, i.e. `s` is falsy after stripping. */
  predicate IsBlank(s: string) {
    forall i | 0 <= i < |s| :: IsSpace(s[i])
  }

  /** Number of whitespace code points at the front of `s`. */
  function LeadingSpaces(s: string): (n: nat)
    ensures n <= |s|
    ensures forall i | 0 <= i < n :: IsSpace(s[i])
    ensures n < |s| ==> !IsSpace(s[n])
  {
    if |s| > 0 && IsSpace(s[0]) then 1 + LeadingSpaces(s[1..]) else 0
  }

  /** Number of whitespace code points at the back of `s`. */
  function TrailingSpaces(s: string): (n: nat)
    ensures n <= |s|
    ensures forall i | |s| - n <= i < |s| :: IsSpace(s[i])
    ensures n < |s| ==> !IsSpace(s[|s| - n - 1])
  {
    if |s| > 0 && IsSpace(s[|s| - 1]) then 1 + TrailingSpaces(s[..|s| - 1]) else 0
  }

  /** A string with no whitespace at either end. */
  predicate IsStripped(s: string) {
    s == "" || (!IsSpace(s[0]) && !IsSpace(s[|s| - 1]))
  }

  /** Python's `s.strip()`. */
  function Strip(s: string): (r: string)
    ensures |r| <= |s|
    ensures IsStripped(r)
    ensures r == "" <==> IsBlank(s)
  {
    var t := s[LeadingSpaces(s)..];
    t[..|t| - TrailingSpaces(t)]
  }

  /** What `Strip` removes is whitespace, and what it keeps is one contiguous slice. */
  lemma StripSlice(s: string) returns (lo: nat, hi: nat)
    ensures lo <= hi <= |s| && Strip(s) == s[lo..hi]
    ensures forall i | 0 <= i < lo :: IsSpace(s[i])
    ensures forall i | hi <= i < |s| :: IsSpace(s[i])
  {
    lo := LeadingSpaces(s);
    var t := s[lo..];
    hi := lo + |t| - TrailingSpaces(t);
    forall i | hi <= i < |s| ensures IsSpace(s[i]) {
      assert s[i] == t[i - lo];
    }
  }

  /** `LeadingSpaces` is determined by the first non-whitespace position. */
  lemma LeadingSpacesAt(s: string, k: nat)
    requires k < |s| && !IsSpace(s[k])
    requires forall i | 0 <= i < k :: IsSpace(s[i])
    ensures LeadingSpaces(s) == k
  {
  }

  /** `TrailingSpaces` is determined by the last non-whitespace position. */
  lemma TrailingSpacesAt(s: string, k: nat)
    requires k < |s| && !IsSpace(s[|s| - k - 1])
    requires forall i | |s| - k <= i < |s| :: IsSpace(s[i])
    ensures TrailingSpaces(s) == k
  {
  }

  /**
   * `Strip` is characterised by its result: whenever `s` is a stripped core
   * between two blank margins, `Strip(s)` is that core.
   */
  lemma {:induction false} StripUnique(a: string, r: string, b: string)
    requires IsBlank(a) && IsBlank(b) && IsStripped(r)
    ensures Strip(a + r + b) == r
  {
    var s := a + r + b;
    if r == "" {
      assert IsBlank(s) by {
        forall i | 0 <= i < |s| ensures IsSpace(s[i]) {
          if i < |a| { assert s[i] == a[i]; } else { assert s[i] == b[i - |a|]; }
        }
      }
    } else {
      assert s[|a|] == r[0];
      LeadingSpacesAt(s, |a|);
      var t := s[|a|..];
      assert t == r + b;
      assert t[|t| - |b| - 1] == r[|r| - 1];
      forall i | |t| - |b| <= i < |t| ensures IsSpace(t[i]) {
        assert t[i] == b[i - |r|];
      }
      TrailingSpacesAt(t, |b|);
      assert t[..|t| - |b|] == r;
    }
  }

  /** Stripping twice is stripping once. */
  lemma StripIdempotent(s: string)
    ensures Strip(Strip(s)) == Strip(s)
  {
    StripUnique("", Strip(s), "");
    assert "" + Strip(s) + "" == Strip(s);
  }

  /** Two blank strings make a blank string. */
  lemma BlankConcat(x: string, y: string)
    requires IsBlank(x) && IsBlank(y)
    ensures IsBlank(x + y)
  {
    forall i | 0 <= i < |x + y| ensures IsSpace((x + y)[i]) {
      if i < |x| { assert (x + y)[i] == x[i]; } else { assert (x + y)[i] == y[i - |x|]; }
    }
  }

  /** Every string is its stripped text between two blank margins. */
  lemma StripMargins(s: string) returns (head: string, tail: string)
    ensures s == head + Strip(s) + tail
    ensures IsBlank(head) && IsBlank(tail)
  {
    var lo, hi := StripSlice(s);
    head, tail := s[..lo], s[hi..];
    assert IsBlank(head) by {
      forall i | 0 <= i < |head| ensures IsSpace(head[i]) { assert head[i] == s[i]; }
    }
    assert IsBlank(tail) by {
      forall i | 0 <= i < |tail| ensures IsSpace(tail[i]) { assert tail[i] == s[hi + i]; }
    }
    assert s == head + s[lo..hi] + tail;
  }

  /** Regrouping a five-part concatenation. */
  lemma Regroup(w1: string, head: string, core: string, tail: string, w2: string)
    ensures w1 + (head + core + tail) + w2 == (w1 + head) + core + (tail + w2)
  {
  }

  /** Surrounding whitespace does not change the stripped text. */
  lemma StripPadded(w1: string, s: string, w2: string)
    requires IsBlank(w1) && IsBlank(w2)
    ensures Strip(w1 + s + w2) == Strip(s)
  {
    var head, tail := StripMargins(s);
    BlankConcat(w1, head);
    BlankConcat(tail, w2);
    Regroup(w1, head, Strip(s), tail, w2);
    StripUnique(w1 + head, Strip(s), tail + w2);
  }

  /** A stripped string keeps only characters of the original. */
  lemma StripKeeps(s: string, c: char)
    requires c !in s
    ensures c !in Strip(s)
  {
    var lo, hi := StripSlice(s);
    assert forall i | lo <= i < hi :: s[lo..hi][i - lo] == s[i];
  }

  /** `s.startswith(p)`. */
  predicate HasPrefix(s: string, p: string) {
    |p| <= |s| && s[..|p|] == p
  }

  /** `s.endswith(p)`. */
  predicate HasSuffix(s: string, p: string) {
    |p| <= |s| && s[|s| - |p|..] == p
  }

  /** `s.find(c)`: the first index of `c`, or -1. */
  function Find(s: string, c: char): (k: int)
    ensures -1 <= k < |s|
    ensures k == -1 <==> c !in s
    ensures k >= 0 ==> s[k] == c && c !in s[..k]
  {
    if |s| == 0 then -1
    else if s[0] == c then 0
    else
      var k := Find(s[1..], c);
      assert s[1..][..if k < 0 then 0 else k] == s[1..if k < 0 then 1 else k + 1];
      if k == -1 then -1 else k + 1
  }

  /** `s.rfind(c)`: the last index of `c`, or -1. */
  function RFind(s: string, c: char): (k: int)
    ensures -1 <= k < |s|
    ensures k == -1 <==> c !in s
    ensures k >= 0 ==> s[k] == c && c !in s[k + 1..]
  {
    if |s| == 0 then -1
    else if s[|s| - 1] == c then |s| - 1
    else
      var k := RFind(s[..|s| - 1], c);
      assert s == s[..|s| - 1] + [s[|s| - 1]];
      k
  }

  /** `Find` returns the position that has `c` with no `c` before it. */
  lemma FindAt(s: string, c: char, k: nat)
    requires k < |s| && s[k] == c && c !in s[..k]
    ensures Find(s, c) == k
  {
  }

  /** `RFind` returns the position that has `c` with no `c` after it. */
  lemma RFindAt(s: string, c: char, k: nat)
    requires k < |s| && s[k] == c && c !in s[k + 1..]
    ensures RFind(s, c) == k
  {
  }

  /** `s[:n]`: at most the first `n` elements. */
  function Take<T>(s: seq<T>, n: nat): (r: seq<T>)
    ensures |r| == if |s| <= n then |s| else n
    ensures r == s[..|r|]
  {
    if |s| <= n then s else s[..n]
  }

  /** `s.split("\n")`: never empty, and no piece holds a newline. */
  function SplitLines(s: string): (lines: seq<string>)
    ensures |lines| >= 1
    ensures forall i | 0 <= i < |lines| :: '\n' !in lines[i]
    decreases |s|
  {
    var k := Find(s, '\n');
    if k < 0 then [s] else [s[..k]] + SplitLines(s[k + 1..])
  }

  /** `"\n".join(lines)`. */
  function JoinLines(lines: seq<string>): string {
    if |lines| == 0 then ""
    else if |lines| == 1 then lines[0]
    else lines[0] + "\n" + JoinLines(lines[1..])
  }

  /** Joining a line in front of at least one other adds one newline. */
  lemma JoinCons(head: string, rest: seq<string>)
    requires |rest| >= 1
    ensures JoinLines([head] + rest) == head + "\n" + JoinLines(rest)
  {
    assert ([head] + rest)[1..] == rest;
  }

  /** A string is what comes before position `k`, the character there, and what follows. */
  lemma CutAt(s: string, k: nat)
    requires k < |s|
    ensures s == s[..k] + [s[k]] + s[k + 1..]
  {
  }

  /** Joining the pieces of a split gives back the string. */
  lemma {:induction false} JoinSplit(s: string)
    ensures JoinLines(SplitLines(s)) == s
    decreases |s|
  {
    var k := Find(s, '\n');
    if k >= 0 {
      var head, tail := s[..k], s[k + 1..];
      var rest := SplitLines(tail);
      assert SplitLines(s) == [head] + rest;
      JoinSplit(tail);
      JoinCons(head, rest);
      CutAt(s, k);
    }
  }

  /** Splitting a join of newline-free pieces gives back the pieces. */
  lemma {:induction false} SplitJoin(lines: seq<string>)
    requires |lines| >= 1
    requires forall i | 0 <= i < |lines| :: '\n' !in lines[i]
    ensures SplitLines(JoinLines(lines)) == lines
  {
    if |lines| > 1 {
      var head, rest := lines[0], lines[1..];
      assert lines == [head] + rest;
      JoinCons(head, rest);
      var s := JoinLines(lines);
      Parts(head, '\n', JoinLines(rest));
      FindAt(s, '\n', |head|);
      SplitJoin(rest);
    }
  }

  /** The parts of `a + [c] + b` can be sliced back out. */
  lemma Parts(a: string, c: char, b: string)
    ensures var s := a + [c] + b;
            s[..|a|] == a && s[|a|] == c && s[|a| + 1..] == b
  {
  }
}
