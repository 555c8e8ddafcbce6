/** The parts of Python's `str` that the deletion-script generator relies on:
    `strip()`, `splitlines()`, `' '.join(...)`, `startswith`, `split(sep, 1)`
    and the substring test `a in b`. Strings are sequences of Unicode scalar
    values, as Python's are sequences of code points. */
module PyString {
  import opened Wrappers

  /** The characters Python's `str.isspace` accepts, which `strip()`
      removes when it is called without arguments. */
  const Whitespace: set<char> := {
    '\t', '\n', '\U{000B}', '\U{000C}', '\r', '\U{001C}', '\U{001D}', '\U{001E}', '\U{001F}', ' ',
    '\U{0085}', '\U{00A0}', '\U{1680}', '\U{2000}', '\U{2001}', '\U{2002}', '\U{2003}', '\U{2004}',
    '\U{2005}', '\U{2006}', '\U{2007}', '\U{2008}', '\U{2009}', '\U{200A}', '\U{2028}', '\U{2029}',
    '\U{202F}', '\U{205F}', '\U{3000}'
  }

  /** The line boundaries of `str.splitlines()` (`\r\n` is one boundary made
      of two of these). */
  const LineBoundaries: set<char> := {
    '\n', '\U{000B}', '\U{000C}', '\r', '\U{001C}', '\U{001D}', '\U{001E}', '\U{0085}', '\U{2028}',
    '\U{2029}'
  }

  predicate IsSpace(c: char) {
    c in Whitespace
  }

  predicate IsLineBreak(c: char) {
    c in LineBoundaries
  }

  predicate AllSpace(s: string) {
    forall k :: 0 <= k < |s| ==> IsSpace(s[k])
  }

  /** Every character of `s` from index `lo` up to `hi` is white space. */
  predicate SpaceBetween(s: string, lo: int, hi: int)
    requires 0 <= lo && hi <= |s|
  {
    forall k :: lo <= k < hi ==> IsSpace(s[k])
  }

  predicate NoLineBreak(s: string) {
    forall k :: 0 <= k < |s| ==> !IsLineBreak(s[k])
  }

  /** Neither end of `s` is white space (the empty string qualifies). */
  predicate Trimmed(s: string) {
    s == [] || (!IsSpace(s[0]) && !IsSpace(s[|s| - 1]))
  }

  // ---------------------------------------------------------------- strip

  /** `s.lstrip()`: the longest suffix of `s` that does not start with white space. */
  function LStrip(s: string): (r: string)
    ensures |r| <= |s| && r == s[|s| - |r|..]
    ensures SpaceBetween(s, 0, |s| - |r|)
    ensures r == [] || !IsSpace(r[0])
  {
    if s != [] && IsSpace(s[0]) then LStrip(s[1..]) else s
  }

  /** `s.rstrip()`: the longest prefix of `s` that does not end with white space. */
  function RStrip(s: string): (r: string)
    ensures |r| <= |s| && r == s[..|r|]
    ensures SpaceBetween(s, |r|, |s|)
    ensures r == [] || !IsSpace(r[|r| - 1])
  {
    if s != [] && IsSpace(s[|s| - 1]) then RStrip(s[..|s| - 1]) else s
  }

  /** `s` is white space, then `r` starting at index `i`, then white space. */
  predicate Framed(s: string, r: string, i: int) {
    0 <= i && i + |r| <= |s| && s[i..i + |r|] == r && SpaceBetween(s, 0, i) && SpaceBetween(s, i + |r|, |s|)
  }

  /** `s.strip()`: `s` is white space, then the result, then white space, and
      the result neither starts nor ends with white space. */
  function Strip(s: string): (r: string)
    ensures Trimmed(r)
    ensures Framed(s, r, |s| - |LStrip(s)|)
  {
    StripTrimmed(s);
    StripFrame(s);
    RStrip(LStrip(s))
  }

  lemma StripTrimmed(s: string)
    ensures Trimmed(RStrip(LStrip(s)))
  {
    var l := LStrip(s);
    var r := RStrip(l);
    assert r != [] ==> r[0] == l[0];
  }

  lemma StripFrame(s: string)
    ensures Framed(s, RStrip(LStrip(s)), |s| - |LStrip(s)|)
  {
    var l := LStrip(s);
    var r := RStrip(l);
    var i := |s| - |l|;
    assert l == s[i..];
    SliceOfSuffix(s, i, |r|);
    SpaceBetweenShift(s, l, i, |r|, |l|);
  }

  /** A prefix of a suffix is a slice. */
  lemma SliceOfSuffix(s: string, i: nat, n: nat)
    requires i + n <= |s|
    ensures s[i..][..n] == s[i..i + n]
  {
  }

  /** White space in a suffix of `s` is white space in `s`. */
  lemma SpaceBetweenShift(s: string, suffix: string, i: nat, lo: nat, hi: nat)
    requires i <= |s| && suffix == s[i..] && lo <= hi <= |suffix|
    requires SpaceBetween(suffix, lo, hi)
    ensures SpaceBetween(s, i + lo, i + hi)
  {
    forall k | i + lo <= k < i + hi ensures IsSpace(s[k]) {
      assert s[k] == suffix[k - i];
    }
  }

  lemma {:induction false} LStripSpaces(a: string, t: string)
    requires AllSpace(a)
    requires t == [] || !IsSpace(t[0])
    ensures LStrip(a + t) == t
  {
    if a == [] {
      assert a + t == t;
    } else {
      assert (a + t)[1..] == a[1..] + t;
      LStripSpaces(a[1..], t);
    }
  }

  lemma {:induction false} RStripSpaces(t: string, b: string)
    requires AllSpace(b)
    requires t == [] || !IsSpace(t[|t| - 1])
    ensures RStrip(t + b) == t
  {
    if b == [] {
      assert t + b == t;
    } else {
      var init := b[..|b| - 1];
      assert (t + b)[..|t + b| - 1] == t + init;
      RStripSpaces(t, init);
    }
  }

  /** The framing determines the result: whatever non-blank-ended text sits
      between white space is what `strip()` returns. */
  lemma StripFramed(s: string, r: string, i: int)
    requires Trimmed(r) && Framed(s, r, i)
    ensures Strip(s) == r
  {
    var a, b := s[..i], s[i + |r|..];
    assert s == a + (r + b);
    assert AllSpace(a) && AllSpace(b) by {
      forall k | 0 <= k < |b| ensures IsSpace(b[k]) { assert b[k] == s[i + |r| + k]; }
    }
    if r == [] {
      assert r + b == b;
      assert AllSpace(a + b);
      LStripSpaces(a + b, []);
      assert a + b + [] == s;
    } else {
      LStripSpaces(a, r + b);
      RStripSpaces(r, b);
    }
  }

  /** Stripping twice is stripping once. */
  lemma StripIdempotent(s: string)
    ensures Strip(Strip(s)) == Strip(s)
  {
    StripOfTrimmed(Strip(s));
  }

  /** Stripping leaves text that is already stripped alone. */
  lemma StripOfTrimmed(t: string)
    requires Trimmed(t)
    ensures Strip(t) == t
  {
    assert t[0..|t|] == t;
    assert Framed(t, t, 0);
    StripFramed(t, t, 0);
  }

  /** Concatenation regrouped. */
  lemma ConcatAssoc<T>(a: seq<T>, b: seq<T>, c: seq<T>)
    ensures a + b + c == a + (b + c)
  {
  }

  // ---------------------------------------------------------------- startswith, substring

  /** `s.startswith(prefix)`. */
  predicate StartsWith(s: string, prefix: string) {
    |prefix| <= |s| && s[..|prefix|] == prefix
  }

  /** Every line starts with `prefix`. */
  predicate AllStartWith(lines: seq<string>, prefix: string) {
    forall j :: 0 <= j < |lines| ==> StartsWith(lines[j], prefix)
  }

  /** `sub` occurs in `s` at index `i`. */
  predicate OccursAt(s: string, sub: string, i: int) {
    0 <= i && i + |sub| <= |s| && s[i..i + |sub|] == sub
  }

  /** `sub in s`: `sub` occurs somewhere in `s`. */
  function Contains(s: string, sub: string): (b: bool)
    ensures b <==> exists i :: OccursAt(s, sub, i)
  {
    if StartsWith(s, sub) then
      assert OccursAt(s, sub, 0);
      true
    else if |s| <= |sub| then
      assert forall i :: !OccursAt(s, sub, i) by {
        forall i ensures !OccursAt(s, sub, i) {
          if 0 <= i && i + |sub| <= |s| {
            assert i == 0;
            assert s[i..i + |sub|] == s[..|sub|];
          }
        }
      }
      false
    else
      var b := Contains(s[1..], sub);
      assert forall i :: OccursAt(s[1..], sub, i) <==> OccursAt(s, sub, i + 1) by {
        forall i ensures OccursAt(s[1..], sub, i) <==> OccursAt(s, sub, i + 1) {
          if 0 <= i && i + |sub| <= |s[1..]| {
            assert s[1..][i..i + |sub|] == s[i + 1..i + 1 + |sub|];
          }
        }
      }
      assert !OccursAt(s, sub, 0);
      assert (exists i :: OccursAt(s, sub, i)) ==> b by {
        if exists i :: OccursAt(s, sub, i) {
          var i :| OccursAt(s, sub, i);
          assert OccursAt(s[1..], sub, i - 1);
        }
      }
      b
  }

  // ---------------------------------------------------------------- split(sep, 1)

  /** Index of the first `c` in `s`, or `|s|` when there is none. */
  function IndexOf(s: string, c: char): (i: nat)
    ensures i <= |s|
    ensures c !in s[..i]
    ensures i < |s| ==> s[i] == c
  {
    if s == [] || s[0] == c then 0 else 1 + IndexOf(s[1..], c)
  }

  /** `s.split(c, 1)`: one part when `s` holds no `c`, otherwise what comes
      before the first `c` and what comes after it. */
  function SplitFirst(s: string, c: char): (parts: seq<string>)
    ensures |parts| == 1 <==> c !in s
    ensures |parts| == 1 || |parts| == 2
    ensures |parts| == 1 ==> parts[0] == s
    ensures |parts| == 2 ==> s == parts[0] + [c] + parts[1] && c !in parts[0]
  {
    var i := IndexOf(s, c);
    if i == |s| then
      assert s[..i] == s;
      [s]
    else
      assert s == s[..i] + [c] + s[i + 1..];
      [s[..i], s[i + 1..]]
  }

  /** The two parts of `s.split(c, 1)` are determined by the first `c`. */
  lemma SplitFirstOf(a: string, b: string, c: char)
    requires c !in a
    ensures SplitFirst(a + [c] + b, c) == [a, b]
  {
    var s := a + [c] + b;
    var parts := SplitFirst(s, c);
    assert s[|a|] == c;
    assert forall k :: 0 <= k < |a| ==> s[k] == a[k] != c;
    var i := IndexOf(s, c);
    assert i == |a|;
    assert parts[0] == s[..|a|] == a;
    assert parts[1] == s[|a| + 1..] == b;
  }

  // ---------------------------------------------------------------- join and split on one separator

  /** `sep.join(ts)`. */
  function Join(ts: seq<string>, sep: string): string {
    if |ts| == 0 then ""
    else if |ts| == 1 then ts[0]
    else ts[0] + sep + Join(ts[1..], sep)
  }

  lemma JoinCons(t: string, ts: seq<string>, sep: string)
    requires ts != []
    ensures Join([t] + ts, sep) == t + sep + Join(ts, sep)
  {
    assert ([t] + ts)[1..] == ts;
  }

  /** Joining one more token adds the separator and the token at the end. */
  lemma {:induction false} JoinSnoc(ts: seq<string>, t: string, sep: string)
    requires ts != []
    ensures Join(ts + [t], sep) == Join(ts, sep) + sep + t
  {
    if |ts| > 1 {
      assert (ts + [t])[1..] == ts[1..] + [t];
      JoinSnoc(ts[1..], t, sep);
    }
  }

  /** `s.split(c)` for a single separator character `c` (not a method the
      generator calls; it is the inverse against which its joins are read). */
  function Split(s: string, c: char): (parts: seq<string>)
    ensures |parts| >= 1
    ensures forall k :: 0 <= k < |parts| ==> c !in parts[k]
    decreases |s|
  {
    var i := IndexOf(s, c);
    if i == |s| then
      assert s[..i] == s;
      [s]
    else [s[..i]] + Split(s[i + 1..], c)
  }

  /** Joining the parts of a split gives the string back. */
  lemma {:induction false} JoinSplit(s: string, c: char)
    ensures Join(Split(s, c), [c]) == s
    decreases |s|
  {
    var i := IndexOf(s, c);
    if i < |s| {
      var rest := Split(s[i + 1..], c);
      JoinSplit(s[i + 1..], c);
      assert Split(s, c) == [s[..i]] + rest;
      assert ([s[..i]] + rest)[1..] == rest;
      assert s == s[..i] + [c] + s[i + 1..];
    } else {
      assert s[..i] == s;
    }
  }

  /** Splitting a join gives the tokens back, empty tokens included, as long
      as no token holds the separator. */
  lemma {:induction false} SplitJoin(ts: seq<string>, c: char)
    requires |ts| >= 1
    requires forall k :: 0 <= k < |ts| ==> c !in ts[k]
    ensures Split(Join(ts, [c]), c) == ts
  {
    if |ts| == 1 {
      assert IndexOf(ts[0], c) == |ts[0]|;
    } else {
      var s := Join(ts, [c]);
      var t := ts[0];
      assert s == t + [c] + Join(ts[1..], [c]);
      assert IndexOf(s, c) == |t| by {
        var i := IndexOf(s, c);
        assert s[..|t|] == t;
        assert s[|t|] == c;
      }
      assert s[..|t|] == t;
      assert s[|t| + 1..] == Join(ts[1..], [c]);
      SplitJoin(ts[1..], c);
    }
  }

  // ---------------------------------------------------------------- splitlines

  /** Index of the first line boundary in `s`, or `|s|`. */
  function FirstBreak(s: string): (i: nat)
    ensures i <= |s|
    ensures NoLineBreak(s[..i])
    ensures i < |s| ==> IsLineBreak(s[i])
  {
    if s == [] || IsLineBreak(s[0]) then 0 else 1 + FirstBreak(s[1..])
  }

  /** Width of the boundary starting at `i`: two for `\r\n`, one otherwise. */
  function BreakWidth(s: string, i: nat): (w: nat)
    requires i < |s|
    ensures 1 <= w <= 2 && i + w <= |s|
  {
    if s[i] == '\r' && i + 1 < |s| && s[i + 1] == '\n' then 2 else 1
  }

  /** `s.splitlines()`: the lines of `s` without their boundaries; a boundary
      at the very end does not open an empty last line. */
  function SplitLines(s: string): (lines: seq<string>)
    ensures lines == [] <==> s == []
    ensures forall k :: 0 <= k < |lines| ==> NoLineBreak(lines[k])
    decreases |s|
  {
    if s == [] then []
    else
      var i := FirstBreak(s);
      if i == |s| then
        assert s[..i] == s;
        [s]
      else [s[..i]] + SplitLines(s[i + BreakWidth(s, i)..])
  }

  /** The first line starts where the text starts, when the text does not
      start with a boundary. */
  lemma SplitLinesFirst(s: string)
    requires s != [] && !IsLineBreak(s[0])
    ensures SplitLines(s) != [] && SplitLines(s)[0] != [] && SplitLines(s)[0][0] == s[0]
  {
  }

  /** The last line ends where the text ends, when the text does not end
      with a boundary. */
  lemma {:induction false} SplitLinesLast(s: string)
    requires s != [] && !IsLineBreak(s[|s| - 1])
    ensures var lines := SplitLines(s);
            lines != [] && lines[|lines| - 1] != [] && lines[|lines| - 1][|lines[|lines| - 1]| - 1] == s[|s| - 1]
    decreases |s|
  {
    var i := FirstBreak(s);
    if i < |s| {
      var rest := s[i + BreakWidth(s, i)..];
      assert rest != [] && rest[|rest| - 1] == s[|s| - 1];
      SplitLinesLast(rest);
    } else {
      assert s[..i] == s;
    }
  }

  /** One identifier per line as a listing delivers them: no element holds
      a line boundary, the first does not start and the last does not end
      with white space (so neither is blank). */
  predicate LinesOfTrimmed(lines: seq<string>) {
    && (forall k :: 0 <= k < |lines| ==> NoLineBreak(lines[k]))
    && (lines != [] ==> lines[0] != [] && !IsSpace(lines[0][0]))
    && (lines != [] ==> var last := lines[|lines| - 1]; last != [] && !IsSpace(last[|last| - 1]))
  }

  /** The lines of a stripped text: none when it is empty, and they have
      the shape of a listing. */
  lemma SplitLinesOfTrimmed(s: string)
    requires Trimmed(s)
    ensures SplitLines(s) == [] <==> s == []
    ensures LinesOfTrimmed(SplitLines(s))
  {
    if s != [] {
      SplitLinesFirst(s);
      SplitLinesLast(s);
    }
  }

  /** Text whose only boundaries are `\n` and that does not end with one is
      the `\n`-join of its lines. */
  lemma {:induction false} JoinSplitLines(s: string)
    requires OnlyNewlines(s)
    requires s == [] || s[|s| - 1] != '\n'
    ensures Join(SplitLines(s), "\n") == s
    decreases |s|
  {
    if s != [] {
      var i := FirstBreak(s);
      if i < |s| {
        assert s[i] == '\n' && BreakWidth(s, i) == 1;
        var rest := s[i + 1..];
        assert rest != [] by { assert i < |s| - 1; }
        assert OnlyNewlines(rest) by {
          forall k | 0 <= k < |rest| && IsLineBreak(rest[k]) ensures rest[k] == '\n' {
            assert rest[k] == s[i + 1 + k];
          }
        }
        assert rest == s[i + BreakWidth(s, i)..];
        calc {
          Join(SplitLines(s), "\n");
          { SplitLinesAtBreak(s, i, rest); }
          Join([s[..i]] + SplitLines(rest), "\n");
          { JoinCons(s[..i], SplitLines(rest), "\n"); }
          s[..i] + "\n" + Join(SplitLines(rest), "\n");
          { JoinSplitLines(rest); }
          s[..i] + "\n" + rest;
          { assert s == s[..i] + [s[i]] + s[i + 1..]; }
          s;
        }
      } else {
        assert s[..i] == s;
      }
    }
  }

  /** A text with a boundary splits into the line before it and the lines
      after it. */
  lemma SplitLinesAtBreak(s: string, i: nat, rest: string)
    requires i == FirstBreak(s) && i < |s|
    requires rest == s[i + BreakWidth(s, i)..]
    ensures SplitLines(s) == [s[..i]] + SplitLines(rest)
  {
  }

  /** The only line boundary in `s` is `\n`. */
  predicate OnlyNewlines(s: string) {
    forall k :: 0 <= k < |s| && IsLineBreak(s[k]) ==> s[k] == '\n'
  }

  /** Lines without boundaries whose last line is not empty come back from
      `splitlines()` of their `\n`-join. */
  lemma {:induction false} SplitLinesJoin(lines: seq<string>)
    requires forall k :: 0 <= k < |lines| ==> NoLineBreak(lines[k])
    requires lines != [] ==> lines[|lines| - 1] != []
    ensures SplitLines(Join(lines, "\n")) == lines
  {
    if |lines| == 1 {
      assert FirstBreak(lines[0]) == |lines[0]|;
    } else if |lines| > 1 {
      var l := lines[0];
      var s := Join(lines, "\n");
      assert s == l + "\n" + Join(lines[1..], "\n");
      assert FirstBreak(s) == |l| by {
        var i := FirstBreak(s);
        assert s[..|l|] == l;
        assert s[|l|] == '\n';
      }
      assert s[..|l|] == l;
      var rest := Join(lines[1..], "\n");
      assert BreakWidth(s, |l|) == 1;
      assert s[|l| + 1..] == rest;
      SplitLinesJoin(lines[1..]);
    }
  }
}
