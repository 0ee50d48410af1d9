/**
 * The JavaScript string operations the application uses: `trim`, `split` on a
 * one-character separator, `join`, and `replace(/\t|\n/g, ' ')`, over strings
 * seen as sequences of characters.
 */
module JsStrings {

  /**
   * The characters `String.prototype.trim` strips: the ECMAScript WhiteSpace
   * set (tab, vertical tab, form feed, space, no-break space, byte-order mark
   * and the Unicode Zs category) and the LineTerminator set (line feed,
   * carriage return, line and paragraph separators).
   */
  predicate IsWhitespace(ch: char) {
    || ch == '\t' || ch == '\U{B}' || ch == '\U{C}' || ch == ' '
    || ch == '\U{A0}' || ch == '\U{FEFF}'
    || ch == '\U{1680}' || ('\U{2000}' <= ch <= '\U{200A}')
    || ch == '\U{202F}' || ch == '\U{205F}' || ch == '\U{3000}'
    || ch == '\n' || ch == '\r' || ch == '\U{2028}' || ch == '\U{2029}'
  }

  predicate IsBlank(s: string) {
    forall k :: 0 <= k < |s| ==> IsWhitespace(s[k])
  }

  /** `s.trimStart()`: drops the longest whitespace prefix. */
  function TrimStart(s: string): (r: string)
    ensures |r| <= |s|
  {
    if s != [] && IsWhitespace(s[0]) then TrimStart(s[1..]) else s
  }

  /** `s.trimEnd()`: drops the longest whitespace suffix. */
  function TrimEnd(s: string): (r: string)
    ensures |r| <= |s|
  {
    if s != [] && IsWhitespace(s[|s| - 1]) then TrimEnd(s[..|s| - 1]) else s
  }

  /** `s.trim()`. */
  function Trim(s: string): (r: string)
    ensures |r| <= |s|
  {
    TrimEnd(TrimStart(s))
  }

  /** What `TrimStart` removes is whitespace, what it keeps is a suffix not starting with whitespace. */
  lemma {:induction false} TrimStartSpec(s: string)
    ensures var r := TrimStart(s);
      && r == s[|s| - |r|..]
      && IsBlank(s[..|s| - |r|])
      && (r != [] ==> !IsWhitespace(r[0]))
  {
    if s != [] && IsWhitespace(s[0]) {
      TrimStartSpec(s[1..]);
      var r := TrimStart(s);
      var n := |s| - |r|;
      forall k | 0 <= k < n ensures IsWhitespace(s[..n][k]) {
        if k > 0 {
          assert s[..n][k] == s[1..][..n - 1][k - 1];
        }
      }
    }
  }

  /** What `TrimEnd` removes is whitespace, what it keeps is a prefix not ending with whitespace. */
  lemma {:induction false} TrimEndSpec(s: string)
    ensures var r := TrimEnd(s);
      && r == s[..|r|]
      && IsBlank(s[|r|..])
      && (r != [] ==> !IsWhitespace(r[|r| - 1]))
  {
    if s != [] && IsWhitespace(s[|s| - 1]) {
      var s' := s[..|s| - 1];
      TrimEndSpec(s');
      var r := TrimEnd(s);
      forall k | |r| <= k < |s| ensures IsWhitespace(s[k]) {
        if k < |s| - 1 {
          assert s[k] == s'[|r|..][k - |r|];
        }
      }
      assert s[..|r|] == s'[..|r|];
    }
  }

  /** What `Trim` keeps neither starts nor ends with whitespace. */
  lemma TrimEnds(s: string)
    ensures var r := Trim(s); r != [] ==> !IsWhitespace(r[0]) && !IsWhitespace(r[|r| - 1])
  {
    var t := TrimStart(s);
    var r := TrimEnd(t);
    TrimStartSpec(s);
    TrimEndSpec(t);
    if r != [] {
      assert r[0] == t[0];
    }
  }

  /** A string trims to nothing exactly when it is blank. */
  lemma TrimEmptyIffBlank(s: string)
    ensures Trim(s) == [] <==> IsBlank(s)
  {
    var t := TrimStart(s);
    var i := |s| - |t|;
    TrimStartSpec(s);
    TrimEndSpec(t);
    if Trim(s) == [] {
      assert t == [];
      forall k | 0 <= k < |s| ensures IsWhitespace(s[k]) {
        assert s[k] == s[..i][k];
      }
    } else {
      assert Trim(s)[0] == t[0] == s[i];
    }
  }

  /** Number of occurrences of `c` in `s`. */
  function Occurrences(s: string, c: char): nat {
    if s == [] then 0 else (if s[0] == c then 1 else 0) + Occurrences(s[1..], c)
  }

  /**
   * `s.split(c)`: the pieces between occurrences of `c`. There is always at
   * least one piece (`"".split(c)` is `[""]`) and no piece contains `c`.
   */
  function Split(s: string, c: char): (parts: seq<string>)
    ensures |parts| == Occurrences(s, c) + 1
    ensures forall i :: 0 <= i < |parts| ==> c !in parts[i]
  {
    if s == [] then [[]]
    else
      var rest := Split(s[1..], c);
      if s[0] == c then [[]] + rest
      else [[s[0]] + rest[0]] + rest[1..]
  }

  /** `parts.join(sep)`: the empty string for no parts, otherwise the parts with `sep` between neighbours. */
  function Join(parts: seq<string>, sep: string): string {
    if parts == [] then []
    else if |parts| == 1 then parts[0]
    else parts[0] + sep + Join(parts[1..], sep)
  }

  /** Each part, in order, preceded by `t`. */
  function Prefixed(t: string, parts: seq<string>): (r: seq<string>)
    ensures |r| == |parts|
    ensures forall i :: 0 <= i < |r| ==> r[i] == t + parts[i]
  {
    seq(|parts|, i requires 0 <= i < |parts| => t + parts[i])
  }

  /** Splitting after a prefix free of `c` glues that prefix onto the first piece. */
  lemma {:induction false} SplitAfterPrefix(a: string, s: string, c: char)
    requires c !in a
    ensures Split(a + s, c) == [a + Split(s, c)[0]] + Split(s, c)[1..]
  {
    if a != [] {
      var parts := Split(s, c);
      SplitAfterPrefix(a[1..], s, c);
      assert (a + s)[1..] == a[1..] + s;
      assert (a + s)[0] == a[0] != c;
      var rest := Split(a[1..] + s, c);
      assert rest[0] == a[1..] + parts[0] && rest[1..] == parts[1..];
      assert [a[0]] + (a[1..] + parts[0]) == a + parts[0];
    } else {
      var parts := Split(s, c);
      assert a + s == s;
      assert a + parts[0] == parts[0];
      assert parts == [parts[0]] + parts[1..];
    }
  }

  /** The inverse of `Split`: joining the pieces with `c` restores the string. */
  lemma {:induction false} JoinSplit(s: string, c: char)
    ensures Join(Split(s, c), [c]) == s
  {
    if s != [] {
      var rest := Split(s[1..], c);
      JoinSplit(s[1..], c);
      if s[0] == c {
        assert Split(s, c)[1..] == rest;
      } else {
        var parts := Split(s, c);
        if |rest| > 1 {
          assert parts[1..] == rest[1..];
          assert Join(rest, [c]) == rest[0] + [c] + Join(rest[1..], [c]);
        }
        assert s == [s[0]] + s[1..];
      }
    }
  }

  /**
   * Splitting a join on the first character of the separator recovers the
   * parts, the later ones still carrying the rest of the separator; with a
   * one-character separator this gives the parts back exactly.
   */
  lemma {:induction false} SplitJoin(parts: seq<string>, c: char, t: string)
    requires |parts| > 0
    requires c !in t
    requires forall i :: 0 <= i < |parts| ==> c !in parts[i]
    ensures Split(Join(parts, [c] + t), c) == [parts[0]] + Prefixed(t, parts[1..])
  {
    if |parts| == 1 {
      SplitAfterPrefix(parts[0], [], c);
      assert parts[0] + [] == parts[0];
    } else {
      var tail := Join(parts[1..], [c] + t);
      SplitJoin(parts[1..], c, t);
      var inner := Split(tail, c);
      assert Join(parts, [c] + t) == parts[0] + ([c] + (t + tail));
      SplitAfterPrefix(parts[0], [c] + (t + tail), c);
      assert ([c] + (t + tail))[1..] == t + tail;
      assert Split([c] + (t + tail), c) == [[]] + Split(t + tail, c);
      SplitAfterPrefix(t, tail, c);
      assert parts[0] + [] == parts[0];
      assert Prefixed(t, parts[1..]) == [t + inner[0]] + inner[1..] by {
        assert inner[0] == parts[1];
        assert inner[1..] == Prefixed(t, parts[2..]);
      }
    }
  }

  /** Splitting a join on a one-character separator recovers the parts. */
  lemma SplitJoinChar(parts: seq<string>, c: char)
    requires |parts| > 0
    requires forall i :: 0 <= i < |parts| ==> c !in parts[i]
    ensures Split(Join(parts, [c]), c) == parts
  {
    SplitJoin(parts, c, []);
    assert [c] + [] == [c];
    var tail := Prefixed([], parts[1..]);
    assert tail == parts[1..] by {
      forall i | 0 <= i < |tail| ensures tail[i] == parts[1..][i] {
        assert [] + parts[1..][i] == parts[1..][i];
      }
    }
    assert [parts[0]] + parts[1..] == parts;
  }

  /** `s.replace(/\t|\n/g, ' ')`: every tab and every line feed becomes one space. */
  function ReplaceTabsAndNewlines(s: string): (r: string)
    ensures |r| == |s|
    ensures forall i :: 0 <= i < |s| ==> r[i] == (if s[i] == '\t' || s[i] == '\n' then ' ' else s[i])
    ensures '\t' !in r && '\n' !in r
  {
    if s == [] then []
    else [if s[0] == '\t' || s[0] == '\n' then ' ' else s[0]] + ReplaceTabsAndNewlines(s[1..])
  }

  /** Joining pieces none of which holds `c` puts exactly one `c` between neighbours and none elsewhere. */
  lemma JoinCount(parts: seq<string>, c: char)
    requires |parts| > 0
    requires forall i :: 0 <= i < |parts| ==> c !in parts[i]
    ensures Occurrences(Join(parts, [c]), c) == |parts| - 1
  {
    SplitJoinChar(parts, c);
  }

  /** Joining pieces free of `d` with separator `c` != `d` gives a string free of `d`. */
  lemma {:induction false} JoinFree(parts: seq<string>, c: char, d: char)
    requires c != d
    requires forall k :: 0 <= k < |parts| ==> d !in parts[k]
    ensures d !in Join(parts, [c])
  {
    if |parts| > 1 {
      JoinFree(parts[1..], c, d);
    }
  }
}
