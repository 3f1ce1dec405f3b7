/**
 * The parts of Go's `strings` package (and its byte-search helpers) that the
 * server relies on, written out over `seq<char>`. Every separator the server
 * uses (',', ':', '[', ']') is ASCII, so searching code points gives the same
 * positions as Go's byte-wise search on well-formed UTF-8.
 */
module GoStrings {

  /** First position of `c` in `s`, or -1 (Go's `strings.IndexByte`). */
  function IndexOf(s: string, c: char): (i: int)
    ensures -1 <= i < |s|
    ensures i == -1 <==> c !in s
    ensures 0 <= i ==> s[i] == c && c !in s[..i]
  {
    if |s| == 0 then -1
    else if s[0] == c then 0
    else
      var j := IndexOf(s[1..], c);
      if j < 0 then -1 else j + 1
  }

  /** Last position of `c` in `s`, or -1 (Go's `strings.LastIndexByte`). */
  function LastIndexOf(s: string, c: char): (i: int)
    ensures -1 <= i < |s|
    ensures i == -1 <==> c !in s
    ensures 0 <= i ==> s[i] == c && c !in s[i + 1..]
  {
    if |s| == 0 then -1
    else if s[|s| - 1] == c then |s| - 1
    else LastIndexOf(s[..|s| - 1], c)
  }

  /**
   * Go's `strings.Split(s, sep)` for a one-character separator: the pieces
   * between successive separators, at least one piece even for "".
   */
  function Split(s: string, sep: char): (parts: seq<string>)
    ensures |parts| >= 1
    ensures forall k :: 0 <= k < |parts| ==> sep !in parts[k]
    decreases |s|
  {
    var i := IndexOf(s, sep);
    if i < 0 then [s] else [s[..i]] + Split(s[i + 1..], sep)
  }

  /** Go's `strings.Join(parts, sep)`: the inverse of `Split`. */
  function Join(parts: seq<string>, sep: char): string
  {
    if |parts| == 0 then ""
    else if |parts| == 1 then parts[0]
    else parts[0] + [sep] + Join(parts[1..], sep)
  }

  /** Joining a piece onto a non-empty list puts one separator between. */
  lemma JoinCons(head: string, tail: seq<string>, sep: char)
    requires |tail| >= 1
    ensures Join([head] + tail, sep) == head + [sep] + Join(tail, sep)
  {
    var parts := [head] + tail;
    assert parts[0] == head && parts[1..] == tail;
  }

  /** A text with a separator splits at its first separator. */
  lemma SplitAt(s: string, sep: char, i: nat)
    requires i < |s| && s[i] == sep && sep !in s[..i]
    ensures Split(s, sep) == [s[..i]] + Split(s[i + 1..], sep)
  {
    assert IndexOf(s, sep) == i;
  }

  /** Joining the pieces of a split gives back the original text. */
  lemma {:induction false} JoinSplit(s: string, sep: char)
    ensures Join(Split(s, sep), sep) == s
    decreases |s|
  {
    var i := IndexOf(s, sep);
    if i >= 0 {
      var head, rest := s[..i], s[i + 1..];
      SplitAt(s, sep, i);
      JoinSplit(rest, sep);
      JoinCons(head, Split(rest, sep), sep);
      assert s == head + [sep] + rest;
    }
  }

  /** Splitting a join of separator-free pieces gives back the pieces. */
  lemma {:induction false} SplitJoin(parts: seq<string>, sep: char)
    requires |parts| >= 1
    requires forall k :: 0 <= k < |parts| ==> sep !in parts[k]
    ensures Split(Join(parts, sep), sep) == parts
  {
    if |parts| > 1 {
      var head, tail := parts[0], parts[1..];
      var rest := Join(tail, sep);
      var s := head + [sep] + rest;
      assert parts == [head] + tail;
      JoinCons(head, tail, sep);
      assert s[..|head|] == head && s[|head|] == sep && s[|head| + 1..] == rest;
      SplitAt(s, sep, |head|);
      SplitJoin(tail, sep);
    }
  }

  /** The first piece of a split is the text before the first separator. */
  lemma SplitFirst(first: string, tail: string, sep: char)
    requires sep !in first
    ensures Split(first + [sep] + tail, sep)[0] == first
  {
    var s := first + [sep] + tail;
    assert s[|first|] == sep;
    assert s[..|first|] == first;
    assert IndexOf(s, sep) == |first|;
  }

  /** Without a separator, the only piece is the whole text. */
  lemma SplitWhole(s: string, sep: char)
    requires sep !in s
    ensures Split(s, sep) == [s]
  {
  }

  /**
   * Go's `unicode.IsSpace`, on which `strings.TrimSpace` is built: the Latin-1
   * white space characters plus the Unicode White_Space code points. Within
   * Latin-1 these are exactly '\t', '\n', '\v', '\f', '\r', ' ', U+0085 and U+00A0.
   */
  predicate IsSpace(c: char)
    ensures c <= '\U{00FF}' ==> (IsSpace(c) <==> c in "\t\n\U{000B}\U{000C}\r \U{0085}\U{00A0}")
  {
    || c == '\t' || c == '\n' || c == '\U{000B}' || c == '\U{000C}' || c == '\r' || c == ' '
    || c == '\U{0085}' || c == '\U{00A0}' || c == '\U{1680}'
    || ('\U{2000}' <= c <= '\U{200A}')
    || c == '\U{2028}' || c == '\U{2029}' || c == '\U{202F}' || c == '\U{205F}' || c == '\U{3000}'
  }

  predicate AllSpace(s: string)
  {
    forall i :: 0 <= i < |s| ==> IsSpace(s[i])
  }

  /** `s` with its leading white space removed. */
  function TrimLeftSpace(s: string): (r: string)
    ensures |r| <= |s| && r == s[|s| - |r|..]
    ensures AllSpace(s[..|s| - |r|])
    ensures r == [] || !IsSpace(r[0])
  {
    if |s| > 0 && IsSpace(s[0]) then
      var r := TrimLeftSpace(s[1..]);
      assert s[..|s| - |r|] == [s[0]] + s[1..][..|s| - 1 - |r|];
      r
    else s
  }

  /** `s` with its trailing white space removed. */
  function TrimRightSpace(s: string): (r: string)
    ensures |r| <= |s| && r == s[..|r|]
    ensures AllSpace(s[|r|..])
    ensures r == [] || !IsSpace(r[|r| - 1])
  {
    if |s| > 0 && IsSpace(s[|s| - 1]) then
      var r := TrimRightSpace(s[..|s| - 1]);
      assert s[|r|..] == s[..|s| - 1][|r|..] + [s[|s| - 1]];
      r
    else s
  }

  /** Go's `strings.TrimSpace`: leading and trailing white space removed. */
  function TrimSpace(s: string): (r: string)
    ensures |r| <= |s|
    ensures r == [] || (!IsSpace(r[0]) && !IsSpace(r[|r| - 1]))
    ensures forall c :: c in r ==> c in s
  {
    var t := TrimLeftSpace(s);
    var r := TrimRightSpace(t);
    assert forall c :: c in r ==> c in t;
    r
  }

  /** Number of white space characters `TrimSpace` removes at the front. */
  function LeadingSpaces(s: string): nat
  {
    |s| - |TrimLeftSpace(s)|
  }

  /** The trimmed text is a slice of `s` with only white space around it. */
  lemma TrimSpaceSlice(s: string)
    ensures var i, r := LeadingSpaces(s), TrimSpace(s);
      && i + |r| <= |s|
      && r == s[i..i + |r|]
      && AllSpace(s[..i])
      && AllSpace(s[i + |r|..])
  {
    var t := TrimLeftSpace(s);
    var i, r := LeadingSpaces(s), TrimSpace(s);
    assert t == s[i..];
    assert r == t[..|r|];
    assert s[i + |r|..] == t[|r|..];
  }

  lemma {:induction false} TrimLeftPadded(a: string, t: string)
    requires AllSpace(a)
    requires t == [] || !IsSpace(t[0])
    ensures TrimLeftSpace(a + t) == t
    decreases |a|
  {
    if a == [] {
      assert a + t == t;
    } else {
      assert (a + t)[1..] == a[1..] + t;
      TrimLeftPadded(a[1..], t);
    }
  }

  lemma {:induction false} TrimRightPadded(t: string, b: string)
    requires AllSpace(b)
    requires t == [] || !IsSpace(t[|t| - 1])
    ensures TrimRightSpace(t + b) == t
    decreases |b|
  {
    if b == [] {
      assert t + b == t;
    } else {
      var b' := b[..|b| - 1];
      assert (t + b)[..|t + b| - 1] == t + b';
      TrimRightPadded(t, b');
    }
  }

  /**
   * The reference description of `TrimSpace`: surrounding a text that neither
   * starts nor ends with white space by white space only, and trimming, gives
   * back that text.
   */
  lemma TrimSpacePadded(a: string, m: string, b: string)
    requires AllSpace(a) && AllSpace(b)
    requires m == [] || (!IsSpace(m[0]) && !IsSpace(m[|m| - 1]))
    ensures TrimSpace(a + m + b) == m
  {
    if m == [] {
      assert a + m + b == a + b;
      assert AllSpace(a + b);
      var t := TrimLeftSpace(a + b);
      assert t == [];
    } else {
      assert a + m + b == a + (m + b);
      TrimLeftPadded(a, m + b);
      TrimRightPadded(m, b);
    }
  }

  /** A text that neither starts nor ends with white space is left as it is. */
  lemma TrimSpaceUnpadded(m: string)
    requires m == [] || (!IsSpace(m[0]) && !IsSpace(m[|m| - 1]))
    ensures TrimSpace(m) == m
  {
    TrimSpacePadded([], m, []);
    assert [] + m + [] == m;
  }

  /** Trimming twice is the same as trimming once. */
  lemma TrimSpaceIdempotent(s: string)
    ensures TrimSpace(TrimSpace(s)) == TrimSpace(s)
  {
    TrimSpaceUnpadded(TrimSpace(s));
  }
}
