/**
 * The Python string operations the request handler relies on: the substring
 * test `needle in hay`, `sep.join(parts)` and `s.strip()`, with `SplitOn` as
 * the reference inverse of joining.
 */
module PyStr {

  /** str.isspace for one character: the ASCII whitespace and separator
      controls, NEL, NO-BREAK SPACE and the Unicode space separators. */
  function IsSpace(c: char): (b: bool)
    ensures c == ' ' || c == '\t' || c == '\n' || c == '\r' ==> b
    ensures ('0' <= c <= '9') || ('a' <= c <= 'z') || ('A' <= c <= 'Z') ==> !b
    ensures b ==> c <= '\U{3000}'
  {
    || ('\t' <= c <= '\r')
    || ('\U{1C}' <= c <= '\U{1F}')
    || c == ' ' || c == '\U{85}' || c == '\U{A0}' || c == '\U{1680}'
    || ('\U{2000}' <= c <= '\U{200A}')
    || c == '\U{2028}' || c == '\U{2029}' || c == '\U{202F}' || c == '\U{205F}' || c == '\U{3000}'
  }

  /** A non-empty string that neither starts nor ends with whitespace. */
  predicate IsTrimmed(t: string)
  {
    t != [] && !IsSpace(t[0]) && !IsSpace(t[|t| - 1])
  }

  // ---------------------------------------------------------------------------
  // Substring test

  /** needle occurs in hay at offset i. */
  predicate OccursAt(hay: string, needle: string, i: int)
  {
    0 <= i && i + |needle| <= |hay| && hay[i..i + |needle|] == needle
  }

  /** Occurrences in hay[1..] are the occurrences in hay after offset 0, shifted by one. */
  lemma OccursShift(hay: string, needle: string)
    requires |hay| >= 1
    ensures forall i :: OccursAt(hay[1..], needle, i) ==> OccursAt(hay, needle, i + 1)
    ensures forall i :: OccursAt(hay, needle, i) && i >= 1 ==> OccursAt(hay[1..], needle, i - 1)
  {
    forall i | OccursAt(hay[1..], needle, i)
      ensures OccursAt(hay, needle, i + 1)
    {
      assert hay[1..][i..i + |needle|] == hay[i + 1..i + 1 + |needle|];
    }
    forall i | OccursAt(hay, needle, i) && i >= 1
      ensures OccursAt(hay[1..], needle, i - 1)
    {
      assert hay[1..][i - 1..i - 1 + |needle|] == hay[i..i + |needle|];
    }
  }

  /** Python's `needle in hay`. */
  function Contains(hay: string, needle: string): (r: bool)
    ensures r <==> exists i :: OccursAt(hay, needle, i)
    decreases |hay|
  {
    if |needle| > |hay| then false
    else if hay[..|needle|] == needle then
      assert OccursAt(hay, needle, 0);
      true
    else
      OccursShift(hay, needle);
      Contains(hay[1..], needle)
  }

  // ---------------------------------------------------------------------------
  // Join and its inverse

  /** sep.join(parts) */
  function Join(parts: seq<string>, sep: string): (r: string)
    ensures |parts| == 1 ==> r == parts[0]
    ensures parts == [] ==> r == ""
  {
    if parts == [] then ""
    else if |parts| == 1 then parts[0]
    else parts[0] + sep + Join(parts[1..], sep)
  }

  /** Splits a string at every occurrence of c (Python's s.split(c) for a
      one-character separator). */
  function SplitOn(s: string, c: char): (r: seq<string>)
    ensures |r| >= 1
  {
    if s == [] then [""]
    else
      var rest := SplitOn(s[1..], c);
      if s[0] == c then [""] + rest else [[s[0]] + rest[0]] + rest[1..]
  }

  lemma {:induction false} SplitOnNoSeparator(s: string, c: char)
    requires c !in s
    ensures SplitOn(s, c) == [s]
  {
    if s != [] {
      SplitOnNoSeparator(s[1..], c);
      assert [s[0]] + s[1..] == s;
    }
  }

  lemma {:induction false} SplitOnAfterPart(a: string, c: char, b: string)
    requires c !in a
    ensures SplitOn(a + [c] + b, c) == [a] + SplitOn(b, c)
  {
    if a == [] {
      assert a + [c] + b == [c] + b;
      assert ([c] + b)[1..] == b;
    } else {
      SplitOnAfterPart(a[1..], c, b);
      assert (a + [c] + b)[1..] == a[1..] + [c] + b;
      assert [a[0]] + a[1..] == a;
    }
  }

  /** Joining parts that do not contain c with c, then splitting at c, gives
      the parts back: joining loses nothing. */
  lemma {:induction false} SplitJoin(parts: seq<string>, c: char)
    requires |parts| >= 1
    requires forall k :: 0 <= k < |parts| ==> c !in parts[k]
    ensures SplitOn(Join(parts, [c]), c) == parts
  {
    if |parts| == 1 {
      SplitOnNoSeparator(parts[0], c);
    } else {
      SplitJoin(parts[1..], c);
      SplitOnAfterPart(parts[0], c, Join(parts[1..], [c]));
      assert [parts[0]] + parts[1..] == parts;
    }
  }

  // ---------------------------------------------------------------------------
  // Strip

  /** The number of whitespace characters s starts with. */
  function LeadingSpaces(s: string): (n: nat)
    ensures n <= |s|
    ensures forall k :: 0 <= k < n ==> IsSpace(s[k])
    ensures n == |s| || !IsSpace(s[n])
  {
    if s != [] && IsSpace(s[0]) then 1 + LeadingSpaces(s[1..]) else 0
  }

  /** The number of whitespace characters s ends with. */
  function TrailingSpaces(s: string): (n: nat)
    ensures n <= |s|
    ensures forall k :: |s| - n <= k < |s| ==> IsSpace(s[k])
    ensures n == |s| || !IsSpace(s[|s| - n - 1])
  {
    if s != [] && IsSpace(s[|s| - 1]) then 1 + TrailingSpaces(s[..|s| - 1]) else 0
  }

  /** s.strip(): s without its leading and trailing whitespace. The result is
      the slice of s that starts after the leading whitespace, everything
      after it is whitespace too, and it neither starts nor ends with
      whitespace. */
  function Strip(s: string): (r: string)
    ensures |r| <= |s| - LeadingSpaces(s)
    ensures r == s[LeadingSpaces(s)..LeadingSpaces(s) + |r|]
    ensures forall k :: LeadingSpaces(s) + |r| <= k < |s| ==> IsSpace(s[k])
    ensures r == [] || IsTrimmed(r)
  {
    var i := LeadingSpaces(s);
    var t := s[i..];
    var m := |t| - TrailingSpaces(t);
    var r := t[..m];
    assert r == s[i..i + m];
    assert r != [] ==> r[0] == t[0] && r[m - 1] == t[m - 1];
    assert forall k :: i + m <= k < |s| ==> s[k] == t[k - i];
    r
  }

  /** A string that neither starts nor ends with whitespace is its own strip;
      in particular, stripping twice is stripping once. */
  lemma StripKeeps(s: string)
    requires s == [] || IsTrimmed(s)
    ensures Strip(s) == s
  {
  }

  lemma StripIdempotent(s: string)
    ensures Strip(Strip(s)) == Strip(s)
  {
    StripKeeps(Strip(s));
  }

  // ---------------------------------------------------------------------------
  // Lines joined and stripped

  /** A trimmed string without newlines. */
  predicate IsTrimmedLine(t: string)
  {
    IsTrimmed(t) && '\n' !in t
  }

  /** Joining trimmed strings gives a trimmed string: the result starts with
      the first part's first character and ends with the last part's last. */
  lemma {:induction false} JoinTrimmed(parts: seq<string>, sep: string)
    requires |parts| >= 1 && forall k :: 0 <= k < |parts| ==> IsTrimmed(parts[k])
    ensures IsTrimmed(Join(parts, sep))
  {
    var j := Join(parts, sep);
    if |parts| == 1 {
      assert j == parts[0];
    } else {
      JoinTrimmed(parts[1..], sep);
      var rest := Join(parts[1..], sep);
      assert IsTrimmed(parts[0]);
      assert j == parts[0] + sep + rest;
      assert j[0] == parts[0][0];
      assert j[|j| - 1] == rest[|rest| - 1];
    }
  }

  /** Trimmed lines joined with newlines and stripped split at the newlines
      back into the same lines. */
  lemma JoinLinesRecoverable(parts: seq<string>)
    requires |parts| >= 1 && forall k :: 0 <= k < |parts| ==> IsTrimmedLine(parts[k])
    ensures SplitOn(Strip(Join(parts, "\n")), '\n') == parts
  {
    forall k | 0 <= k < |parts|
      ensures IsTrimmed(parts[k]) && '\n' !in parts[k]
    {
      assert IsTrimmedLine(parts[k]);
    }
    var j := Join(parts, "\n");
    JoinTrimmed(parts, "\n");
    StripKeeps(j);
    assert Strip(j) == j;
    SplitJoin(parts, '\n');
  }
}
