/** The handful of Python string operations the core relies on:
    `str.strip`, `startswith`, `endswith`, `in`, `split(sep)[0]`,
    `"\n".join`, `str(int)` and the ASCII case folding of SQLite's LIKE. */
module Text {

  /** Python's `str.isspace` for one character: the characters that
      `str.strip()` with no argument removes. */
  predicate IsSpace(c: char) {
    || ('\t' <= c <= '\r')
    || ('\U{1C}' <= c <= ' ')
    || c == '\U{85}' || c == '\U{A0}' || c == '\U{1680}'
    || ('\U{2000}' <= c <= '\U{200A}')
    || c == '\U{2028}' || c == '\U{2029}' || c == '\U{202F}'
    || c == '\U{205F}' || c == '\U{3000}'
  }

  /** Neither the first nor the last character is white space. */
  predicate NoOuterSpace(s: string) {
    s == [] || (!IsSpace(s[0]) && !IsSpace(s[|s| - 1]))
  }

  /** `s.lstrip()`: drop the leading white space. */
  function TrimStart(s: string): (r: string)
    ensures |r| <= |s| && r == s[|s| - |r|..]
    ensures forall k :: 0 <= k < |s| - |r| ==> IsSpace(s[k])
    ensures r == [] || !IsSpace(r[0])
  {
    if s != [] && IsSpace(s[0]) then TrimStart(s[1..]) else s
  }

  /** `s.rstrip()`: drop the trailing white space. */
  function TrimEnd(s: string): (r: string)
    ensures |r| <= |s| && r == s[..|r|]
    ensures forall k :: |r| <= k < |s| ==> IsSpace(s[k])
    ensures r == [] || !IsSpace(r[|r| - 1])
  {
    if s != [] && IsSpace(s[|s| - 1]) then TrimEnd(s[..|s| - 1]) else s
  }

  /** `s.strip()`: the input without its leading and trailing white space. */
  function Trim(s: string): (r: string)
    ensures NoOuterSpace(r)
    ensures NoOuterSpace(s) ==> r == s
    ensures |r| <= |s|
  {
    TrimEnd(TrimStart(s))
  }

  /** Leading white space does not change what `strip` returns. */
  lemma {:induction false} TrimSkipsLeadingSpace(w: string, s: string)
    requires forall k :: 0 <= k < |w| ==> IsSpace(w[k])
    ensures TrimStart(w + s) == TrimStart(s)
  {
    if w != [] {
      assert (w + s)[1..] == w[1..] + s;
      TrimSkipsLeadingSpace(w[1..], s);
    } else {
      assert w + s == s;
    }
  }

  /** Trailing white space does not change what `strip` returns. */
  lemma {:induction false} TrimSkipsTrailingSpace(s: string, w: string)
    requires forall k :: 0 <= k < |w| ==> IsSpace(w[k])
    ensures TrimEnd(s + w) == TrimEnd(s)
  {
    if w != [] {
      assert (s + w)[..|s + w| - 1] == s + w[..|w| - 1];
      TrimSkipsTrailingSpace(s, w[..|w| - 1]);
    } else {
      assert s + w == s;
    }
  }

  /** `strip` of a text that is surrounded by white space and has none at
      its own ends gives back exactly that text. */
  lemma TrimSurrounded(pre: string, s: string, post: string)
    requires forall k :: 0 <= k < |pre| ==> IsSpace(pre[k])
    requires forall k :: 0 <= k < |post| ==> IsSpace(post[k])
    requires NoOuterSpace(s)
    ensures Trim(pre + s + post) == s
  {
    assert pre + s + post == pre + (s + post);
    TrimSkipsLeadingSpace(pre, s + post);
    if s == [] {
      assert s + post == post;
      TrimSkipsLeadingSpace(post, []);
      assert post + [] == post;
    } else {
      assert TrimStart(s + post) == s + post;
    }
    TrimSkipsTrailingSpace(s, post);
  }

  /** `strip` is idempotent. */
  lemma TrimIdempotent(s: string)
    ensures Trim(Trim(s)) == Trim(s)
  {
  }

  /** `s.startswith(p)`. */
  predicate StartsWith(s: string, p: string) {
    |p| <= |s| && s[..|p|] == p
  }

  /** `s.endswith(p)`. */
  predicate EndsWith(s: string, p: string) {
    |p| <= |s| && s[|s| - |p|..] == p
  }

  /** `p in s`: p occurs somewhere in s as a contiguous piece. */
  predicate Contains(s: string, p: string)
    decreases |s|
  {
    StartsWith(s, p) || (s != [] && Contains(s[1..], p))
  }

  /** `Contains` is exactly "some window of s equals p". */
  lemma {:induction false} ContainsAt(s: string, p: string, i: nat)
    requires i + |p| <= |s| && s[i..i + |p|] == p
    ensures Contains(s, p)
    decreases i
  {
    if i > 0 {
      assert s[1..][i - 1..i - 1 + |p|] == s[i..i + |p|];
      ContainsAt(s[1..], p, i - 1);
    }
  }

  /** `s.split(p)[0]` for a non-empty separator p: the text before the first
      occurrence of p, or all of s when p does not occur. */
  function BeforeFirst(s: string, p: string): (r: string)
    requires p != []
    ensures |r| <= |s| && r == s[..|r|]
    ensures !Contains(s, p) ==> r == s
    decreases |s|
  {
    if StartsWith(s, p) then []
    else if s == [] then []
    else [s[0]] + BeforeFirst(s[1..], p)
  }

  /** What comes before the first occurrence of p never contains p. */
  lemma {:induction false} BeforeFirstLacks(s: string, p: string)
    requires p != []
    ensures !Contains(BeforeFirst(s, p), p)
    decreases |s|
  {
    var r := BeforeFirst(s, p);
    if StartsWith(s, p) || s == [] {
    } else {
      var tail := BeforeFirst(s[1..], p);
      BeforeFirstLacks(s[1..], p);
      assert r == [s[0]] + tail && r[1..] == tail;
    }
  }

  /** When p's first character does not occur before position i and p
      occurs at i, the text before the first occurrence is s[..i]. */
  lemma {:induction false} BeforeFirstUpTo(s: string, p: string, i: nat)
    requires p != [] && i + |p| <= |s| && s[i..i + |p|] == p
    requires forall j :: 0 <= j < i ==> s[j] != p[0]
    ensures BeforeFirst(s, p) == s[..i]
    decreases i
  {
    if i == 0 {
      assert s[..|p|] == p;
    } else {
      assert s[..|p|][0] != p[0];
      assert s[1..][i - 1..i - 1 + |p|] == s[i..i + |p|];
      BeforeFirstUpTo(s[1..], p, i - 1);
      assert s[..i] == [s[0]] + s[1..][..i - 1];
    }
  }

  /** An occurrence inside a slice is an occurrence in the whole text. */
  lemma ContainsSlice(s: string, a: nat, b: nat, p: string)
    requires a <= b <= |s| && Contains(s[a..b], p)
    ensures Contains(s, p)
  {
    var i := ContainsWhere(s[a..b], p);
    var t := s[a..b];
    assert forall k :: i <= k < i + |p| ==> t[k] == s[a + k];
    assert t[i..i + |p|] == s[a + i..a + i + |p|];
    ContainsAt(s, p, a + i);
  }

  /** Where a contained word occurs. */
  lemma {:induction false} ContainsWhere(s: string, p: string) returns (i: nat)
    requires Contains(s, p)
    ensures i + |p| <= |s| && s[i..i + |p|] == p
    decreases |s|
  {
    if StartsWith(s, p) {
      i := 0;
    } else {
      var k := ContainsWhere(s[1..], p);
      assert s[1..][k..k + |p|] == s[k + 1..k + 1 + |p|];
      i := k + 1;
    }
  }

  /** A text lacking the first character of p does not contain p. */
  lemma LacksFirstChar(s: string, p: string)
    requires p != [] && p[0] !in s
    ensures !Contains(s, p)
  {
    if Contains(s, p) {
      var i := ContainsWhere(s, p);
    }
  }

  /** The stripped text is a slice of the original. */
  lemma TrimSlice(s: string) returns (off: nat)
    ensures off + |Trim(s)| <= |s| && Trim(s) == s[off..off + |Trim(s)|]
  {
    var t := TrimStart(s);
    var r := TrimEnd(t);
    off := |s| - |t|;
    assert t == s[off..];
    assert r == t[..|r|];
    assert s[off..][..|r|] == s[off..off + |r|];
  }

  /** Trimming cannot create an occurrence of a word. */
  lemma TrimLacks(s: string, p: string)
    requires !Contains(s, p)
    ensures !Contains(Trim(s), p)
  {
    var off := TrimSlice(s);
    if Contains(Trim(s), p) {
      ContainsSlice(s, off, off + |Trim(s)|, p);
    }
  }

  /** `"\n".join(parts)`. */
  function JoinLines(parts: seq<string>): string {
    if parts == [] then ""
    else if |parts| == 1 then parts[0]
    else parts[0] + "\n" + JoinLines(parts[1..])
  }

  /** `s.split("\n")`: the pieces between line breaks (at least one). */
  function SplitLines(s: string): (r: seq<string>)
    ensures |r| >= 1
  {
    if s == [] then [""]
    else if s[0] == '\n' then [""] + SplitLines(s[1..])
    else
      var rest := SplitLines(s[1..]);
      [[s[0]] + rest[0]] + rest[1..]
  }

  /** One piece followed by a line break and more text splits into that
      piece and the pieces of the rest. */
  lemma {:induction false} SplitAfterPiece(p: string, s: string)
    requires '\n' !in p
    ensures SplitLines(p + "\n" + s) == [p] + SplitLines(s)
    decreases |p|
  {
    if p == [] {
      assert p + "\n" + s == "\n" + s;
      assert ("\n" + s)[1..] == s;
    } else {
      assert (p + "\n" + s)[1..] == p[1..] + "\n" + s;
      SplitAfterPiece(p[1..], s);
      assert [p[0]] + p[1..] == p;
    }
  }

  /** A text without line breaks splits into itself alone. */
  lemma {:induction false} SplitWithoutBreak(p: string)
    requires '\n' !in p
    ensures SplitLines(p) == [p]
    decreases |p|
  {
    if p != [] {
      SplitWithoutBreak(p[1..]);
      assert [p[0]] + p[1..] == p;
    }
  }

  /** Joining with line breaks can be undone by splitting on them, provided
      there was at least one part and no part holds a line break itself. */
  lemma {:induction false} SplitJoinLines(parts: seq<string>)
    requires parts != []
    requires forall i :: 0 <= i < |parts| ==> '\n' !in parts[i]
    ensures SplitLines(JoinLines(parts)) == parts
  {
    if |parts| == 1 {
      SplitWithoutBreak(parts[0]);
    } else {
      SplitJoinLines(parts[1..]);
      SplitAfterPiece(parts[0], JoinLines(parts[1..]));
    }
  }

  /** The decimal digits of a natural number, most significant first. */
  function NatDigits(n: nat): (r: string)
    ensures r != []
    ensures forall k :: 0 <= k < |r| ==> '0' <= r[k] <= '9'
  {
    var d := ['0' + (n % 10) as char];
    if n < 10 then d else NatDigits(n / 10) + d
  }

  /** `str(n)` for a Python int. */
  function IntToString(n: int): (r: string)
    ensures r != [] && (r[0] == '-' <==> n < 0)
  {
    if n < 0 then "-" + NatDigits(-n) else NatDigits(n)
  }

  /** SQLite's default case folding for LIKE: ASCII letters only. */
  function AsciiLower(s: string): (r: string)
    ensures |r| == |s|
    ensures forall k :: 0 <= k < |s| ==>
      r[k] == if 'A' <= s[k] <= 'Z' then (s[k] as int + 32) as char else s[k]
  {
    if s == [] then []
    else
      var c := s[0];
      [if 'A' <= c <= 'Z' then (c as int + 32) as char else c] + AsciiLower(s[1..])
  }
}
