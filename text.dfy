/**
 * String helpers with the meaning JavaScript gives them: `String.prototype.trim`
 * and the ASCII character classes used by the filename sanitiser.
 */
module Text {

  /** The characters `trim` removes: ECMAScript's WhiteSpace and LineTerminator
      code points (the Unicode Zs category as it stands since Unicode 6.3). */
  predicate IsWhitespace(c: char) {
    || c == '\t' || c == '\n' || c == '\U{000B}' || c == '\U{000C}' || c == '\r'
    || c == ' ' || c == '\U{00A0}' || c == '\U{1680}'
    || ('\U{2000}' <= c <= '\U{200A}')
    || c == '\U{2028}' || c == '\U{2029}' || c == '\U{202F}' || c == '\U{205F}'
    || c == '\U{3000}' || c == '\U{FEFF}'
  }

  predicate AllWhitespace(s: string) {
    forall i :: 0 <= i < |s| ==> IsWhitespace(s[i])
  }

  /** Neither end of `s` is a whitespace character. */
  predicate Trimmed(s: string) {
    s == [] || (!IsWhitespace(s[0]) && !IsWhitespace(s[|s| - 1]))
  }

  /** Length of the longest all-whitespace prefix of `s`. */
  function LeadingWhitespace(s: string): (n: nat)
    ensures n <= |s|
    ensures forall i :: 0 <= i < n ==> IsWhitespace(s[i])
    ensures n < |s| ==> !IsWhitespace(s[n])
  {
    if |s| > 0 && IsWhitespace(s[0]) then 1 + LeadingWhitespace(s[1..]) else 0
  }

  /** Length of the longest all-whitespace suffix of `s`. */
  function TrailingWhitespace(s: string): (n: nat)
    ensures n <= |s|
    ensures forall i :: |s| - n <= i < |s| ==> IsWhitespace(s[i])
    ensures n < |s| ==> !IsWhitespace(s[|s| - n - 1])
  {
    if |s| > 0 && IsWhitespace(s[|s| - 1]) then 1 + TrailingWhitespace(s[..|s| - 1]) else 0
  }

  function TrimStart(s: string): string {
    s[LeadingWhitespace(s)..]
  }

  function TrimEnd(s: string): string {
    s[..|s| - TrailingWhitespace(s)]
  }

  /** `s.trim()`: both ends stripped of whitespace. */
  function Trim(s: string): (r: string)
    ensures |r| <= |s|
    ensures Trimmed(r)
  {
    TrimEnd(TrimStart(s))
  }

  /** What `trim` removes is whitespace: `s` is some whitespace, then `Trim(s)`, then
      some more whitespace. */
  lemma TrimSplits(s: string)
    ensures exists p, q :: s == p + Trim(s) + q && AllWhitespace(p) && AllWhitespace(q)
  {
    var a := LeadingWhitespace(s);
    var t := s[a..];
    var b := TrailingWhitespace(t);
    var p, q := s[..a], t[|t| - b..];
    assert AllWhitespace(p) by {
      forall i | 0 <= i < |p| ensures IsWhitespace(p[i]) {
        assert p[i] == s[i];
      }
    }
    assert AllWhitespace(q) by {
      forall i | 0 <= i < |q| ensures IsWhitespace(q[i]) {
        assert q[i] == t[|t| - b + i];
      }
    }
    var r := t[..|t| - b];
    assert TrimStart(s) == t;
    assert TrimEnd(t) == r;
    assert t == r + q;
    assert s == p + t;
    assert s == p + r + q && AllWhitespace(p) && AllWhitespace(q);
  }

  /** A whitespace run followed by a non-whitespace character (or by nothing) is exactly the
      prefix `LeadingWhitespace` measures. */
  lemma {:induction false} LeadingWhitespaceIs(s: string, k: nat)
    requires k <= |s|
    requires forall i :: 0 <= i < k ==> IsWhitespace(s[i])
    requires k < |s| ==> !IsWhitespace(s[k])
    ensures LeadingWhitespace(s) == k
  {
    if k > 0 {
      LeadingWhitespaceIs(s[1..], k - 1);
    }
  }

  lemma {:induction false} TrailingWhitespaceIs(s: string, k: nat)
    requires k <= |s|
    requires forall i :: |s| - k <= i < |s| ==> IsWhitespace(s[i])
    requires k < |s| ==> !IsWhitespace(s[|s| - k - 1])
    ensures TrailingWhitespace(s) == k
  {
    if k > 0 {
      var front := s[..|s| - 1];
      assert forall i :: |front| - (k - 1) <= i < |front| ==> front[i] == s[i];
      TrailingWhitespaceIs(front, k - 1);
    }
  }

  /** `Trim` is characterised by `TrimSplits` and `Trimmed`: whenever `s` is whitespace,
      then a string with no whitespace at its ends, then whitespace, that middle part is
      `Trim(s)`. */
  lemma TrimUnique(s: string, p: string, m: string, q: string)
    requires s == p + m + q && AllWhitespace(p) && AllWhitespace(q) && Trimmed(m)
    ensures Trim(s) == m
  {
    if m == [] {
      assert forall i :: 0 <= i < |s| ==> s[i] == if i < |p| then p[i] else q[i - |p|];
      LeadingWhitespaceIs(s, |s|);
      assert TrimStart(s) == [];
    } else {
      assert forall i :: 0 <= i < |p| ==> s[i] == p[i];
      assert s[|p|] == m[0];
      LeadingWhitespaceIs(s, |p|);
      var t := m + q;
      assert TrimStart(s) == t;
      assert forall i :: |t| - |q| <= i < |t| ==> t[i] == q[i - |m|];
      assert t[|t| - |q| - 1] == m[|m| - 1];
      TrailingWhitespaceIs(t, |q|);
      assert TrimEnd(t) == m;
    }
  }

  /** Trimming twice is trimming once. */
  lemma TrimIdempotent(s: string)
    ensures Trim(Trim(s)) == Trim(s)
  {
    TrimUnique(Trim(s), [], Trim(s), []);
  }

  /** A string made only of whitespace trims to the empty string. */
  lemma TrimAllWhitespace(s: string)
    requires AllWhitespace(s)
    ensures Trim(s) == []
  {
    TrimUnique(s, s, [], []);
  }

  /** A member of the class `[A-Za-z0-9_]` (regular-expression `\w` in ASCII). */
  predicate IsWordChar(c: char) {
    ('A' <= c <= 'Z') || ('a' <= c <= 'z') || ('0' <= c <= '9') || c == '_'
  }

  /** `toLowerCase` on ASCII: upper-case letters become lower-case, all else is kept. */
  function AsciiLower(c: char): (d: char)
    ensures 'A' <= c <= 'Z' ==> 'a' <= d <= 'z' && d as int == c as int + 32
    ensures !('A' <= c <= 'Z') ==> d == c
  {
    if 'A' <= c <= 'Z' then (c as int + 32) as char else c
  }
}
