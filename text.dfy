/** The exercise-type key both conflict checks compare: Kotlin's `trim()`
    followed by a lower-case comparison. Case mapping is modelled for the
    ASCII letters only. */
module Text {

  /** Kotlin's `Char.isWhitespace()` on the JVM: Java whitespace plus the
      Unicode space separators. */
  predicate IsWhitespace(c: char) {
    c == ' ' || ('\t' <= c <= '\r') || ('\U{1C}' <= c <= '\U{1F}')
    || c == '\U{A0}' || c == '\U{1680}' || ('\U{2000}' <= c <= '\U{200A}')
    || c == '\U{2028}' || c == '\U{2029}' || c == '\U{202F}' || c == '\U{205F}'
    || c == '\U{3000}'
  }

  predicate AllWhitespace(s: string) {
    forall k :: 0 <= k < |s| ==> IsWhitespace(s[k])
  }

  /** Neither end of `s` is whitespace. */
  predicate IsTrimmed(s: string) {
    s == [] || (!IsWhitespace(s[0]) && !IsWhitespace(s[|s| - 1]))
  }

  /** How many whitespace characters `s` starts with. */
  function LeadingWhitespace(s: string): (n: nat)
    ensures n <= |s|
  {
    if |s| > 0 && IsWhitespace(s[0]) then 1 + LeadingWhitespace(s[1..]) else 0
  }

  /** How many whitespace characters `s` ends with. */
  function TrailingWhitespace(s: string): (n: nat)
    ensures n <= |s|
  {
    if |s| > 0 && IsWhitespace(s[|s| - 1]) then 1 + TrailingWhitespace(s[..|s| - 1]) else 0
  }

  /** The leading count covers a whitespace run that stops at the first other
      character. */
  lemma {:induction false} LeadingWhitespaceRun(s: string)
    ensures AllWhitespace(s[..LeadingWhitespace(s)])
    ensures LeadingWhitespace(s) == |s| || !IsWhitespace(s[LeadingWhitespace(s)])
  {
    if |s| > 0 && IsWhitespace(s[0]) {
      LeadingWhitespaceRun(s[1..]);
      var n := LeadingWhitespace(s);
      assert s[..n] == [s[0]] + s[1..][..n - 1];
    }
  }

  /** The trailing count covers a whitespace run that starts right after the
      last other character. */
  lemma {:induction false} TrailingWhitespaceRun(s: string)
    ensures AllWhitespace(s[|s| - TrailingWhitespace(s)..])
    ensures TrailingWhitespace(s) == |s| || !IsWhitespace(s[|s| - TrailingWhitespace(s) - 1])
  {
    if |s| > 0 && IsWhitespace(s[|s| - 1]) {
      TrailingWhitespaceRun(s[..|s| - 1]);
      var n := TrailingWhitespace(s);
      assert s[|s| - n..] == s[..|s| - 1][|s| - n..] + [s[|s| - 1]];
    }
  }

  /** `s` without its leading whitespace. */
  function TrimStart(s: string): string {
    if |s| > 0 && IsWhitespace(s[0]) then TrimStart(s[1..]) else s
  }

  /** `s` without its trailing whitespace. */
  function TrimEnd(s: string): string {
    if |s| > 0 && IsWhitespace(s[|s| - 1]) then TrimEnd(s[..|s| - 1]) else s
  }

  /** `String.trim()`: `s` without its leading and trailing whitespace. */
  function Trim(s: string): string {
    TrimEnd(TrimStart(s))
  }

  /** Trimming the start drops exactly the leading whitespace ... */
  lemma {:induction false} TrimStartDrops(s: string)
    ensures TrimStart(s) == s[LeadingWhitespace(s)..]
  {
    if |s| > 0 && IsWhitespace(s[0]) {
      TrimStartDrops(s[1..]);
      assert s[1..][LeadingWhitespace(s[1..])..] == s[LeadingWhitespace(s)..];
    }
  }

  /** ... and trimming the end drops exactly the trailing whitespace. */
  lemma {:induction false} TrimEndTakes(s: string)
    ensures TrimEnd(s) == s[..|s| - TrailingWhitespace(s)]
  {
    if |s| > 0 && IsWhitespace(s[|s| - 1]) {
      TrimEndTakes(s[..|s| - 1]);
      assert s[..|s| - 1][..|s| - 1 - TrailingWhitespace(s[..|s| - 1])] == s[..|s| - TrailingWhitespace(s)];
    }
  }

  /** A trimmed text starts and ends with a character that is not whitespace. */
  lemma TrimIsTrimmed(s: string)
    ensures IsTrimmed(Trim(s))
  {
    TrimUnfold(s);
    var t := s[LeadingWhitespace(s)..];
    var r := Trim(s);
    LeadingWhitespaceRun(s);
    TrailingWhitespaceRun(t);
    assert r != [] ==> r[0] == t[0];
  }

  /** The leading-whitespace count is the index of the first other character. */
  lemma LeadingWhitespaceIs(s: string, m: nat)
    requires m <= |s| && AllWhitespace(s[..m]) && (m == |s| || !IsWhitespace(s[m]))
    ensures LeadingWhitespace(s) == m
  {
    var n := LeadingWhitespace(s);
    LeadingWhitespaceRun(s);
    forall k | 0 <= k < m ensures IsWhitespace(s[k]) {
      assert s[..m][k] == s[k];
    }
    forall k | 0 <= k < n ensures IsWhitespace(s[k]) {
      assert s[..n][k] == s[k];
    }
  }

  /** The trailing-whitespace count is the distance from the last other character. */
  lemma TrailingWhitespaceIs(s: string, m: nat)
    requires m <= |s| && AllWhitespace(s[|s| - m..]) && (m == |s| || !IsWhitespace(s[|s| - m - 1]))
    ensures TrailingWhitespace(s) == m
  {
    var n := TrailingWhitespace(s);
    TrailingWhitespaceRun(s);
    forall k | |s| - m <= k < |s| ensures IsWhitespace(s[k]) {
      assert s[|s| - m..][k - (|s| - m)] == s[k];
    }
    forall k | |s| - n <= k < |s| ensures IsWhitespace(s[k]) {
      assert s[|s| - n..][k - (|s| - n)] == s[k];
    }
  }

  function LowerChar(c: char): char {
    if 'A' <= c <= 'Z' then (c as int + 32) as char else c
  }

  /** `lowercase()`, ASCII letters only. */
  function Lower(s: string): (r: string)
    ensures |r| == |s|
  {
    if s == [] then [] else [LowerChar(s[0])] + Lower(s[1..])
  }

  /** Lower-casing maps each character on its own. */
  lemma {:induction false} LowerChars(s: string)
    ensures forall k :: 0 <= k < |s| ==> Lower(s)[k] == LowerChar(s[k])
  {
    if s != [] {
      LowerChars(s[1..]);
    }
  }

  /** `type.trim().lowercase()`: the key under which two exercise types are
      the same. `a.trim().equals(b.trim(), ignoreCase = true)` holds exactly
      when the keys are equal (for ASCII text). */
  function TypeKey(s: string): string {
    Lower(Trim(s))
  }

  /** Whitespace padding on either side of a trimmed text is ignored. */
  lemma TrimPadded(pre: string, s: string, post: string)
    requires AllWhitespace(pre) && AllWhitespace(post) && IsTrimmed(s)
    ensures Trim(pre + s + post) == s
  {
    var all := pre + s + post;
    TrimUnfold(all);
    if s == [] {
      assert all[..|all|] == all;
      LeadingWhitespaceIs(all, |all|);
    } else {
      assert all[..|pre|] == pre;
      LeadingWhitespaceIs(all, |pre|);
      var t := all[|pre|..];
      assert t == s + post;
      assert t[|t| - |post|..] == post;
      TrailingWhitespaceIs(t, |post|);
      assert t[..|s|] == s;
    }
  }

  /** Lower-casing keeps every character's whitespace status. */
  lemma LowerKeepsWhitespace(c: char)
    ensures IsWhitespace(LowerChar(c)) == IsWhitespace(c)
  {
  }

  /** Lower-casing keeps the whitespace run at the start ... */
  lemma LowerKeepsLeadingWhitespace(s: string)
    ensures LeadingWhitespace(Lower(s)) == LeadingWhitespace(s)
  {
    var ls := Lower(s);
    var n := LeadingWhitespace(s);
    LeadingWhitespaceRun(s);
    LowerChars(s);
    forall k | 0 <= k < n ensures IsWhitespace(ls[k]) {
      assert s[..n][k] == s[k];
      LowerKeepsWhitespace(s[k]);
    }
    assert AllWhitespace(ls[..n]);
    if n < |s| {
      LowerKeepsWhitespace(s[n]);
    }
    LeadingWhitespaceIs(ls, n);
  }

  /** ... and the one at the end. */
  lemma LowerKeepsTrailingWhitespace(s: string)
    ensures TrailingWhitespace(Lower(s)) == TrailingWhitespace(s)
  {
    var ls := Lower(s);
    var m := TrailingWhitespace(s);
    TrailingWhitespaceRun(s);
    LowerChars(s);
    forall k | |s| - m <= k < |s| ensures IsWhitespace(ls[k]) {
      assert s[|s| - m..][k - (|s| - m)] == s[k];
      LowerKeepsWhitespace(s[k]);
    }
    assert AllWhitespace(ls[|ls| - m..]);
    if m < |s| {
      LowerKeepsWhitespace(s[|s| - m - 1]);
    }
    TrailingWhitespaceIs(ls, m);
  }

  /** Lower-casing works character by character, so it commutes with
      dropping a prefix ... */
  lemma {:induction false} LowerDrop(s: string, i: nat)
    requires i <= |s|
    ensures Lower(s)[i..] == Lower(s[i..])
  {
    if i > 0 {
      LowerDrop(s[1..], i - 1);
      assert s[1..][i - 1..] == s[i..];
    }
  }

  /** ... and with keeping a prefix. */
  lemma {:induction false} LowerTake(s: string, j: nat)
    requires j <= |s|
    ensures Lower(s)[..j] == Lower(s[..j])
  {
    if j > 0 {
      LowerTake(s[1..], j - 1);
      assert s[..j] == [s[0]] + s[1..][..j - 1];
    }
  }

  lemma TrimUnfold(s: string)
    ensures LeadingWhitespace(s) <= |s|
    ensures Trim(s) == s[LeadingWhitespace(s)..][..|s| - LeadingWhitespace(s) - TrailingWhitespace(s[LeadingWhitespace(s)..])]
  {
    TrimStartDrops(s);
    TrimEndTakes(s[LeadingWhitespace(s)..]);
  }

  /** Trimming and lower-casing commute. */
  lemma TrimLowerCommute(s: string)
    ensures Trim(Lower(s)) == Lower(Trim(s))
  {
    var ls := Lower(s);
    LowerKeepsLeadingWhitespace(s);
    var i := LeadingWhitespace(s);
    var t := s[i..];
    LowerDrop(s, i);
    LowerKeepsTrailingWhitespace(t);
    var j := |t| - TrailingWhitespace(t);
    LowerTake(t, j);
    TrimUnfold(s);
    TrimUnfold(ls);
  }

  /** Texts that differ only in letter case and surrounding whitespace have
      the same type key. */
  lemma SameKeyIgnoringCase(a: string, b: string)
    requires Lower(a) == Lower(b)
    ensures TypeKey(a) == TypeKey(b)
  {
    TrimLowerCommute(a);
    TrimLowerCommute(b);
  }
}
