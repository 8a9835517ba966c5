/** The few string operations the classifiers rely on. */
module Text {

  /** Unicode white space, as `str::trim` removes it. */
  predicate IsWhite(c: char) {
    || '\t' <= c <= '\r' || c == ' ' || c == '\U{85}' || c == '\U{A0}' || c == '\U{1680}'
    || '\U{2000}' <= c <= '\U{200A}' || c == '\U{2028}' || c == '\U{2029}' || c == '\U{202F}'
    || c == '\U{205F}' || c == '\U{3000}'
  }

  function TrimStart(s: string): string {
    if s != [] && IsWhite(s[0]) then TrimStart(s[1..]) else s
  }

  function TrimEnd(s: string): string {
    if s != [] && IsWhite(s[|s| - 1]) then TrimEnd(s[..|s| - 1]) else s
  }

  function Trim(s: string): string {
    TrimEnd(TrimStart(s))
  }

  function LowerChar(c: char): char {
    if 'A' <= c <= 'Z' then c - 'A' + 'a' else c
  }

  function Lower(s: string): (r: string)
    ensures |r| == |s|
  {
    seq(|s|, i requires 0 <= i < |s| => LowerChar(s[i]))
  }

  /** Underscores written as dashes. */
  function Dashed(s: string): (r: string)
    ensures |r| == |s|
  {
    seq(|s|, i requires 0 <= i < |s| => if s[i] == '_' then '-' else s[i])
  }

  predicate Trimmed(s: string) {
    s == [] || (!IsWhite(s[0]) && !IsWhite(s[|s| - 1]))
  }

  /** A trimmed text is a fixed point of trimming, and trimming yields one. */
  lemma {:induction false} TrimIsIdempotent(s: string)
    ensures Trimmed(Trim(s))
    ensures Trimmed(s) <==> Trim(s) == s
  {
    TrimStartYields(s);
    TrimEndYields(TrimStart(s));
  }

  lemma {:induction false} TrimStartYields(s: string)
    ensures TrimStart(s) == [] || !IsWhite(TrimStart(s)[0])
    ensures |TrimStart(s)| <= |s| && (TrimStart(s) == s <==> s == [] || !IsWhite(s[0]))
  {
    if s != [] && IsWhite(s[0]) { TrimStartYields(s[1..]); }
  }

  lemma {:induction false} TrimEndYields(s: string)
    ensures TrimEnd(s) == [] || !IsWhite(TrimEnd(s)[|TrimEnd(s)| - 1])
    ensures TrimEnd(s) <= s
    ensures TrimEnd(s) == s <==> s == [] || !IsWhite(s[|s| - 1])
  {
    if s != [] && IsWhite(s[|s| - 1]) { TrimEndYields(s[..|s| - 1]); }
  }

  /** Trimming keeps a prefix that begins and ends with visible characters. */
  lemma {:induction false} TrimKeepsPrefix(p: string, s: string)
    requires p != [] && Trimmed(p) && p <= s
    ensures p <= Trim(s)
  {
    assert s[0] == p[0];
    TrimEndKeepsPrefix(p, s);
  }

  lemma {:induction false} TrimEndKeepsPrefix(p: string, s: string)
    requires p != [] && Trimmed(p) && p <= s
    ensures p <= TrimEnd(s)
  {
    if IsWhite(s[|s| - 1]) {
      assert p[|p| - 1] == s[|p| - 1];
      TrimEndKeepsPrefix(p, s[..|s| - 1]);
    }
  }
}
