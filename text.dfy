/**
 * The string operations the roster code relies on: ECMAScript `String.prototype.trim`
 * (used by the bulk-entry dialog and by the schema's `trim: true` setters),
 * `startsWith` (the upload guard) and the prefix taken by `substring(0, n)`.
 */
module Text {

  /** The characters `trim` removes: ECMAScript WhiteSpace and LineTerminator code points. */
  predicate IsTrimmable(c: char) {
    || c == '\t' || c == '\n' || c == '\U{000B}' || c == '\U{000C}' || c == '\r'
    || c == ' ' || c == '\U{00A0}' || c == '\U{1680}'
    || ('\U{2000}' <= c <= '\U{200A}')
    || c == '\U{2028}' || c == '\U{2029}' || c == '\U{202F}' || c == '\U{205F}'
    || c == '\U{3000}' || c == '\U{FEFF}'
  }

  /** Every character of `s` is one that `trim` removes (vacuously so for ""). */
  predicate AllTrimmable(s: string) {
    forall i {:trigger IsTrimmable(s[i])} :: 0 <= i < |s| ==> IsTrimmable(s[i])
  }

  /** Neither end of `s` is a trimmable character. */
  predicate Trimmed(s: string) {
    s == [] || (!IsTrimmable(s[0]) && !IsTrimmable(s[|s| - 1]))
  }

  /** Leading trimmable characters removed: `r` is the longest suffix of `s` that does not start with one. */
  function TrimStart(s: string): (r: string)
    ensures |r| <= |s| && r == s[|s| - |r|..]
    ensures AllTrimmable(s[..|s| - |r|])
    ensures r == [] || !IsTrimmable(r[0])
  {
    if s != [] && IsTrimmable(s[0]) then
      var r := TrimStart(s[1..]);
      assert s[..|s| - |r|] == [s[0]] + s[1..][..|s[1..]| - |r|];
      r
    else s
  }

  /** Trailing trimmable characters removed: `r` is the longest prefix of `s` that does not end with one. */
  function TrimEnd(s: string): (r: string)
    ensures |r| <= |s| && r == s[..|r|]
    ensures AllTrimmable(s[|r|..])
    ensures r == [] || !IsTrimmable(r[|r| - 1])
  {
    if s != [] && IsTrimmable(s[|s| - 1]) then
      var r := TrimEnd(s[..|s| - 1]);
      assert s[|r|..] == s[..|s| - 1][|r|..] + [s[|s| - 1]];
      r
    else s
  }

  /**
   * `s.trim()`: `s` with the trimmable characters at both ends removed.
   * It is empty exactly when `s` consists of trimmable characters only.
   */
  function Trim(s: string): (r: string)
    ensures |r| <= |s|
    ensures Trimmed(r)
    ensures r == [] <==> AllTrimmable(s)
  {
    TrimEmptyIffAllTrimmable(s);
    TrimEndTrimmed(TrimStart(s));
    TrimEnd(TrimStart(s))
  }

  /** Removing trailing characters from a string that does not start with a trimmable one leaves it trimmed. */
  lemma TrimEndTrimmed(t: string)
    requires t == [] || !IsTrimmable(t[0])
    ensures Trimmed(TrimEnd(t))
  {
    var r := TrimEnd(t);
    if r != [] {
      assert r[0] == t[0];
    }
  }

  /** The two halves of `Trim` leave nothing exactly when every character was trimmable. */
  lemma TrimEmptyIffAllTrimmable(s: string)
    ensures TrimEnd(TrimStart(s)) == [] <==> AllTrimmable(s)
  {
    var t := TrimStart(s);
    if TrimEnd(t) == [] {
      assert t[0..] == t;
      LeadingTrimmed(s);
    } else {
      KeptNotAllTrimmable(s);
    }
  }

  /** What `TrimStart` keeps does not start with a trimmable character, so if it is all trimmable it is empty and `s` was all trimmable. */
  lemma LeadingTrimmed(s: string)
    requires AllTrimmable(TrimStart(s))
    ensures AllTrimmable(s)
  {
    assert TrimStart(s) == [];
    assert s[..|s|] == s;
  }

  /** If `TrimStart` keeps something, its first character is a character of `s` that is not trimmable. */
  lemma KeptNotAllTrimmable(s: string)
    requires TrimStart(s) != []
    ensures !AllTrimmable(s)
  {
    var t := TrimStart(s);
    assert t[0] == s[|s| - |t|];
  }

  /**
   * `Trim(s)` is the contiguous piece of `s` that starts where the leading trimmable characters
   * end, with only trimmable characters before and after it.
   * Together with `Trimmed(Trim(s))` this pins the piece down: it is the maximal such piece.
   */
  lemma TrimIsInfix(s: string)
    ensures var i := |s| - |TrimStart(s)|;
      && AllTrimmable(s[..i])
      && i + |Trim(s)| <= |s| && StartsWith(s[i..], Trim(s))
      && AllTrimmable(s[i + |Trim(s)|..])
  {
    TrimFollowsLeading(s);
    TrimFollowedByTrimmable(s);
  }

  /** The text after the leading trimmable characters starts with what `trim` keeps. */
  lemma TrimFollowsLeading(s: string)
    ensures var i := |s| - |TrimStart(s)|;
      i + |Trim(s)| <= |s| && StartsWith(s[i..], Trim(s))
  {
    TrimUnfolds(s);
  }

  /** Only trimmable characters follow what `trim` keeps. */
  lemma TrimFollowedByTrimmable(s: string)
    ensures var i := |s| - |TrimStart(s)|;
      i + |Trim(s)| <= |s| && AllTrimmable(s[i + |Trim(s)|..])
  {
    TrimUnfolds(s);
    TailOfSuffix(s, TrimStart(s), Trim(s));
  }

  /** `trim` is `trimStart` followed by `trimEnd`. */
  lemma TrimUnfolds(s: string)
    ensures Trim(s) == TrimEnd(TrimStart(s))
  {
  }

  /** For `t` a suffix of `s`, whatever follows a prefix `r` of `t` in `t` also follows it in `s`. */
  lemma TailOfSuffix(s: string, t: string, r: string)
    requires |t| <= |s| && t == s[|s| - |t|..]
    requires |r| <= |t| && AllTrimmable(t[|r|..])
    ensures |s| - |t| + |r| <= |s|
    ensures AllTrimmable(s[|s| - |t| + |r|..])
  {
    assert s[|s| - |t| + |r|..] == t[|r|..];
  }

  /** A string is its own trim exactly when neither end is trimmable. */
  lemma TrimFixpoint(s: string)
    ensures Trim(s) == s <==> Trimmed(s)
  {
    if Trimmed(s) {
      TrimOfTrimmed(s);
    }
  }

  /** What `trim` keeps is all trimmable exactly when the whole string was, that is, when it keeps nothing. */
  lemma TrimKeepsNonBlank(s: string)
    ensures AllTrimmable(Trim(s)) <==> AllTrimmable(s)
  {
    var r := Trim(s);
    if r != [] {
      assert !IsTrimmable(r[0]);
    }
  }

  /** Trimming a string whose ends are not trimmable leaves it as it is. */
  lemma {:induction false} TrimOfTrimmed(s: string)
    requires Trimmed(s)
    ensures Trim(s) == s
  {
    if s != [] {
      assert TrimStart(s) == s;
      assert TrimEnd(s) == s;
    }
  }

  /** `trim` is idempotent: `s.trim().trim() == s.trim()`. */
  lemma TrimIdempotent(s: string)
    ensures Trim(Trim(s)) == Trim(s)
  {
    TrimOfTrimmed(Trim(s));
  }

  /** `s.startsWith(p)`. */
  predicate StartsWith(s: string, p: string) {
    |p| <= |s| && s[..|p|] == p
  }

  /** `s.substring(0, n)` for `n >= 0`: the first `min(n, |s|)` characters. */
  function Prefix(s: string, n: nat): (r: string)
    ensures |r| == if |s| <= n then |s| else n
    ensures StartsWith(s, r)
  {
    if |s| <= n then s else s[..n]
  }
}
