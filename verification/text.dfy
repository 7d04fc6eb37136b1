/** String helpers shared by the components: the ECMAScript whitespace class
    (used by both `String.prototype.trim` and the regular-expression class `\s`),
    trimming, blankness and the ASCII upper-case mapping used for role labels. */
module Text {

  /** ECMAScript WhiteSpace and LineTerminator code points: TAB, LF, VT, FF, CR,
      SPACE, NBSP, OGHAM SPACE MARK, U+2000..U+200A, LINE SEPARATOR,
      PARAGRAPH SEPARATOR, NARROW NBSP, MEDIUM MATHEMATICAL SPACE,
      IDEOGRAPHIC SPACE and the byte-order mark. */
  predicate IsWhitespace(c: char) {
    || c == '\t' || c == '\n' || c == '\U{000B}' || c == '\U{000C}' || c == '\r'
    || c == ' ' || c == '\U{00A0}' || c == '\U{1680}'
    || ('\U{2000}' <= c <= '\U{200A}')
    || c == '\U{2028}' || c == '\U{2029}' || c == '\U{202F}' || c == '\U{205F}'
    || c == '\U{3000}' || c == '\U{FEFF}'
  }

  /** Every character of `s` is whitespace (vacuously true of ""). */
  predicate IsBlank(s: string) {
    forall i :: 0 <= i < |s| ==> IsWhitespace(s[i])
  }

  /** Drops leading whitespace. */
  function TrimStart(s: string): string {
    if |s| > 0 && IsWhitespace(s[0]) then TrimStart(s[1..]) else s
  }

  /** Drops trailing whitespace. */
  function TrimEnd(s: string): string {
    if |s| > 0 && IsWhitespace(s[|s| - 1]) then TrimEnd(s[..|s| - 1]) else s
  }

  /** `String.prototype.trim`: whitespace removed from both ends. */
  function Trim(s: string): string {
    TrimEnd(TrimStart(s))
  }

  /** `TrimStart` returns a suffix, what it drops is all whitespace, and what it
      keeps does not start with whitespace. */
  lemma {:induction false} TrimStartSpec(s: string)
    ensures var r := TrimStart(s);
      && |r| <= |s| && r == s[|s| - |r|..]
      && IsBlank(s[..|s| - |r|])
      && (|r| > 0 ==> !IsWhitespace(r[0]))
  {
    if |s| > 0 && IsWhitespace(s[0]) {
      var t := s[1..];
      TrimStartSpec(t);
      var r := TrimStart(t);
      assert TrimStart(s) == r;
      var d := s[..|s| - |r|];
      assert d == [s[0]] + t[..|t| - |r|];
      forall i | 0 <= i < |d| ensures IsWhitespace(d[i]) {
        if i > 0 {
          assert d[i] == t[..|t| - |r|][i - 1];
        }
      }
      assert s[|s| - |r|..] == t[|t| - |r|..];
    } else {
      assert s[..0] == [];
    }
  }

  /** `TrimEnd` returns a prefix, what it drops is all whitespace, and what it
      keeps does not end with whitespace. */
  lemma {:induction false} TrimEndSpec(s: string)
    ensures var r := TrimEnd(s);
      && |r| <= |s| && r == s[..|r|]
      && IsBlank(s[|r|..])
      && (|r| > 0 ==> !IsWhitespace(r[|r| - 1]))
  {
    if |s| > 0 && IsWhitespace(s[|s| - 1]) {
      var t := s[..|s| - 1];
      TrimEndSpec(t);
      var r := TrimEnd(t);
      assert TrimEnd(s) == r;
      var d := s[|r|..];
      assert d == t[|r|..] + [s[|s| - 1]];
      forall i | 0 <= i < |d| ensures IsWhitespace(d[i]) {
        if i < |d| - 1 {
          assert d[i] == t[|r|..][i];
        }
      }
      assert s[..|r|] == t[..|r|];
    } else {
      assert s[|s|..] == [];
    }
  }

  /** `!s.trim()` holds exactly when `s` consists of whitespace only. */
  lemma {:induction false} TrimEmptyIffBlank(s: string)
    ensures Trim(s) == "" <==> IsBlank(s)
  {
    var t := TrimStart(s);
    TrimStartSpec(s);
    TrimEndSpec(t);
    if Trim(s) == "" {
      // TrimEnd(t) == "" makes t blank, and t cannot start with whitespace.
      assert IsBlank(t[0..]);
      assert t == [];
      assert s[..|s| - |t|] == s;
    } else {
      var r := Trim(s);
      assert !IsWhitespace(r[0]);
      assert r[0] == t[0];
      assert t[0] == s[|s| - |t|];
    }
  }

  /** Trimming leaves a non-whitespace character in place, so a trimmed-non-empty
      string is itself non-empty. */
  lemma TrimNonEmptyImpliesNonEmpty(s: string)
    requires Trim(s) != ""
    ensures s != ""
  {
    TrimStartSpec(s);
    TrimEndSpec(TrimStart(s));
  }

  /** `toUpperCase` on a single character; only the ASCII letters are mapped
      (full Unicode case mapping is outside this model). */
  function ToUpper(c: char): (u: char)
    ensures 'a' <= c <= 'z' ==> 'A' <= u <= 'Z' && u as int == c as int - 32
    ensures !('a' <= c <= 'z') ==> u == c
  {
    if 'a' <= c <= 'z' then (c as int - 32) as char else c
  }

  /** `s.charAt(0).toUpperCase() + s.slice(1)`. */
  function Capitalize(s: string): (r: string)
    ensures |r| == |s|
    ensures |s| > 0 ==> r[0] == ToUpper(s[0]) && r[1..] == s[1..]
  {
    if |s| == 0 then "" else [ToUpper(s[0])] + s[1..]
  }
}
