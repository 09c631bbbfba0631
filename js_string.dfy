/**
 * The JavaScript string operations the application relies on, over
 * `seq<char>`: the white-space class shared by `\s` and `parseInt`,
 * ASCII lower-casing, `indexOf`/`includes` and `replace` with a string pattern.
 */
module JsString {
  import opened Options

  /**
   * ECMAScript WhiteSpace and LineTerminator code points: what `\s` matches
   * in a regular expression and what `parseInt` skips at the start.
   */
  predicate IsWhitespace(c: char) {
    c == '\t' || c == '\n' || c == '\U{000B}' || c == '\U{000C}' || c == '\r' || c == ' ' ||
    c == '\U{00A0}' || c == '\U{1680}' || ('\U{2000}' <= c <= '\U{200A}') ||
    c == '\U{2028}' || c == '\U{2029}' || c == '\U{202F}' || c == '\U{205F}' ||
    c == '\U{3000}' || c == '\U{FEFF}'
  }

  /** `\d`: an ASCII decimal digit. */
  predicate IsDigit(c: char) {
    '0' <= c <= '9'
  }

  /** An ASCII capital becomes the same letter in small; every other character is kept. */
  function LowerChar(c: char): (r: char)
    ensures 'A' <= c <= 'Z' ==> 'a' <= r <= 'z' && r as int - 'a' as int == c as int - 'A' as int
    ensures !('A' <= c <= 'Z') ==> r == c
  {
    if 'A' <= c <= 'Z' then (c as int + 32) as char else c
  }

  /** `toLowerCase`, restricted to the ASCII letters. */
  function Lower(s: string): (r: string)
    ensures |r| == |s|
    ensures forall i :: 0 <= i < |s| ==> r[i] == LowerChar(s[i])
  {
    seq(|s|, i requires 0 <= i < |s| => LowerChar(s[i]))
  }

  /** An ASCII small letter becomes the same letter in capital; every other character is kept. */
  function UpperChar(c: char): (r: char)
    ensures 'a' <= c <= 'z' ==> 'A' <= r <= 'Z' && r as int - 'A' as int == c as int - 'a' as int
    ensures !('a' <= c <= 'z') ==> r == c
  {
    if 'a' <= c <= 'z' then (c as int - 32) as char else c
  }

  /** `toUpperCase`, restricted to the ASCII letters. */
  function Upper(s: string): (r: string)
    ensures |r| == |s|
    ensures forall i :: 0 <= i < |s| ==> r[i] == UpperChar(s[i])
  {
    seq(|s|, i requires 0 <= i < |s| => UpperChar(s[i]))
  }

  /** Lower-casing forgets case: a string and its capitalised form lower-case alike. */
  lemma LowerIgnoresCase(s: string)
    ensures Lower(Upper(s)) == Lower(s)
  {
    var u := Upper(s);
    forall i | 0 <= i < |s| ensures LowerChar(u[i]) == LowerChar(s[i]) {
      var c := s[i];
      if 'a' <= c <= 'z' {
        assert 'A' <= u[i] <= 'Z';
      } else if 'A' <= c <= 'Z' {
        assert u[i] == c;
      }
    }
  }

  /** `pat` occurs in `s` starting at index `j`. */
  predicate OccursAt(s: string, pat: string, j: int) {
    0 <= j && j + |pat| <= |s| && s[j..j + |pat|] == pat
  }

  /** `s.indexOf(pat)`: the first index where `pat` occurs, if any. */
  function IndexOf(s: string, pat: string): (r: Option<nat>)
    ensures r.Some? ==> OccursAt(s, pat, r.value)
    ensures r.Some? ==> forall j :: 0 <= j < r.value ==> !OccursAt(s, pat, j)
    ensures r.None? <==> forall j :: !OccursAt(s, pat, j)
    decreases |s|
  {
    if pat <= s then
      assert s[0..|pat|] == pat && OccursAt(s, pat, 0);
      Some(0)
    else if s == [] then
      assert forall j :: !OccursAt(s, pat, j);
      None
    else
      var rest := IndexOf(s[1..], pat);
      assert forall j :: 1 <= j ==> (OccursAt(s, pat, j) <==> OccursAt(s[1..], pat, j - 1)) by {
        forall j | 1 <= j ensures OccursAt(s, pat, j) <==> OccursAt(s[1..], pat, j - 1) {
          if j + |pat| <= |s| {
            assert s[j..j + |pat|] == s[1..][j - 1..j - 1 + |pat|];
          }
        }
      }
      assert !OccursAt(s, pat, 0) by {
        if |pat| <= |s| { assert s[0..|pat|] != pat; }
      }
      match rest
      case None => None
      case Some(k) =>
        assert OccursAt(s, pat, k + 1);
        Some(k + 1)
  }

  /** `hay.includes(needle)`. */
  function Includes(hay: string, needle: string): (r: bool)
    ensures r <==> exists j :: OccursAt(hay, needle, j)
  {
    IndexOf(hay, needle).Some?
  }

  /** The empty string is included in every string (at index 0). */
  lemma IncludesEmpty(hay: string)
    ensures Includes(hay, "")
  {
    assert OccursAt(hay, "", 0);
  }

  /**
   * `s.replace(pat, rep)` with a string pattern: only the first occurrence is
   * replaced; without an occurrence the string is unchanged.
   */
  function ReplaceFirst(s: string, pat: string, rep: string): (r: string)
    ensures IndexOf(s, pat).None? ==> r == s
    ensures IndexOf(s, pat).Some? ==>
      var i := IndexOf(s, pat).value;
      r == s[..i] + rep + s[i + |pat|..]
  {
    match IndexOf(s, pat)
    case None => s
    case Some(i) => s[..i] + rep + s[i + |pat|..]
  }

  /**
   * Only the first occurrence is replaced: when `pat` does not occur in
   * the text before it (counting occurrences that run into `pat` itself),
   * everything after it, later occurrences included, is kept.
   */
  lemma ReplaceFirstKeepsRest(a: string, pat: string, b: string, rep: string)
    requires pat != []
    requires !Includes(a + pat[..|pat| - 1], pat)
    ensures ReplaceFirst(a + pat + b, pat, rep) == a + rep + b
  {
    var s := a + pat + b;
    var front := a + pat[..|pat| - 1];
    assert OccursAt(s, pat, |a|) by {
      assert s[|a|..|a| + |pat|] == pat;
    }
    assert s[..|front|] == front by {
      assert s == front + [pat[|pat| - 1]] + b;
    }
    forall j | 0 <= j < |a| ensures !OccursAt(s, pat, j) {
      assert j + |pat| <= |front|;
      assert s[j..j + |pat|] == s[..|front|][j..j + |pat|];
      assert OccursAt(s, pat, j) ==> OccursAt(front, pat, j);
    }
    assert IndexOf(s, pat) == Some(|a|);
    assert s[..|a|] == a;
    assert s[|a| + |pat|..] == b;
  }

  /** The string with its leading white space removed (the first step of `parseInt`). */
  function TrimStart(s: string): (r: string)
    ensures |r| <= |s| && r == s[|s| - |r|..]
    ensures r == [] || !IsWhitespace(r[0])
    ensures forall i :: 0 <= i < |s| - |r| ==> IsWhitespace(s[i])
  {
    if s != [] && IsWhitespace(s[0]) then TrimStart(s[1..]) else s
  }

  /** Text that does not start with white space is left alone by `TrimStart`. */
  lemma TrimStartNoop(s: string)
    requires s == [] || !IsWhitespace(s[0])
    ensures TrimStart(s) == s
  {
  }

  /** Signs and digits are not white space. */
  lemma SignOrDigitNotWhitespace(c: char)
    requires c == '-' || c == '+' || IsDigit(c)
    ensures !IsWhitespace(c)
  {
  }
}
