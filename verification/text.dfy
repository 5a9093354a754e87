/** The string operations the screens use: JavaScript's `String.prototype.trim`
    and `name.split(' ')[0]`. */
module Text {

  /** The characters `trim` strips: ECMAScript's WhiteSpace (tab, vertical tab, form feed,
      space, no-break space, byte order mark and the other Unicode space separators)
      and its LineTerminators (line feed, carriage return, line and paragraph separators). */
  predicate IsWhite(c: char) {
    c == '\t' || c == '\n' || c == '\U{B}' || c == '\U{C}' || c == '\r' || c == ' '
    || c == '\U{A0}' || c == '\U{1680}' || ('\U{2000}' <= c <= '\U{200A}')
    || c == '\U{2028}' || c == '\U{2029}' || c == '\U{202F}' || c == '\U{205F}'
    || c == '\U{3000}' || c == '\U{FEFF}'
  }

  predicate AllWhite(s: string) {
    forall i :: 0 <= i < |s| ==> IsWhite(s[i])
  }

  lemma AllWhiteAppend(a: string, b: string)
    ensures AllWhite(a + b) <==> AllWhite(a) && AllWhite(b)
  {
    if AllWhite(a + b) {
      assert forall i :: 0 <= i < |a| ==> a[i] == (a + b)[i];
      assert forall i :: 0 <= i < |b| ==> b[i] == (a + b)[|a| + i];
    }
  }

  /** `s` without its leading white space: a suffix of `s`, and the part cut off is all white. */
  function TrimStart(s: string): (r: string)
    ensures |r| <= |s| && r == s[|s| - |r|..]
    ensures AllWhite(s[..|s| - |r|])
    ensures |r| > 0 ==> !IsWhite(r[0])
    ensures |r| == 0 <==> AllWhite(s)
  {
    if |s| > 0 && IsWhite(s[0]) then
      var r := TrimStart(s[1..]);
      TrimStartStep(s, r);
      r
    else s
  }

  /** Dropping one more leading white character keeps the facts `TrimStart` promises. */
  lemma TrimStartStep(s: string, r: string)
    requires |s| > 0 && IsWhite(s[0])
    requires |r| <= |s| - 1 && r == s[1..][|s| - 1 - |r|..]
    requires AllWhite(s[1..][..|s| - 1 - |r|])
    requires |r| == 0 <==> AllWhite(s[1..])
    ensures r == s[|s| - |r|..]
    ensures AllWhite(s[..|s| - |r|])
    ensures |r| == 0 <==> AllWhite(s)
  {
    var t := s[1..];
    assert s == [s[0]] + t;
    AllWhiteAppend([s[0]], t);
    assert s[..|s| - |r|] == [s[0]] + t[..|t| - |r|];
    AllWhiteAppend([s[0]], t[..|t| - |r|]);
  }

  /** `s` without its trailing white space: a prefix of `s`, and the part cut off is all white. */
  function TrimEnd(s: string): (r: string)
    ensures |r| <= |s| && r == s[..|r|]
    ensures AllWhite(s[|r|..])
    ensures |r| > 0 ==> !IsWhite(r[|r| - 1])
    ensures |r| == 0 <==> AllWhite(s)
  {
    if |s| > 0 && IsWhite(s[|s| - 1]) then
      var r := TrimEnd(s[..|s| - 1]);
      TrimEndStep(s, r);
      r
    else s
  }

  /** Dropping one more trailing white character keeps the facts `TrimEnd` promises. */
  lemma TrimEndStep(s: string, r: string)
    requires |s| > 0 && IsWhite(s[|s| - 1])
    requires |r| <= |s| - 1 && r == s[..|s| - 1][..|r|]
    requires AllWhite(s[..|s| - 1][|r|..])
    requires |r| == 0 <==> AllWhite(s[..|s| - 1])
    ensures r == s[..|r|]
    ensures AllWhite(s[|r|..])
    ensures |r| == 0 <==> AllWhite(s)
  {
    var t := s[..|s| - 1];
    assert s == t + [s[|s| - 1]];
    AllWhiteAppend(t, [s[|s| - 1]]);
    assert s[|r|..] == t[|r|..] + [s[|s| - 1]];
    AllWhiteAppend(t[|r|..], [s[|s| - 1]]);
  }

  /** `r` occurs in `s` starting at index `k`. */
  predicate OccursAt(r: string, s: string, k: int) {
    0 <= k <= |s| - |r| && r == s[k..k + |r|]
  }

  /** `r` occurs in `s` at index `k` and everything of `s` around it is white space. */
  predicate WhiteAround(r: string, s: string, k: int) {
    OccursAt(r, s, k) && AllWhite(s[..k]) && AllWhite(s[k + |r|..])
  }

  /** `s.trim()`: the infix of `s` left after removing white space at both ends. */
  function Trim(s: string): (r: string)
    ensures exists k :: WhiteAround(r, s, k)
    ensures |r| > 0 ==> !IsWhite(r[0]) && !IsWhite(r[|r| - 1])
    ensures |r| == 0 <==> AllWhite(s)
  {
    var t := TrimStart(s);
    var r := TrimEnd(t);
    var k := |s| - |t|;
    assert s[k + |r|..] == t[|r|..];
    assert WhiteAround(r, s, k);
    assert |r| > 0 ==> r[0] == t[0];
    r
  }

  /** The guard of the chat and profile screens: the text trims to the empty string. */
  predicate IsBlank(s: string) {
    |Trim(s)| == 0
  }

  /** `name.split(' ')[0]`: the part of `name` before its first space character
      (only U+0020 separates; other white space stays in the word). */
  function FirstWord(name: string): (r: string)
    ensures r <= name
    ensures ' ' !in r
    ensures |r| < |name| ==> name[|r|] == ' '
  {
    if |name| == 0 || name[0] == ' ' then "" else [name[0]] + FirstWord(name[1..])
  }
}
