/**
 * The string operations the components rely on: `trim()` (message guard), `toLowerCase()` and
 * `includes()` (contact search). Whitespace is the ECMAScript set of white-space and
 * line-terminator code points; lower-casing covers the ASCII letters only.
 */
module Text {

  /** ECMAScript WhiteSpace and LineTerminator code points, which `trim()` removes. */
  predicate IsSpace(c: char) {
    c == '\t' || c == '\n' || c == '\U{0B}' || c == '\U{0C}' || c == '\r' || c == ' '
    || c == '\U{A0}' || c == '\U{1680}' || ('\U{2000}' <= c <= '\U{200A}')
    || c == '\U{2028}' || c == '\U{2029}' || c == '\U{202F}' || c == '\U{205F}'
    || c == '\U{3000}' || c == '\U{FEFF}'
  }

  /** Every character of `s` is white space (true of the empty string). */
  predicate Blank(s: string) {
    forall i :: 0 <= i < |s| ==> IsSpace(s[i])
  }

  /** Drops leading white space: the result is a suffix of `s` that starts with a non-space. */
  function TrimStart(s: string): (r: string)
    ensures |r| <= |s| && r == s[|s| - |r|..]
    ensures Blank(s[..|s| - |r|])
    ensures r != [] ==> !IsSpace(r[0])
  {
    if s != [] && IsSpace(s[0]) then
      var r := TrimStart(s[1..]);
      assert s[..|s| - |r|] == [s[0]] + s[1..][..|s| - 1 - |r|];
      r
    else s
  }

  /** Drops trailing white space: the result is a prefix of `s` that ends with a non-space. */
  function TrimEnd(s: string): (r: string)
    ensures |r| <= |s| && r == s[..|r|]
    ensures Blank(s[|r|..])
    ensures r != [] ==> !IsSpace(r[|r| - 1])
  {
    if s != [] && IsSpace(s[|s| - 1]) then
      var r := TrimEnd(s[..|s| - 1]);
      assert s[|r|..] == s[..|s| - 1][|r|..] + [s[|s| - 1]];
      r
    else s
  }

  /** `String.prototype.trim`: a slice of `s` that neither starts nor ends with white space. */
  function Trim(s: string): (r: string)
    ensures |r| <= |s|
    ensures r != [] ==> !IsSpace(r[0]) && !IsSpace(r[|r| - 1])
  {
    var t := TrimStart(s);
    var r := TrimEnd(t);
    assert r != [] ==> r[0] == t[0];
    r
  }

  /** A string trims to "" exactly when it consists of white space only. */
  lemma TrimEmptyIffBlank(s: string)
    ensures Trim(s) == "" <==> Blank(s)
  {
    var t := TrimStart(s);
    if Trim(s) == "" {
      // the leading-trimmed rest is blank, and a non-empty rest would start with a non-space
      assert t == t[|TrimEnd(t)|..];
      assert t == [];
      assert s[..|s|] == s;
    } else if t != [] {
      assert t[0] == s[|s| - |t|];
    }
  }

  function LowerChar(c: char): char {
    if 'A' <= c <= 'Z' then (c as int + 32) as char else c
  }

  /** `toLowerCase`, restricted to ASCII letters: no upper-case letter remains, each one becomes its
      lower-case letter, and every other character is kept. */
  function Lower(s: string): (r: string)
    ensures |r| == |s|
    ensures forall i :: 0 <= i < |r| ==> !('A' <= r[i] <= 'Z')
    ensures forall i :: 0 <= i < |s| && 'A' <= s[i] <= 'Z' ==> r[i] as int == s[i] as int + 32
    ensures forall i :: 0 <= i < |s| && !('A' <= s[i] <= 'Z') ==> r[i] == s[i]
  {
    seq(|s|, i requires 0 <= i < |s| => LowerChar(s[i]))
  }

  /** Lower-casing twice is lower-casing once. */
  lemma LowerIdempotent(s: string)
    ensures Lower(Lower(s)) == Lower(s)
  {
  }

  /** `haystack.includes(needle)`: `needle` occurs in `haystack` at some offset. */
  predicate Contains(haystack: string, needle: string)
    ensures Contains(haystack, needle) ==> |needle| <= |haystack|
    decreases |haystack|
  {
    needle <= haystack || (haystack != [] && Contains(haystack[1..], needle))
  }

  /** `includes` holds exactly when the needle starts at some offset of the haystack. */
  lemma {:induction false} ContainsAt(haystack: string, needle: string)
    ensures Contains(haystack, needle) <==> exists k :: 0 <= k <= |haystack| && needle <= haystack[k..]
    decreases |haystack|
  {
    if needle <= haystack {
      assert haystack[0..] == haystack;
    } else if haystack != [] {
      ContainsAt(haystack[1..], needle);
      if Contains(haystack[1..], needle) {
        var k :| 0 <= k <= |haystack[1..]| && needle <= haystack[1..][k..];
        assert haystack[1..][k..] == haystack[k + 1..];
      }
      if exists k :: 0 <= k <= |haystack| && needle <= haystack[k..] {
        var k :| 0 <= k <= |haystack| && needle <= haystack[k..];
        assert k != 0;
        assert haystack[1..][k - 1..] == haystack[k..];
      }
    }
  }

  /** Every string includes the empty string. */
  lemma EmptyIsContained(haystack: string)
    ensures Contains(haystack, "")
  {
  }
}
