/** The string operations the parser uses: `str.isspace`, `str.strip`,
    `str.find`, `str.rfind` and `str.lower`, over strings of Unicode scalars. */
module Text {

  /** Python's `str.isspace`; it is also what `\s` matches in a `str` pattern. */
  predicate IsSpace(c: char) {
    || ('\t' <= c <= '\r')
    || ('\U{1C}' <= c <= '\U{1F}')
    || c == ' '
    || c == '\U{85}'
    || c == '\U{A0}'
    || c == '\U{1680}'
    || ('\U{2000}' <= c <= '\U{200A}')
    || c == '\U{2028}'
    || c == '\U{2029}'
    || c == '\U{202F}'
    || c == '\U{205F}'
    || c == '\U{3000}'
  }

  predicate AllSpace(s: string) {
    forall k :: 0 <= k < |s| ==> IsSpace(s[k])
  }

  /** `s.lstrip()`: the suffix left after dropping leading whitespace. */
  function LStrip(s: string): (r: string)
    ensures |r| <= |s| && r == s[|s| - |r|..]
    ensures AllSpace(s[..|s| - |r|])
    ensures r != [] ==> !IsSpace(r[0])
  {
    if s != [] && IsSpace(s[0]) then
      var r := LStrip(s[1..]);
      assert s[..|s| - |r|] == [s[0]] + s[1..][..|s| - 1 - |r|];
      r
    else s
  }

  /** `s.rstrip()`: the prefix left after dropping trailing whitespace. */
  function RStrip(s: string): (r: string)
    ensures |r| <= |s| && r == s[..|r|]
    ensures AllSpace(s[|r|..])
    ensures r != [] ==> !IsSpace(r[|r| - 1])
  {
    if s != [] && IsSpace(s[|s| - 1]) then
      var r := RStrip(s[..|s| - 1]);
      assert s[|r|..] == s[..|s| - 1][|r|..] + [s[|s| - 1]];
      r
    else s
  }

  /** `s.strip()`: empty exactly when `s` is all whitespace, and otherwise
      starting and ending with a non-whitespace character of `s`. */
  function Strip(s: string): (r: string)
    ensures r == [] <==> AllSpace(s)
    ensures r != [] ==> !IsSpace(r[0]) && !IsSpace(r[|r| - 1])
  {
    var l := LStrip(s);
    var r := RStrip(l);
    if r == [] then
      assert l[|r|..] == l;
      assert s == s[..|s| - |l|] + l;
      r
    else
      assert r[0] == l[0] == s[|s| - |l|];
      r
  }

  /** `not s or not s.strip()`. */
  predicate IsBlank(s: string) {
    Strip(s) == []
  }

  /** `s.find(c)`: the first index of `c`, or -1 when `c` does not occur. */
  function Find(s: string, c: char): (i: int)
    ensures -1 <= i < |s|
    ensures i == -1 <==> c !in s
    ensures 0 <= i ==> s[i] == c && c !in s[..i]
  {
    if s == [] then -1
    else if s[0] == c then 0
    else
      var k := Find(s[1..], c);
      assert s == [s[0]] + s[1..];
      if k == -1 then -1
      else
        assert s[..k + 1] == [s[0]] + s[1..][..k];
        k + 1
  }

  /** `s.rfind(c)`: the last index of `c`, or -1 when `c` does not occur. */
  function RFind(s: string, c: char): (i: int)
    ensures -1 <= i < |s|
    ensures i == -1 <==> c !in s
    ensures 0 <= i ==> s[i] == c && c !in s[i + 1..]
  {
    if s == [] then -1
    else if s[|s| - 1] == c then |s| - 1
    else
      var k := RFind(s[..|s| - 1], c);
      assert s == s[..|s| - 1] + [s[|s| - 1]];
      if k != -1 then
        assert s[k + 1..] == s[..|s| - 1][k + 1..] + [s[|s| - 1]];
        k
      else
        k
  }

  /** The first occurrence of `c` in `a + s` is the first character of `s`
      when `a` does not contain `c`. */
  lemma FindPastPrefix(a: string, s: string, c: char)
    requires c !in a && s != [] && s[0] == c
    ensures Find(a + s, c) == |a|
  {
    assert (a + s)[|a|] == c;
  }

  /** The last occurrence of `c` in `s + b` is the last character of `s`
      when `b` does not contain `c`. */
  lemma RFindBeforeSuffix(s: string, b: string, c: char)
    requires c !in b && s != [] && s[|s| - 1] == c
    ensures RFind(s + b, c) == |s| - 1
  {
    assert (s + b)[|s| - 1] == c;
  }

  /** Leading whitespace before a non-whitespace character is all that
      `lstrip` removes. */
  lemma {:induction false} LStripConcat(a: string, s: string)
    requires s != [] && !IsSpace(s[0])
    ensures LStrip(a + s) == LStrip(a) + s
  {
    if a == [] {
      assert a + s == s;
    } else {
      assert (a + s)[1..] == a[1..] + s;
      if IsSpace(a[0]) {
        LStripConcat(a[1..], s);
      }
    }
  }

  /** Trailing whitespace after a non-whitespace character is all that
      `rstrip` removes. */
  lemma {:induction false} RStripConcat(s: string, b: string)
    requires s != [] && !IsSpace(s[|s| - 1])
    ensures RStrip(s + b) == s + RStrip(b)
    decreases |b|
  {
    if b == [] {
      assert s + b == s;
    } else {
      var front := b[..|b| - 1];
      assert (s + b)[..|s + b| - 1] == s + front;
      if IsSpace(b[|b| - 1]) {
        RStripConcat(s, front);
      }
    }
  }

  /** `lstrip` removes a whitespace run up to the first non-whitespace
      character. */
  lemma LStripSpacesBefore(w: string, y: string)
    requires AllSpace(w)
    requires y == [] || !IsSpace(y[0])
    ensures LStrip(w + y) == y
  {
    if y == [] {
      assert w + y == w;
    } else {
      LStripConcat(w, y);
    }
    assert LStrip(w) == [];
  }

  predicate IsUpper(c: char) {
    'A' <= c <= 'Z'
  }

  /** `str.lower` restricted to ASCII letters. */
  function LowerChar(c: char): char {
    if IsUpper(c) then c - 'A' + 'a' else c
  }

  /** `s.lower()`, lowering ASCII letters and keeping every other character. */
  function Lower(s: string): (r: string)
    ensures |r| == |s|
    ensures forall k :: 0 <= k < |s| ==> r[k] == LowerChar(s[k])
  {
    if s == [] then [] else [LowerChar(s[0])] + Lower(s[1..])
  }
}
