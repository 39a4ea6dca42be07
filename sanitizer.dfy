/** `ResumeParser._clean_json_response`: turns the model's raw reply into the
    text handed to the JSON decoder. In order it trims whitespace, deletes every
    "```json" together with the whitespace after it, deletes a "```" that has
    only whitespace after it, trims again, and finally keeps the span from the
    first '{' to the last '}' when both occur. */
module Sanitizer {
  import opened Text

  const FENCE := "```"
  const JSON_FENCE := "```json"

  /** A "```json" starts at the front of `s`. */
  predicate StartsWithJsonFence(s: string) {
    |s| >= 7 && s[0] == '`' && s[1] == '`' && s[2] == '`' && s[3] == 'j' && s[4] == 's' && s[5] == 'o' && s[6] == 'n'
  }

  /** `re.sub(r'```json\s*', '', s)`: the scan runs left to right over the
      original text; each "```json" is deleted with the greedy run of
      whitespace after it, and the scan resumes after the deleted span. */
  function RemoveJsonFences(s: string): (r: string)
    ensures |r| <= |s|
    decreases |s|
  {
    if StartsWithJsonFence(s) then
      RemoveJsonFences(LStrip(s[7..]))
    else if s == [] then []
    else [s[0]] + RemoveJsonFences(s[1..])
  }

  /** A "```" followed by nothing but whitespace starts at the front of `s`. */
  predicate IsTrailingFence(s: string) {
    |s| >= 3 && s[0] == '`' && s[1] == '`' && s[2] == '`' && AllSpace(s[3..])
  }

  /** `re.sub(r'```\s*$', '', s)`: a match is a "```" followed by nothing but
      whitespace up to the end, and only the leftmost one can exist; the result
      is `s` with that match, if any, cut off. */
  function RemoveTrailingFence(s: string): (r: string)
    ensures |r| <= |s| && r == s[..|r|]
    ensures r == s || IsTrailingFence(s[|r|..])
  {
    if s == [] then s
    else if IsTrailingFence(s) then []
    else
      var tail := RemoveTrailingFence(s[1..]);
      var r := [s[0]] + tail;
      assert s == [s[0]] + s[1..];
      assert s[|r|..] == s[1..][|tail|..];
      r
  }

  /** The text after both fence deletions, trimmed before and after. */
  function Defenced(raw: string): string {
    Strip(RemoveTrailingFence(RemoveJsonFences(Strip(raw))))
  }

  /** `text[start_idx:end_idx+1]` once both braces were found, with Python's
      slice rule that an end before the start gives the empty string. */
  function BraceSpan(t: string): string {
    var first := Find(t, '{');
    var last := RFind(t, '}');
    if first != -1 && last != -1 then
      t[first..if last + 1 < first then first else last + 1]
    else t
  }

  /** The sanitizer as a whole. */
  function CleanJsonResponse(raw: string): string {
    BraceSpan(Defenced(raw))
  }

  /** The span kept runs from the first '{' to the last '}', and is empty when
      the last '}' comes before the first '{'. */
  lemma BraceSpanBetween(t: string, first: nat, last: nat)
    requires first < |t| && t[first] == '{' && '{' !in t[..first]
    requires last < |t| && t[last] == '}' && '}' !in t[last + 1..]
    ensures first < last ==> BraceSpan(t) == t[first..last + 1]
    ensures first < last ==> var r := BraceSpan(t); |r| >= 2 && r[0] == '{' && r[|r| - 1] == '}'
    ensures last < first ==> BraceSpan(t) == []
  {
    assert Find(t, '{') == first && RFind(t, '}') == last;
    if first < last {
      var r := t[first..last + 1];
      assert r[0] == t[first] && r[|r| - 1] == t[last];
    }
  }

  /** When the fence-stripped text holds both a '{' and a '}', the result is
      the inclusive slice from the first '{' to the last '}' when the first
      '{' comes first, and the empty string when the last '}' comes before
      the first '{'. */
  lemma CleanKeepsBraceSpan(raw: string, first: nat, last: nat)
    requires first < |Defenced(raw)| && Defenced(raw)[first] == '{' && '{' !in Defenced(raw)[..first]
    requires last < |Defenced(raw)| && Defenced(raw)[last] == '}' && '}' !in Defenced(raw)[last + 1..]
    ensures first < last ==> CleanJsonResponse(raw) == Defenced(raw)[first..last + 1]
    ensures last < first ==> CleanJsonResponse(raw) == []
  {
    BraceSpanBetween(Defenced(raw), first, last);
  }

  /** Without a '{' or without a '}', the fence-stripped text is passed on
      unchanged, for the decoder to reject. */
  lemma CleanWithoutBraces(raw: string)
    requires '{' !in Defenced(raw) || '}' !in Defenced(raw)
    ensures CleanJsonResponse(raw) == Defenced(raw)
  {
  }

  /** One step of the "```json" scan: a character that does not start a fence
      is kept. */
  lemma KeepsNonFence(x: string, y: string)
    requires x != [] && !StartsWithJsonFence(x + y)
    ensures RemoveJsonFences(x + y) == [x[0]] + RemoveJsonFences(x[1..] + y)
  {
    assert (x + y)[1..] == x[1..] + y;
  }

  /** "```json" followed by anything starts with the fence. */
  lemma FenceAtFront(w: string, y: string)
    ensures StartsWithJsonFence(JSON_FENCE + w + y) && (JSON_FENCE + w + y)[7..] == w + y
  {
    var s := JSON_FENCE + w + y;
    assert s[..7] == JSON_FENCE;
  }

  /** One step of the "```json" scan: a leading fence goes, and so does the
      whitespace after it. */
  lemma DropsLeadingFence(s: string, w: string, y: string)
    requires StartsWithJsonFence(s) && s[7..] == w + y
    requires AllSpace(w)
    requires y == [] || !IsSpace(y[0])
    ensures RemoveJsonFences(s) == RemoveJsonFences(y)
  {
    LStripSpacesBefore(w, y);
  }

  /** The deletion only removes characters: one absent before is absent after. */
  lemma {:induction false} JsonFencesAddNothing(s: string, c: char)
    requires c !in s
    ensures c !in RemoveJsonFences(s)
    decreases |s|
  {
    if StartsWithJsonFence(s) {
      var rest := LStrip(s[7..]);
      assert rest == s[|s| - |rest|..];
      JsonFencesAddNothing(rest, c);
    } else if s != [] {
      assert s == [s[0]] + s[1..];
      JsonFencesAddNothing(s[1..], c);
    }
  }

  /** Text without backticks passes through the "```json" deletion untouched. */
  lemma {:induction false} JsonFencesKeepTicklessPrefix(j: string, b: string)
    requires '`' !in j
    ensures RemoveJsonFences(j + b) == j + RemoveJsonFences(b)
  {
    if j == [] {
      assert j + b == b;
    } else {
      assert j[0] in j;
      KeepsNonFence(j, b);
      JsonFencesKeepTicklessPrefix(j[1..], b);
      assert j == [j[0]] + j[1..];
    }
  }

  /** A "```json" is deleted with the whitespace after it wherever it stands,
      not only at the start: text without backticks before it is kept and the
      scan resumes after the deleted span. */
  lemma JsonFenceRemovedAnywhere(x: string, w: string, y: string)
    requires '`' !in x && AllSpace(w)
    requires y == [] || !IsSpace(y[0])
    ensures RemoveJsonFences(x + (JSON_FENCE + w + y)) == x + RemoveJsonFences(y)
  {
    JsonFencesKeepTicklessPrefix(x, JSON_FENCE + w + y);
    FenceAtFront(w, y);
    DropsLeadingFence(JSON_FENCE + w + y, w, y);
  }

  /** A '{' never lies inside a "```json". */
  lemma BraceAfterFence(s: string, k: nat)
    requires StartsWithJsonFence(s) && k < |s| && s[k] == '{'
    ensures k >= 7
  {
  }

  /** A text that starts with a fence still does once something is appended. */
  lemma FenceSurvivesAppend(x: string, y: string)
    ensures StartsWithJsonFence(x) ==> StartsWithJsonFence(x + y)
  {
    if |x| >= 7 {
      assert forall k :: 0 <= k < 7 ==> (x + y)[k] == x[k];
    }
  }

  /** A fence at the front of `x + y`, where `y` starts with '{', lies
      wholly inside `x`. */
  lemma FenceInsidePrefix(x: string, y: string)
    requires y != [] && y[0] == '{' && StartsWithJsonFence(x + y)
    ensures |x| >= 7 && StartsWithJsonFence(x) && (x + y)[7..] == x[7..] + y
  {
    assert (x + y)[|x|] == '{';
    BraceAfterFence(x + y, |x|);
    assert forall k :: 0 <= k < 7 ==> (x + y)[k] == x[k];
  }

  /** The scan never carries a deletion across a '{': the text before it and
      the text from it on are cleaned separately. */
  lemma {:induction false} JsonFencesSplitAtBrace(x: string, y: string)
    requires y != [] && y[0] == '{'
    ensures RemoveJsonFences(x + y) == RemoveJsonFences(x) + RemoveJsonFences(y)
    decreases |x|
  {
    if x == [] {
      assert x + y == y;
    } else if StartsWithJsonFence(x + y) {
      FenceInsidePrefix(x, y);
      LStripConcat(x[7..], y);
      JsonFencesSplitAtBrace(LStrip(x[7..]), y);
    } else {
      FenceSurvivesAppend(x, y);
      KeepsNonFence(x, y);
      JsonFencesSplitAtBrace(x[1..], y);
    }
  }

  /** One step of the trailing-fence scan: a position where no match starts
      is kept. */
  lemma KeepsFirstCharacter(a: string, s: string)
    requires a != [] && !IsTrailingFence(a + s)
    ensures RemoveTrailingFence(a + s) == [a[0]] + RemoveTrailingFence(a[1..] + s)
  {
    assert (a + s)[1..] == a[1..] + s;
  }

  /** A "```" followed by whitespace alone is cut off, whatever precedes it. */
  lemma {:induction false} TrailingFenceRemoved(x: string, w: string)
    requires AllSpace(w)
    ensures RemoveTrailingFence(x + (FENCE + w)) == x
  {
    var s := x + (FENCE + w);
    if x == [] {
      assert s == FENCE + w && s[3..] == w;
      assert IsTrailingFence(s);
    } else {
      assert s[|x| + 2] == '`';
      assert s[3..][|x| - 1] == s[|x| + 2];
      KeepsFirstCharacter(x, FENCE + w);
      TrailingFenceRemoved(x[1..], w);
      assert x == [x[0]] + x[1..];
    }
  }

  /** A character is never the start of the trailing-fence match when it is
      not a backtick or a '}' still follows it. */
  lemma {:induction false} TrailingFenceKeepsPrefix(a: string, s: string)
    requires '`' !in a || '}' in s
    ensures RemoveTrailingFence(a + s) == a + RemoveTrailingFence(s)
  {
    if a == [] {
      assert a + s == s;
    } else {
      NoTrailingFenceBeforeBrace(a, s);
      KeepsFirstCharacter(a, s);
      assert '`' in a ==> '}' in s;
      TrailingFenceKeepsPrefix(a[1..], s);
      assert a == [a[0]] + a[1..];
    }
  }

  /** No match starts at the first character of `a` when it is not a
      backtick or a '}' still follows it. */
  lemma NoTrailingFenceBeforeBrace(a: string, s: string)
    requires a != [] && (a[0] != '`' || '}' in s)
    ensures !IsTrailingFence(a + s)
  {
    if a[0] == '`' {
      var t := a + s;
      var k :| 0 <= k < |s| && s[k] == '}';
      assert t[|a| + k] == '}';
      if |a| + k >= 3 {
        assert t[3..][|a| + k - 3] == '}';
      }
    }
  }

  /** Trimming stops at the non-whitespace ends of `j`. */
  lemma StripAround(a: string, j: string, b: string)
    requires j != [] && !IsSpace(j[0]) && !IsSpace(j[|j| - 1])
    ensures Strip(a + j + b) == LStrip(a) + j + RStrip(b)
  {
    var a1 := LStrip(a);
    calc {
      LStrip(a + j + b);
      { assert a + j + b == a + (j + b); }
      LStrip(a + (j + b));
      { LStripConcat(a, j + b); }
      a1 + (j + b);
      (a1 + j) + b;
    }
    RStripConcat(a1 + j, b);
  }

  /** The "```json" deletion works on each side of `j` and keeps `j`. */
  lemma JsonFencesAround(a: string, j: string, b: string)
    requires j != [] && j[0] == '{' && '`' !in j
    ensures RemoveJsonFences(a + j + b) == RemoveJsonFences(a) + j + RemoveJsonFences(b)
  {
    assert a + j + b == a + (j + b);
    JsonFencesSplitAtBrace(a, j + b);
    JsonFencesKeepTicklessPrefix(j, b);
  }

  /** The trailing-fence deletion can only touch what follows `j`. */
  lemma TrailingFenceAround(a: string, j: string, b: string)
    requires '}' in j && '`' !in j
    ensures RemoveTrailingFence(a + j + b) == a + j + RemoveTrailingFence(b)
  {
    assert a + j + b == a + (j + b);
    TrailingFenceKeepsPrefix(a, j + b);
    TrailingFenceKeepsPrefix(j, b);
  }

  /** With no '{' before `j` and no '}' after it, the span is `j`. */
  lemma BraceSpanAround(a: string, j: string, b: string)
    requires '{' !in a && '}' !in b
    requires j != [] && j[0] == '{' && j[|j| - 1] == '}'
    ensures BraceSpan(a + j + b) == j
  {
    var t := a + j + b;
    assert t == a + (j + b);
    FindPastPrefix(a, j + b, '{');
    RFindBeforeSuffix(a + j, b, '}');
    assert t[|a|..|a| + |j|] == j;
  }

  /** The reply is prose `a`, a JSON object `j` and prose `b`: `a` has no '{',
      `b` has no '}', and `j` runs from '{' to '}' without a backtick (the
      fences may sit in the prose). The sanitizer returns exactly `j`. */
  lemma CleanExtractsEmbeddedObject(a: string, j: string, b: string)
    requires '{' !in a && '}' !in b
    requires j != [] && j[0] == '{' && j[|j| - 1] == '}' && '`' !in j
    ensures CleanJsonResponse(a + j + b) == j
  {
    assert j[|j| - 1] in j;
    StripAround(a, j, b);
    var a1, b1 := LStrip(a), RStrip(b);
    assert '{' !in a1 by { assert a1 == a[|a| - |a1|..]; }
    assert '}' !in b1 by { assert b1 == b[..|b1|]; }
    JsonFencesAround(a1, j, b1);
    var a2, b2 := RemoveJsonFences(a1), RemoveJsonFences(b1);
    JsonFencesAddNothing(a1, '{');
    JsonFencesAddNothing(b1, '}');
    TrailingFenceAround(a2, j, b2);
    var b3 := RemoveTrailingFence(b2);
    assert '}' !in b3 by { assert b3 == b2[..|b3|]; }
    StripAround(a2, j, b3);
    var a4, b4 := LStrip(a2), RStrip(b3);
    assert '{' !in a4 by { assert a4 == a2[|a2| - |a4|..]; }
    assert '}' !in b4 by { assert b4 == b3[..|b4|]; }
    assert Defenced(a + j + b) == a4 + j + b4;
    BraceSpanAround(a4, j, b4);
  }

  /** A reply that is already a bare object, without backticks, comes back
      unchanged. */
  lemma CleanKeepsBareObject(j: string)
    requires j != [] && j[0] == '{' && j[|j| - 1] == '}' && '`' !in j
    ensures CleanJsonResponse(j) == j
  {
    CleanExtractsEmbeddedObject([], j, []);
    assert [] + j + [] == j;
  }

  lemma FencesHoldNoBraces()
    ensures '{' !in JSON_FENCE + "\n" && '}' !in "\n" + FENCE
  {
    assert JSON_FENCE + "\n" == ['`', '`', '`', 'j', 's', 'o', 'n', '\n'];
    assert "\n" + FENCE == ['\n', '`', '`', '`'];
  }

  /** A reply wrapped as "```json", newline, object, newline, "```" is unwrapped
      to the object. */
  lemma CleanUnwrapsFencedObject(j: string)
    requires j != [] && j[0] == '{' && j[|j| - 1] == '}' && '`' !in j
    ensures CleanJsonResponse(JSON_FENCE + "\n" + j + "\n" + FENCE) == j
  {
    var opening, closing := JSON_FENCE + "\n", "\n" + FENCE;
    FencesHoldNoBraces();
    CleanExtractsEmbeddedObject(opening, j, closing);
    assert JSON_FENCE + "\n" + j + "\n" + FENCE == opening + j + closing;
  }
}
