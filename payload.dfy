/** Cutting the JSON payload out of the feed's text wrapper
    (OrderStatusFrom.jsx lines 25-27), with JavaScript's string semantics. */
module Payload {

  /** `s.indexOf(c)`: the first position of `c` in `s`, or -1. */
  function IndexOf(s: string, c: char): (r: int)
    ensures -1 <= r < |s|
    ensures r == -1 <==> c !in s
    ensures 0 <= r ==> s[r] == c && c !in s[..r]
  {
    if s == [] then -1
    else if s[0] == c then 0
    else
      var k := IndexOf(s[1..], c);
      if k == -1 then -1
      else
        assert s[..k + 1] == [s[0]] + s[1..][..k];
        k + 1
  }

  /** `s.lastIndexOf(c)`: the last position of `c` in `s`, or -1. */
  function LastIndexOf(s: string, c: char): (r: int)
    ensures -1 <= r < |s|
    ensures r == -1 <==> c !in s
    ensures 0 <= r ==> s[r] == c && c !in s[r + 1..]
  {
    if s == [] then -1
    else if s[|s| - 1] == c then |s| - 1
    else
      var k := LastIndexOf(s[..|s| - 1], c);
      assert k >= 0 ==> s[k + 1..] == s[..|s| - 1][k + 1..] + [s[|s| - 1]];
      assert s == s[..|s| - 1] + [s[|s| - 1]];
      k
  }

  /** An argument of `substring` clamped into `[0, len]`. */
  function Clamp(x: int, len: nat): (r: nat)
    ensures r <= len
    ensures 0 <= x <= len ==> r == x
    ensures x < 0 ==> r == 0
    ensures len < x ==> r == len
  {
    if x < 0 then 0 else if x > len then len else x
  }

  /** `s.substring(start, end)`: both arguments are clamped to the string, and
      swapped when the start lies after the end. */
  function Substring(s: string, start: int, end: int): (r: string)
    ensures |r| <= |s|
    ensures 0 <= start <= end <= |s| ==> r == s[start..end]
    ensures 0 <= end <= start <= |s| ==> r == s[end..start]
    ensures start <= 0 && |s| <= end ==> r == s
    ensures start <= 0 <= end <= |s| ==> r == s[..end]
    ensures 0 <= start <= |s| <= end ==> r == s[start..]
  {
    var a, b := Clamp(start, |s|), Clamp(end, |s|);
    if a <= b then s[a..b] else s[b..a]
  }

  /** The text handed to `JSON.parse`. */
  function ExtractPayload(text: string): (r: string)
    ensures |r| <= |text|
    ensures '{' !in text && '}' !in text ==> r == ""
    ensures var i, j := IndexOf(text, '{'), LastIndexOf(text, '}');
      0 <= i <= j ==> r == text[i..j + 1] && r[0] == '{' && r[|r| - 1] == '}'
  {
    var jsonStart := IndexOf(text, '{');
    var jsonEnd := LastIndexOf(text, '}') + 1;
    Substring(text, jsonStart, jsonEnd)
  }

  /** The first-occurrence property determines `IndexOf`. */
  lemma IndexOfIs(s: string, c: char, i: nat)
    requires i < |s| && s[i] == c && c !in s[..i]
    ensures IndexOf(s, c) == i
  {
    assert c in s;
  }

  /** The last-occurrence property determines `LastIndexOf`. */
  lemma LastIndexOfIs(s: string, c: char, j: nat)
    requires j < |s| && s[j] == c && c !in s[j + 1..]
    ensures LastIndexOf(s, c) == j
  {
    assert c in s;
  }

  /** With a `{` at its first position `i` and a `}` at its last position `j >= i`,
      the payload runs from that `{` up to and including that `}`. */
  lemma PayloadBetweenBraces(text: string, i: nat, j: nat)
    requires i <= j < |text|
    requires text[i] == '{' && '{' !in text[..i]
    requires text[j] == '}' && '}' !in text[j + 1..]
    ensures ExtractPayload(text) == text[i..j + 1]
    ensures ExtractPayload(text)[0] == '{'
    ensures ExtractPayload(text)[|ExtractPayload(text)| - 1] == '}'
  {
    IndexOfIs(text, '{', i);
    LastIndexOfIs(text, '}', j);
  }

  /** A text with no braces at all gives the empty payload. */
  lemma PayloadWithoutBraces(text: string)
    requires '{' !in text && '}' !in text
    ensures ExtractPayload(text) == ""
  {
  }

  /** A `{` without any `}`: the arguments of `substring` are swapped, so the
      payload is the text BEFORE the first `{`, not an error. */
  lemma PayloadWithoutClosingBrace(text: string, i: nat)
    requires i < |text| && text[i] == '{' && '{' !in text[..i]
    requires '}' !in text
    ensures ExtractPayload(text) == text[..i]
  {
    IndexOfIs(text, '{', i);
  }

  /** A `}` without any `{`: the payload is the text up to and including the last `}`. */
  lemma PayloadWithoutOpeningBrace(text: string, j: nat)
    requires j < |text| && text[j] == '}' && '}' !in text[j + 1..]
    requires '{' !in text
    ensures ExtractPayload(text) == text[..j + 1]
  {
    LastIndexOfIs(text, '}', j);
  }

  /** The last `}` lies before the first `{`: the payload is what lies strictly
      between them. */
  lemma PayloadBracesReversed(text: string, i: nat, j: nat)
    requires j < i < |text|
    requires text[i] == '{' && '{' !in text[..i]
    requires text[j] == '}' && '}' !in text[j + 1..]
    ensures ExtractPayload(text) == text[j + 1..i]
  {
    IndexOfIs(text, '{', i);
    LastIndexOfIs(text, '}', j);
  }
}
