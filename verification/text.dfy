/** Character and string helpers shared by the browser controller (JavaScript)
    and the server (Python). The two languages disagree on what "white space"
    is, so both notions are kept apart. */
module Text {

  /** White space for JavaScript's `String.prototype.trim` and the regular
      expression class `\s`: ECMAScript WhiteSpace plus LineTerminator. */
  predicate JsIsSpace(c: char) {
    || c == '\t' || c == '\n' || c == '\U{000B}' || c == '\U{000C}' || c == '\r'
    || c == ' ' || c == '\U{00A0}' || c == '\U{1680}'
    || ('\U{2000}' <= c <= '\U{200A}')
    || c == '\U{2028}' || c == '\U{2029}' || c == '\U{202F}' || c == '\U{205F}'
    || c == '\U{3000}' || c == '\U{FEFF}'
  }

  /** White space for Python's `str.strip()` with no argument (`str.isspace`):
      it adds the information separators U+001C..U+001F and U+0085, and it
      does not include U+FEFF. */
  predicate PyIsSpace(c: char) {
    || c == '\t' || c == '\n' || c == '\U{000B}' || c == '\U{000C}' || c == '\r'
    || ('\U{001C}' <= c <= '\U{001F}')
    || c == ' ' || c == '\U{0085}' || c == '\U{00A0}' || c == '\U{1680}'
    || ('\U{2000}' <= c <= '\U{200A}')
    || c == '\U{2028}' || c == '\U{2029}' || c == '\U{202F}' || c == '\U{205F}'
    || c == '\U{3000}'
  }

  /** The index of the first character at or after `i` that is not white
      space, or `|s|` when there is none. */
  function SkipSpaces(s: string, isSpace: char -> bool, i: nat): (r: nat)
    requires i <= |s|
    ensures i <= r <= |s|
    ensures forall k :: i <= k < r ==> isSpace(s[k])
    ensures r < |s| ==> !isSpace(s[r])
    decreases |s| - i
  {
    if i == |s| || !isSpace(s[i]) then i else SkipSpaces(s, isSpace, i + 1)
  }

  /** Walking back from `j`, no further than `lo`: the end of `s[lo..j]` once
      its trailing white space is dropped. */
  function SkipSpacesBack(s: string, isSpace: char -> bool, lo: nat, j: nat): (r: nat)
    requires lo <= j <= |s|
    ensures lo <= r <= j
    ensures forall k :: r <= k < j ==> isSpace(s[k])
    ensures r > lo ==> !isSpace(s[r - 1])
    decreases j
  {
    if j == lo || !isSpace(s[j - 1]) then j else SkipSpacesBack(s, isSpace, lo, j - 1)
  }

  /** Number of leading white-space characters of `s`. */
  function LeadingSpaces(s: string, isSpace: char -> bool): (n: nat)
    ensures n <= |s|
  {
    SkipSpaces(s, isSpace, 0)
  }

  /** `r` is the piece of `s` starting at `i`, and everything of `s` outside
      that piece is white space. */
  ghost predicate TrimmedAt(r: string, s: string, i: int, isSpace: char -> bool) {
    && 0 <= i <= |s| - |r|
    && r == s[i..i + |r|]
    && (forall k :: 0 <= k < i ==> isSpace(s[k]))
    && (forall k :: i + |r| <= k < |s| ==> isSpace(s[k]))
  }

  /** Both ends trimmed. The result is empty exactly when every character of
      `s` is white space; otherwise it starts and ends with a non-space. */
  function Trim(s: string, isSpace: char -> bool): (r: string)
    ensures TrimmedAt(r, s, LeadingSpaces(s, isSpace), isSpace)
    ensures r == [] <==> forall k :: 0 <= k < |s| ==> isSpace(s[k])
    ensures |r| > 0 ==> !isSpace(r[0]) && !isSpace(r[|r| - 1])
  {
    var i := LeadingSpaces(s, isSpace);
    s[i..SkipSpacesBack(s, isSpace, i, |s|)]
  }

  /** JavaScript `s.trim()`. */
  function JsTrim(s: string): (r: string)
    ensures TrimmedAt(r, s, LeadingSpaces(s, JsIsSpace), JsIsSpace)
    ensures r == [] <==> forall k :: 0 <= k < |s| ==> JsIsSpace(s[k])
    ensures |r| > 0 ==> !JsIsSpace(r[0]) && !JsIsSpace(r[|r| - 1])
  {
    Trim(s, JsIsSpace)
  }

  /** Python `s.strip()`. */
  function PyStrip(s: string): (r: string)
    ensures TrimmedAt(r, s, LeadingSpaces(s, PyIsSpace), PyIsSpace)
    ensures r == [] <==> forall k :: 0 <= k < |s| ==> PyIsSpace(s[k])
    ensures |r| > 0 ==> !PyIsSpace(r[0]) && !PyIsSpace(r[|r| - 1])
  {
    Trim(s, PyIsSpace)
  }

  /** Python `str.lower()` restricted to ASCII letters. */
  function LowerChar(c: char): char {
    if 'A' <= c <= 'Z' then (c as int + 32) as char else c
  }

  function Lower(s: string): string {
    seq(|s|, i requires 0 <= i < |s| => LowerChar(s[i]))
  }

  /** Python's `needle in haystack` for strings: a substring test. */
  predicate Contains(haystack: string, needle: string) {
    exists i {:trigger haystack[i..]} :: 0 <= i <= |haystack| - |needle| && haystack[i..][..|needle|] == needle
  }
}
