/** The few JavaScript String.prototype operations the build script relies on,
    with the index arithmetic of the language spelled out: negative arguments of
    `slice` count from the end, those of `substring` are clamped to zero, and the
    search functions answer -1 when there is no match. */
module JsStrings {

  /** True when `pat` occurs in `s` starting at index `i`. */
  predicate OccursAt(s: string, pat: string, i: int)
  {
    0 <= i && i + |pat| <= |s| && s[i..i + |pat|] == pat
  }

  predicate EndsWith(s: string, suffix: string)
  {
    |suffix| <= |s| && s[|s| - |suffix|..] == suffix
  }

  /** `s.lastIndexOf(c)` for a one-character argument: the index of the last `c`,
      or -1 when `s` has none. */
  function LastIndexOf(s: string, c: char): (r: int)
    ensures -1 <= r < |s|
    ensures r >= 0 ==> s[r] == c
    ensures forall k :: r < k < |s| ==> s[k] != c
  {
    if |s| == 0 then -1
    else if s[|s| - 1] == c then |s| - 1
    else LastIndexOf(s[..|s| - 1], c)
  }

  /** `s.indexOf(pat, from)` for `from <= |s|` (JavaScript clamps a larger
      `from` to `|s|`; the script only searches from 0): the first occurrence
      of `pat` at or after `from`, or -1. */
  function IndexOfFrom(s: string, pat: string, from: nat): (r: int)
    decreases |s| - from
    ensures r == -1 || (from <= r && OccursAt(s, pat, r))
    ensures forall k :: from <= k && (r == -1 || k < r) ==> !OccursAt(s, pat, k)
  {
    if from + |pat| > |s| then -1
    else if s[from..from + |pat|] == pat then from
    else IndexOfFrom(s, pat, from + 1)
  }

  /** `s.indexOf(pat)`. */
  function IndexOf(s: string, pat: string): (r: int)
  {
    IndexOfFrom(s, pat, 0)
  }

  /** How `slice` reads one of its arguments: a negative index counts back from
      the end, and the result is clamped to `0..len`. */
  function SliceIndex(len: nat, i: int): (r: nat)
    ensures r <= len
    ensures 0 <= i <= len ==> r == i
    ensures -(len as int) <= i < 0 ==> r == len as int + i
  {
    if i < 0 then (if len + i < 0 then 0 else len + i)
    else if i > len then len
    else i
  }

  /** `s.slice(start, end)`. */
  function Slice(s: string, start: int, end: int): (r: string)
    ensures 0 <= start <= end <= |s| ==> r == s[start..end]
    ensures -|s| <= end < 0 && start == 0 ==> r == s[..|s| + end]
    ensures -|s| <= start < 0 && end == |s| ==> r == s[|s| + start..]
  {
    var from := SliceIndex(|s|, start);
    var to := SliceIndex(|s|, end);
    if from < to then s[from..to] else ""
  }

  /** `s.slice(start)`. */
  function SliceFrom(s: string, start: int): (r: string)
  {
    Slice(s, start, |s|)
  }

  /** How `substring` reads one of its arguments: clamped to `0..len`. */
  function SubstringIndex(len: nat, i: int): (r: nat)
    ensures r <= len
    ensures 0 <= i <= len ==> r == i
    ensures i < 0 ==> r == 0
  {
    if i < 0 then 0 else if i > len then len else i
  }

  /** `s.substring(start, end)`: both arguments clamped, and swapped when
      `start` is the larger. */
  function Substring(s: string, start: int, end: int): (r: string)
    ensures 0 <= start <= end <= |s| ==> r == s[start..end]
    ensures start == 0 && end < 0 ==> r == ""
    ensures |r| <= |s|
  {
    var a := SubstringIndex(|s|, start);
    var b := SubstringIndex(|s|, end);
    if a <= b then s[a..b] else s[b..a]
  }

  /** `s.substring(start)`. */
  function SubstringFrom(s: string, start: int): (r: string)
  {
    Substring(s, start, |s|)
  }

  predicate IsAsciiUpper(c: char)
  {
    'A' <= c <= 'Z'
  }

  predicate IsAsciiLower(c: char)
  {
    'a' <= c <= 'z'
  }

  /** The character class `[a-zA-Z]`. */
  predicate IsAsciiLetter(c: char)
  {
    IsAsciiUpper(c) || IsAsciiLower(c)
  }

  /** `toUpperCase` on a one-character string holding an ASCII letter. */
  function ToUpperAscii(c: char): (r: char)
    requires IsAsciiLetter(c)
    ensures IsAsciiUpper(r)
    ensures IsAsciiUpper(c) ==> r == c
    ensures IsAsciiLower(c) ==> r as int == c as int - 32
  {
    if IsAsciiLower(c) then (c as int - 32) as char else c
  }

  /** `toLowerCase` on a one-character string holding an ASCII upper-case letter. */
  function ToLowerAscii(c: char): (r: char)
    requires IsAsciiUpper(c)
    ensures IsAsciiLower(r)
    ensures ToUpperAscii(r) == c
  {
    (c as int + 32) as char
  }
}
