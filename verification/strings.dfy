/**
 * Character and string helpers used by the visitor. Letters are classified
 * over ASCII: a character outside 'a'..'z' and 'A'..'Z' has no case.
 */
module Strings {

  predicate IsLowerChar(c: char) { 'a' <= c <= 'z' }

  predicate IsUpperChar(c: char) { 'A' <= c <= 'Z' }

  /** A character that has a case at all (QChar::isLower or QChar::isUpper). */
  predicate IsCased(c: char) { IsLowerChar(c) || IsUpperChar(c) }

  function ToLowerChar(c: char): char {
    if IsUpperChar(c) then (c as int + 32) as char else c
  }

  function ToUpperChar(c: char): char {
    if IsLowerChar(c) then (c as int - 32) as char else c
  }

  predicate StartsWith(s: string, prefix: string) {
    |prefix| <= |s| && s[..|prefix|] == prefix
  }

  predicate EndsWith(s: string, suffix: string) {
    |suffix| <= |s| && s[|s| - |suffix|..] == suffix
  }

  /** QString::isLower: the string equals its lower-case folding. */
  predicate IsLowerString(s: string) {
    forall i :: 0 <= i < |s| ==> ToLowerChar(s[i]) == s[i]
  }

  /** The segments of a qualified type name joined by '.'; the empty list gives "". */
  function JoinDotted(parts: seq<string>): string {
    if |parts| == 0 then ""
    else if |parts| == 1 then parts[0]
    else parts[0] + "." + JoinDotted(parts[1..])
  }
}
