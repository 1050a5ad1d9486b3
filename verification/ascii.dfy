/** ASCII letter case, as Go's strings.ToUpper / ToLower / EqualFold treat the ASCII range. */
module Ascii {

  predicate IsLower(c: char) { 'a' <= c <= 'z' }

  predicate IsUpper(c: char) { 'A' <= c <= 'Z' }

  /** The upper-case letter for an ASCII lower-case letter; every other character is kept. */
  function ToUpper(c: char): char {
    if IsLower(c) then (c as int - 32) as char else c
  }

  /** The lower-case letter for an ASCII upper-case letter; every other character is kept. */
  function ToLower(c: char): char {
    if IsUpper(c) then (c as int + 32) as char else c
  }

  function UpperString(s: string): string {
    seq(|s|, i requires 0 <= i < |s| => ToUpper(s[i]))
  }

  function LowerString(s: string): string {
    seq(|s|, i requires 0 <= i < |s| => ToLower(s[i]))
  }

  /** Case-insensitive equality over ASCII letters. */
  predicate EqualFold(a: string, b: string) {
    LowerString(a) == LowerString(b)
  }
}
