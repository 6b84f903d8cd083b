/**
 ASCII case mapping, shared by the section keys (`toLowerCase()` on the
 section names) and by the `i` flag of the validation patterns.
 */
module Ascii {
  function AsciiUpper(c: char): (d: char)
    ensures 'a' <= c <= 'z' ==> 'A' <= d <= 'Z' && d as int == c as int - 32
    ensures !('a' <= c <= 'z') ==> d == c
  {
    if 'a' <= c <= 'z' then (c as int - 32) as char else c
  }

  function AsciiLower(c: char): (d: char)
    ensures 'A' <= c <= 'Z' ==> 'a' <= d <= 'z' && d as int == c as int + 32
    ensures !('A' <= c <= 'Z') ==> d == c
  {
    if 'A' <= c <= 'Z' then (c as int + 32) as char else c
  }
}
