/** The letter case of ASCII. */
module Ascii {
  function Lower(c: char): (r: char)
    ensures !('A' <= r <= 'Z') && (r == c || 'A' <= c <= 'Z')
  {
    if 'A' <= c <= 'Z' then c - 'A' + 'a' else c
  }
}
