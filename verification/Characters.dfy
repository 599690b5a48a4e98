/** ASCII letters and digits. */
module Characters {

  predicate Lower(c: char) { 'a' <= c <= 'z' }
  predicate Upper(c: char) { 'A' <= c <= 'Z' }
  function LowerCase(c: char): char { if Upper(c) then (c as int + 32) as char else c }
  predicate Digit(c: char) { '0' <= c <= '9' }
  predicate Alphanumeric(c: char) { Lower(c) || Upper(c) || Digit(c) }
}
