/** Upper-casing of text, as Python's `str.upper` does it on the ASCII letters.
    Characters outside 'a'..'z' are left as they are. */
module Ascii {

  predicate IsLower(c: char) {
    'a' <= c <= 'z'
  }

  predicate IsUpper(c: char) {
    'A' <= c <= 'Z'
  }

  /** The reference case-folding: maps an upper-case letter to its lower-case form. */
  function LowerChar(c: char): char {
    if IsUpper(c) then (c as int + 32) as char else c
  }

  /** One character upper-cased: no lower-case letter is left, and the result folds
      to the same character as the input, so only the letter case changed. */
  function UpperChar(c: char): (u: char)
    ensures !IsLower(u)
    ensures LowerChar(u) == LowerChar(c)
    ensures !IsLower(c) ==> u == c
  {
    if IsLower(c) then (c as int - 32) as char else c
  }

  /** Python `s.upper()`. */
  function Upper(s: string): (r: string)
    ensures |r| == |s|
    ensures forall i :: 0 <= i < |s| ==> !IsLower(r[i]) && LowerChar(r[i]) == LowerChar(s[i])
  {
    if s == [] then [] else [UpperChar(s[0])] + Upper(s[1..])
  }
}
