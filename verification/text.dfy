/** The two string operations of Python the script relies on, over ASCII. */
module Text {

  predicate IsUpper(c: char) { 'A' <= c <= 'Z' }

  predicate IsLower(c: char) { 'a' <= c <= 'z' }

  /** A character with case, in the sense of str.title(). */
  predicate IsCased(c: char) { IsUpper(c) || IsLower(c) }

  function ToLowerChar(c: char): (r: char)
    ensures IsUpper(c) ==> IsLower(r) && r as int == c as int + 32
    ensures !IsUpper(c) ==> r == c
  {
    if IsUpper(c) then (c as int + 32) as char else c
  }

  function ToUpperChar(c: char): (r: char)
    ensures IsLower(c) ==> IsUpper(r) && r as int == c as int - 32
    ensures !IsLower(c) ==> r == c
  {
    if IsLower(c) then (c as int - 32) as char else c
  }

  /** str.lower(): every upper-case letter replaced by its lower-case form. */
  function Lower(s: string): (r: string)
    ensures |r| == |s|
    ensures forall i :: 0 <= i < |s| ==> !IsUpper(r[i])
    ensures forall i :: 0 <= i < |s| && IsUpper(s[i]) ==> r[i] as int == s[i] as int + 32
    ensures forall i :: 0 <= i < |s| && !IsUpper(s[i]) ==> r[i] == s[i]
  {
    seq(|s|, i requires 0 <= i < |s| => ToLowerChar(s[i]))
  }

  /** str.title(): a cased character is upper-cased when the character before it
      is not cased, and lower-cased when it is; other characters stay. */
  function Title(s: string): (r: string)
    ensures |r| == |s|
    ensures |s| > 0 && IsCased(s[0]) ==> IsUpper(r[0])
    ensures forall i :: 0 < i < |s| && IsCased(s[i]) && !IsCased(s[i - 1]) ==> IsUpper(r[i])
    ensures forall i :: 0 < i < |s| && IsCased(s[i]) && IsCased(s[i - 1]) ==> IsLower(r[i])
    ensures forall i :: 0 <= i < |s| && !IsCased(s[i]) ==> r[i] == s[i]
  {
    seq(|s|, i requires 0 <= i < |s| =>
      if i > 0 && IsCased(s[i - 1]) then ToLowerChar(s[i]) else ToUpperChar(s[i]))
  }

  /** Title-casing changes the case of letters only: each character of the
      result is the same letter as the one it replaces. */
  lemma TitleSameLetters(s: string, i: int)
    requires 0 <= i < |s|
    ensures ToLowerChar(Title(s)[i]) == ToLowerChar(s[i])
  {
  }

  /** Lower-casing twice is lower-casing once: the second .lower() that
      display_data applies to an already lowered answer changes nothing. */
  lemma LowerIdempotent(s: string)
    ensures Lower(Lower(s)) == Lower(s)
  {
  }
}
