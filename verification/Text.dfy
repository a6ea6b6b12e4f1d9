/** ASCII case conversion and prefixes. */
module Text {

  function UpperChar(c: char): char {
    if 'a' <= c <= 'z' then ((c as int) - 32) as char else c
  }

  function LowerChar(c: char): char {
    if 'A' <= c <= 'Z' then ((c as int) + 32) as char else c
  }

  /** s.toUpperCase(). */
  function ToUpper(s: string): (r: string)
    ensures |r| == |s|
  {
    seq(|s|, i requires 0 <= i < |s| => UpperChar(s[i]))
  }

  /** s.toLowerCase(). */
  function ToLower(s: string): (r: string)
    ensures |r| == |s|
  {
    seq(|s|, i requires 0 <= i < |s| => LowerChar(s[i]))
  }

  /** s.startsWith(prefix). */
  predicate StartsWith(s: string, prefix: string) {
    prefix <= s
  }

  /** Upper case has no lower-case letters and lower case no upper-case ones; either is found from the other. */
  lemma CaseFolds(s: string)
    ensures forall i :: 0 <= i < |s| ==> !('a' <= ToUpper(s)[i] <= 'z') && !('A' <= ToLower(s)[i] <= 'Z')
    ensures ToUpper(ToLower(s)) == ToUpper(s) && ToLower(ToUpper(s)) == ToLower(s)
    ensures forall i :: 0 <= i < |s| && !('a' <= s[i] <= 'z') && !('A' <= s[i] <= 'Z') ==>
              ToUpper(s)[i] == s[i] == ToLower(s)[i]
  {
  }
}
