/** The option type and ASCII lower-casing. */
module Prelude {
  datatype Option<+T> = None | Some(value: T)

  /** ASCII lower case. */
  function ToLower(s: string): (r: string)
    ensures |r| == |s| && forall i :: 0 <= i < |s| ==> r[i] == Lower(s[i])
  {
    if s == "" then "" else [Lower(s[0])] + ToLower(s[1..])
  }

  function Lower(c: char): char {
    if 'A' <= c <= 'Z' then (c as int + 32) as char else c
  }

  /** One letter, in whatever case. */
  predicate SameLetter(a: char, b: char) {
    || a == b
    || ('A' <= a <= 'Z' && b as int == a as int + 32)
    || ('A' <= b <= 'Z' && a as int == b as int + 32)
  }

  predicate SameLetters(a: string, b: string) {
    |a| == |b| && forall i :: 0 <= i < |a| ==> SameLetter(a[i], b[i])
  }

  lemma LettersMeetInLowerCase(a: char, b: char)
    ensures Lower(a) == Lower(b) <==> SameLetter(a, b)
  {
  }

  lemma LowerCaseForgetsCase(a: string, b: string)
    ensures ToLower(a) == ToLower(b) <==> SameLetters(a, b)
  {
    if |a| == |b| {
      forall i | 0 <= i < |a|
        ensures ToLower(a)[i] == ToLower(b)[i] <==> SameLetter(a[i], b[i])
      {
        LettersMeetInLowerCase(a[i], b[i]);
      }
    } else {
      assert |ToLower(a)| != |ToLower(b)|;
    }
  }
}
