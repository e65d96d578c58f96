/** Character case of names: the library's names are ASCII and case-insensitive. */
module Names {
  function UpperChar(c: char): char {
    if 'a' <= c <= 'z' then c - 32 as char else c
  }

  function LowerChar(c: char): char {
    if 'A' <= c <= 'Z' then c + 32 as char else c
  }

  function Upper(s: string): (r: string)
    ensures |r| == |s| && forall i :: 0 <= i < |s| ==> r[i] == UpperChar(s[i])
  {
    seq(|s|, i requires 0 <= i < |s| => UpperChar(s[i]))
  }

  function Lower(s: string): (r: string)
    ensures |r| == |s| && forall i :: 0 <= i < |s| ==> r[i] == LowerChar(s[i])
  {
    seq(|s|, i requires 0 <= i < |s| => LowerChar(s[i]))
  }

  predicate IsLower(s: string) {
    forall i :: 0 <= i < |s| ==> LowerChar(s[i]) == s[i]
  }

  const NAME_CAPACITY := 242

  /** What the library accepts as an object name: 1 to 242 ASCII bytes without NUL. */
  predicate IsObjectName(s: string) {
    1 <= |s| <= NAME_CAPACITY && forall i :: 0 <= i < |s| ==> 0 < s[i] as int < 128
  }

  lemma UpperConcat(a: string, b: string)
    ensures Upper(a + b) == Upper(a) + Upper(b)
  {
  }

  lemma LowerUpper(s: string)
    requires IsLower(s)
    ensures Lower(Upper(s)) == s
  {
  }

  lemma UpperLower(s: string)
    requires Upper(s) == s
    ensures Upper(Lower(s)) == s
  {
    forall i | 0 <= i < |s| ensures UpperChar(LowerChar(s[i])) == s[i] {
      assert Upper(s)[i] == s[i];
    }
  }

  lemma UpperUpper(s: string)
    ensures Upper(Upper(s)) == Upper(s)
  {
  }
}
