/** Letters of either case. Only ASCII letters have a case here. */
module Text {
  function LowerChar(c: char): char {
    if 'A' <= c <= 'Z' then c - 'A' + 'a' else c
  }

  function UpperChar(c: char): char {
    if 'a' <= c <= 'z' then c - 'a' + 'A' else c
  }

  function Lower(s: string): (r: string)
    ensures |r| == |s|
  {
    seq(|s|, i requires 0 <= i < |s| => LowerChar(s[i]))
  }

  function Upper(s: string): (r: string)
    ensures |r| == |s|
  {
    seq(|s|, i requires 0 <= i < |s| => UpperChar(s[i]))
  }

  // ---- what case means ----

  predicate Letter(c: char) {
    'A' <= c <= 'Z' || 'a' <= c <= 'z'
  }

  /** The same character, or one letter in its two cases, which are 32 codes apart. */
  predicate SameLetter(a: char, b: char) {
    a == b || (Letter(a) && Letter(b) && (a as int == b as int + 32 || b as int == a as int + 32))
  }

  predicate SameText(a: string, b: string) {
    |a| == |b| && forall i :: 0 <= i < |a| ==> SameLetter(a[i], b[i])
  }

  /** The two forms of a character are the same letter, one small and one capital. */
  lemma FormsAreSameLetter(c: char)
    ensures SameLetter(LowerChar(c), c) && !('A' <= LowerChar(c) <= 'Z')
    ensures SameLetter(UpperChar(c), c) && !('a' <= UpperChar(c) <= 'z')
  {
  }

  lemma LowerCharIgnoresCase(a: char, b: char)
    ensures LowerChar(a) == LowerChar(b) <==> SameLetter(a, b)
  {
  }

  /** Two texts have the same small letters exactly if they differ only in case. */
  lemma LowerIgnoresCase(a: string, b: string)
    ensures Lower(a) == Lower(b) <==> SameText(a, b)
  {
    hide LowerChar, SameLetter;
    forall i | 0 <= i < |a| && i < |b|
      ensures Lower(a)[i] == Lower(b)[i] <==> SameLetter(a[i], b[i])
    {
      LowerCharIgnoresCase(a[i], b[i]);
    }
    if SameText(a, b) {
      assert Lower(a) == Lower(b);
    }
  }

  /** A text is its own small or capital form exactly if no letter has the other case. */
  lemma OneCase(s: string)
    ensures s == Lower(s) <==> forall i :: 0 <= i < |s| ==> !('A' <= s[i] <= 'Z')
    ensures s == Upper(s) <==> forall i :: 0 <= i < |s| ==> !('a' <= s[i] <= 'z')
  {
    assert forall i :: 0 <= i < |s| ==> (LowerChar(s[i]) == s[i] <==> !('A' <= s[i] <= 'Z'));
    assert forall i :: 0 <= i < |s| ==> (UpperChar(s[i]) == s[i] <==> !('a' <= s[i] <= 'z'));
    assert forall i :: 0 <= i < |s| ==> Lower(s)[i] == LowerChar(s[i]) && Upper(s)[i] == UpperChar(s[i]);
    if forall i :: 0 <= i < |s| ==> !('A' <= s[i] <= 'Z') {
      assert s == Lower(s);
    }
    if forall i :: 0 <= i < |s| ==> !('a' <= s[i] <= 'z') {
      assert s == Upper(s);
    }
  }
}
