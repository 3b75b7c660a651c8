/** Trimming and letter case of identifiers, on ASCII text. */
module Text {
  predicate IsSpace(c: char) { c == ' ' || c == '\t' || c == '\n' || c == '\r' }

  function StripLeft(s: string): string {
    if s != [] && IsSpace(s[0]) then StripLeft(s[1..]) else s
  }

  function StripRight(s: string): string {
    if s != [] && IsSpace(s[|s| - 1]) then StripRight(s[..|s| - 1]) else s
  }

  function Strip(s: string): string { StripRight(StripLeft(s)) }

  function UpperChar(c: char): char { if 'a' <= c <= 'z' then (c as int - 32) as char else c }
  function LowerChar(c: char): char { if 'A' <= c <= 'Z' then (c as int + 32) as char else c }

  function Upper(s: string): (r: string)
    ensures |r| == |s| && forall i :: 0 <= i < |s| ==> r[i] == UpperChar(s[i])
  {
    if s == [] then [] else [UpperChar(s[0])] + Upper(s[1..])
  }

  /** casefold */
  function Fold(s: string): (r: string)
    ensures |r| == |s| && forall i :: 0 <= i < |s| ==> r[i] == LowerChar(s[i])
  {
    if s == [] then [] else [LowerChar(s[0])] + Fold(s[1..])
  }

  /** Two spellings agree in upper case exactly when they agree under case folding. */
  lemma CaseFormsAgree(s: string, t: string)
    ensures Upper(s) == Upper(t) <==> Fold(s) == Fold(t)
    ensures Upper(Upper(s)) == Upper(s) && Fold(Upper(s)) == Fold(s)
  {
    assert forall c, d :: UpperChar(c) == UpperChar(d) <==> LowerChar(c) == LowerChar(d);
    assert Upper(Upper(s)) == Upper(s) && Fold(Upper(s)) == Fold(s);
    if Upper(s) == Upper(t) {
      forall i | 0 <= i < |s| ensures Fold(s)[i] == Fold(t)[i] {
        assert Upper(s)[i] == Upper(t)[i];
      }
      assert Fold(s) == Fold(t);
    }
    if Fold(s) == Fold(t) {
      forall i | 0 <= i < |s| ensures Upper(s)[i] == Upper(t)[i] {
        assert Fold(s)[i] == Fold(t)[i];
      }
      assert Upper(s) == Upper(t);
    }
  }
}
