/** Plate text as every comparison sees it: ASCII, upper case, letters and digits only
    (app/core/plate.py, the default ALNUM_UPPER normalisation). */
module PlateText {

  predicate IsLetter(c: char) { 'A' <= c <= 'Z' }

  predicate IsDigit(c: char) { '0' <= c <= '9' }

  predicate IsPlate(s: string)
  {
    forall i | 0 <= i < |s| :: IsLetter(s[i]) || IsDigit(s[i])
  }

  function Upper(c: char): char
  {
    if 'a' <= c <= 'z' then (c as int - 32) as char else c
  }

  /** Upper-case, then delete every character that is not a letter or a digit. */
  function Normalize(raw: string): (plate: string)
    ensures IsPlate(plate)
    ensures |plate| <= |raw|
  {
    if raw == [] then []
    else
      var c := Upper(raw[0]);
      if IsLetter(c) || IsDigit(c) then [c] + Normalize(raw[1..]) else Normalize(raw[1..])
  }

  /** Normalised text is left alone, so comparing stored plates never changes them. */
  lemma {:induction false} NormalizeFixesPlates(s: string)
    requires IsPlate(s)
    ensures Normalize(s) == s
  {
    if s != [] {
      assert Upper(s[0]) == s[0];
      NormalizeFixesPlates(s[1..]);
      assert s == [s[0]] + s[1..];
    }
  }

  lemma NormalizeIdempotent(raw: string)
    ensures Normalize(Normalize(raw)) == Normalize(raw)
  {
    NormalizeFixesPlates(Normalize(raw));
  }

  /** One character of any text: a capital letter or digit stays, a small letter becomes capital, all else is
      dropped. */
  lemma NormalizeOne(c: char)
    ensures Normalize([c]) ==
            if 'A' <= c <= 'Z' || '0' <= c <= '9' then [c]
            else if 'a' <= c <= 'z' then [(c as int - 'a' as int + 'A' as int) as char] else []
  {
    assert [c][1..] == [];
  }

  /** And texts are normalised piece by piece: so the result is all letters and digits of the text, in order. */
  lemma {:induction false} NormalizeConcat(a: string, b: string)
    ensures Normalize(a + b) == Normalize(a) + Normalize(b)
  {
    if a == [] {
      assert a + b == b;
    } else {
      assert (a + b)[1..] == a[1..] + b;
      NormalizeConcat(a[1..], b);
    }
  }
}
