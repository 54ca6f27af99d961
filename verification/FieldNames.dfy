/** How encoding/json finds the struct field an object's key is for: by the name, letter case aside. */
module FieldNames {

  const LONG_S: char := 0x17F as char
  const KELVIN: char := 0x212A as char

  /**
   The fold of a key, as far as it decides equality with a name of ASCII letters, digits and underscores:
   the only other code points that fold to an ASCII letter are the long s and the Kelvin sign.
   */
  function FoldChar(c: char): char {
    if 'a' <= c <= 'z' then (c as int - 32) as char else if c == LONG_S then 'S' else if c == KELVIN then 'K' else c
  }

  function FoldName(s: string): (r: string)
    ensures |r| == |s| && forall i :: 0 <= i < |s| ==> r[i] == FoldChar(s[i])
  { seq(|s|, i requires 0 <= i < |s| => FoldChar(s[i])) }

  predicate SameName(a: string, b: string) { FoldName(a) == FoldName(b) }

  /** The names the program declares. */
  predicate Lower(name: string) { forall i :: 0 <= i < |name| ==> 'a' <= name[i] <= 'z' || name[i] == '_' }

  /** What folds to a small letter's fold: the letter, its capital, and for "s" and "k" one code point more. */
  lemma FoldExactly(d: char, c: char)
    requires 'a' <= d <= 'z'
    ensures FoldChar(c) == FoldChar(d) <==>
            c == d || c as int == d as int - 32 || (d == 's' && c as int == 0x17F) || (d == 'k' && c as int == 0x212A)
  { }

  /** Declared names are told apart even by the fold, so a key is for one field at most. */
  lemma NamesFoldApart(a: string, b: string)
    requires Lower(a) && Lower(b)
    ensures SameName(a, b) <==> a == b
  {
    if SameName(a, b) {
      forall i | 0 <= i < |a| ensures |b| == |a| && a[i] == b[i] {
        assert FoldName(a)[i] == FoldName(b)[i];
      }
    }
  }
}
