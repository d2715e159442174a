/**
 * Case-insensitive string comparison, as used by the quiz to compare a
 * detected target's name with a question's expected answer
 * (String.Equals with StringComparison.OrdinalIgnoreCase).
 * Characters are compared after ordinal upper-casing; only the ASCII letters
 * are folded here.
 */
module CaseFold {

  /** Upper-case form of one character: 'a'..'z' map to 'A'..'Z', all else is kept. */
  function Upper(c: char): char
  {
    if 'a' <= c <= 'z' then (c as int - 32) as char else c
  }

  /** Ordinal ignore-case equality: same length and equal upper-case forms, position by position. */
  predicate EqualsIgnoreCase(a: string, b: string): (r: bool)
    ensures a == b ==> r
    ensures r ==> |a| == |b|
  {
    |a| == |b| && forall i :: 0 <= i < |a| ==> Upper(a[i]) == Upper(b[i])
  }

  /** The whole string upper-cased: an independent reference for EqualsIgnoreCase. */
  function Fold(s: string): string
  {
    if s == [] then [] else [Upper(s[0])] + Fold(s[1..])
  }

  lemma {:induction false} FoldLength(s: string)
    ensures |Fold(s)| == |s|
  {
    if s != [] {
      FoldLength(s[1..]);
    }
  }

  lemma {:induction false} FoldAt(s: string, i: nat)
    requires i < |s|
    ensures |Fold(s)| == |s| && Fold(s)[i] == Upper(s[i])
  {
    FoldLength(s);
    if i > 0 {
      FoldAt(s[1..], i - 1);
    }
  }

  /** Comparing ignoring case is exactly comparing the folded strings. */
  lemma EqualsIgnoreCaseIffSameFold(a: string, b: string)
    ensures EqualsIgnoreCase(a, b) <==> Fold(a) == Fold(b)
  {
    FoldLength(a);
    FoldLength(b);
    if EqualsIgnoreCase(a, b) {
      forall i | 0 <= i < |a|
        ensures Fold(a)[i] == Fold(b)[i]
      {
        FoldAt(a, i);
        FoldAt(b, i);
      }
    }
    if Fold(a) == Fold(b) {
      forall i | 0 <= i < |a|
        ensures Upper(a[i]) == Upper(b[i])
      {
        FoldAt(a, i);
        FoldAt(b, i);
      }
    }
  }

  /** Folding twice is folding once. */
  lemma {:induction false} FoldIdempotent(s: string)
    ensures Fold(Fold(s)) == Fold(s)
  {
    if s != [] {
      FoldIdempotent(s[1..]);
      assert Fold(s)[1..] == Fold(s[1..]);
    }
  }

  /** Ignore-case equality is an equivalence relation. */
  lemma EqualsIgnoreCaseIsEquivalence(a: string, b: string, c: string)
    ensures EqualsIgnoreCase(a, a)
    ensures EqualsIgnoreCase(a, b) ==> EqualsIgnoreCase(b, a)
    ensures EqualsIgnoreCase(a, b) && EqualsIgnoreCase(b, c) ==> EqualsIgnoreCase(a, c)
  {
  }

  /** "cube", "CUBE" and "Cube" all match "Cube"; a longer or different name does not. */
  lemma CubeVariants()
    ensures EqualsIgnoreCase("cube", "Cube")
    ensures EqualsIgnoreCase("CUBE", "Cube")
    ensures EqualsIgnoreCase("Cube", "Cube")
    ensures !EqualsIgnoreCase("Cubes", "Cube")
    ensures !EqualsIgnoreCase("Box", "Ball")
  {
  }
}
