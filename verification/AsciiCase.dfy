/** Comparing names without regard to ASCII case. */
module AsciiCase {
  function Lower(c: char): char {
    if 'A' <= c <= 'Z' then (c as int + 32) as char else c
  }

  predicate SameName(a: string, b: string) {
    |a| == |b| && forall i | 0 <= i < |a| :: Lower(a[i]) == Lower(b[i])
  }

  lemma SameNameThrough(a: string, b: string, c: string)
    requires SameName(a, b) && SameName(c, b)
    ensures SameName(a, c) && SameName(c, a)
  {
  }

  lemma SameNameBack(a: string, b: string)
    ensures SameName(a, b) ==> SameName(b, a)
    ensures SameName(a, a)
  {
  }

  /** Names are the same if and only if they differ at most in the case of letters from
    * A to Z. */
  lemma SameNameIff(a: string, b: string)
    ensures SameName(a, b) <==>
      |a| == |b| && forall i | 0 <= i < |a| ::
        a[i] == b[i] || ('A' <= a[i] <= 'Z' && b[i] as int == a[i] as int + 32)
                     || ('A' <= b[i] <= 'Z' && a[i] as int == b[i] as int + 32)
  {
    forall i | 0 <= i < |a| && |a| == |b| ensures Lower(a[i]) == Lower(b[i]) <==>
      a[i] == b[i] || ('A' <= a[i] <= 'Z' && b[i] as int == a[i] as int + 32)
                   || ('A' <= b[i] <= 'Z' && a[i] as int == b[i] as int + 32)
    {
    }
  }
}
