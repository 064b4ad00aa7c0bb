/** Character boundaries in UTF-8 text.  A char stands for one byte. */
module Utf8 {
  import opened Wrappers

  predicate Continues(c: char) {
    0x80 <= c as int < 0xC0
  }

  // The number of bytes a character takes that starts with this byte; 0 if none does.
  function Width(lead: char): (n: nat)
    ensures n <= 4
  {
    var b := lead as int;
    if b < 0x80 then 1
    else if b < 0xC0 then 0
    else if b < 0xE0 then 2
    else if b < 0xF0 then 3
    else if b < 0xF8 then 4
    else 0
  }

  // A leading byte and its continuation bytes, over and over.
  predicate Utf8Text(s: string)
    decreases |s|
  {
    s == "" || (StartsCharacter(s) && Utf8Text(s[Width(s[0])..]))
  }

  predicate StartsCharacter(s: string)
    requires s != ""
  {
    0 < Width(s[0]) <= |s| && forall i | 1 <= i < Width(s[0]) :: Continues(s[i])
  }

  // A character starts here, or the text ends.
  predicate Boundary(s: string, i: int) {
    0 <= i <= |s| && (i == |s| || !Continues(s[i]))
  }

  /** Cutting well-formed text at a boundary leaves two well-formed texts. */
  lemma {:induction false} CutsIntoText(s: string, k: nat)
    requires Utf8Text(s) && Boundary(s, k)
    ensures Utf8Text(s[..k]) && Utf8Text(s[k..])
    decreases |s|
  {
    if k == 0 {
      assert s[..0] == "" && s[0..] == s;
    } else {
      var n := Width(s[0]);
      SpansCharacter(s, k);
      CutsIntoText(s[n..], k - n);
      assert s[n..][k - n..] == s[k..];
      PutsBackCharacter(s[..k], s[n..][..k - n]);
    }
  }

  lemma SpansCharacter(s: string, k: nat)
    requires s != "" && StartsCharacter(s) && 0 < k && Boundary(s, k)
    ensures Width(s[0]) <= k && StartsCharacter(s[..k])
    ensures Boundary(s[Width(s[0])..], k - Width(s[0]))
    ensures s[..k][Width(s[0])..] == s[Width(s[0])..][..k - Width(s[0])]
  {
    assert k < |s| ==> !Continues(s[k]);
    assert s[..k][Width(s[0])..] == s[Width(s[0])..k] == s[Width(s[0])..][..k - Width(s[0])];
  }

  lemma PutsBackCharacter(s: string, rest: string)
    requires s != "" && StartsCharacter(s) && s[Width(s[0])..] == rest && Utf8Text(rest)
    ensures Utf8Text(s)
  {
  }

  /** The first character of well-formed text ends at a boundary, four bytes in
    * at the latest. */
  lemma FirstCharacter(s: string)
    requires Utf8Text(s) && s != ""
    ensures var n := Width(s[0]); 1 <= n <= 4 && Boundary(s, n)
    ensures Boundary(s, 0)
  {
    var n := Width(s[0]);
    if n < |s| {
      assert s[n..][0] == s[n];
    }
  }

  // The start of the character before p, as `g_utf8_find_prev_char` finds it.
  function PreviousChar(s: string, p: nat): (r: Option<nat>)
    requires p <= |s|
    ensures r.Some? ==> r.value < p
  {
    if p == 0 then None
    else if Continues(s[p - 1]) then PreviousChar(s, p - 1)
    else Some(p - 1)
  }

  /** It is a boundary, and nothing between it and p is one. */
  lemma {:induction false} PreviousCharIsLast(s: string, p: nat)
    requires p <= |s|
    ensures var r := PreviousChar(s, p);
      && (r.Some? ==> Boundary(s, r.value))
      && (forall j | 0 <= j < p && Boundary(s, j) :: r.Some? && j <= r.value)
  {
    if p > 0 && Continues(s[p - 1]) {
      PreviousCharIsLast(s, p - 1);
    }
  }
}
