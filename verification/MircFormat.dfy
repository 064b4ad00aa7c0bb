/** The colour codes of the mIRC format, read from digits alone, against what the two
  * renderers make of them with `strtoul`. */
module MircFormat {
  import opened Wrappers
  import opened MircCodes

  // ------------------------------------------------------ the documented format

  // Up to two digits, from i on.
  function TwoDigitsEnd(t: string, i: nat): (e: nat)
    requires i <= |t|
    ensures i <= e <= |t| && e <= i + 2
  {
    if i == |t| || !IsDigit(t[i]) then i
    else if i + 1 == |t| || !IsDigit(t[i + 1]) then i + 1
    else i + 2
  }

  // A foreground of up to two digits, and, after a comma, a background of one or
  // two.  A comma without a digit behind it is text.
  function CodeEnd(t: string, i: nat): (e: nat)
    requires i < |t|
    ensures i < e <= |t|
  {
    var f := TwoDigitsEnd(t, i + 1);
    if f + 1 < |t| && t[f] == ',' && IsDigit(t[f + 1]) then TwoDigitsEnd(t, f + 1) else f
  }

  predicate IsColor(t: string, i: nat)
    requires i < |t|
  {
    CodeOf(t[i]) == Some(Color)
  }

  // The text with every colour code and every other code gone.
  function Documented(t: string, i: nat): string
    requires i <= |t|
    decreases |t| - i
  {
    if i == |t| then ""
    else if IsColor(t, i) then Documented(t, CodeEnd(t, i))
    else (if CodeOf(t[i]) == None then [t[i]] else "") + Documented(t, i + 1)
  }

  // ------------------------------------------------- where the scan goes on

  // Blanks, a sign, or both stand at i in front of a digit: `strtoul` takes them.
  predicate Swallows(t: string, i: nat)
    requires i <= |t|
  {
    var b := SpacesEnd(t, i);
    var d := if b < |t| && (t[b] == '-' || t[b] == '+') then b + 1 else b;
    i < d < |t| && IsDigit(t[d])
  }

  // Where the foreground behind the control character ends.
  function ForegroundEnd(t: string, i: nat): (f: nat)
    requires i < |t|
    ensures i < f <= |t|
  {
    if Swallows(t, i + 1) then i + 3 else TwoDigitsEnd(t, i + 1)
  }

  // A comma ends the foreground, in front of a digit or of text that is swallowed.
  predicate HasBackground(t: string, i: nat)
    requires i < |t|
  {
    var f := ForegroundEnd(t, i);
    f < |t| && t[f] == ',' && (Swallows(t, f + 1) || (f + 1 < |t| && IsDigit(t[f + 1])))
  }

  lemma {:induction false} ClampEnd(n: Number, start: nat)
    requires start <= n.end
    ensures Clamp(n, start).end == if n.end <= start + 2 then n.end else start + 2
    decreases n.end
  {
    if n.end > start + 2 {
      ClampEnd(Number(n.value / 10, n.end - 1), start);
    }
  }

  lemma {:induction false} DigitsAfter(t: string, d: nat)
    requires d <= |t|
    ensures var e := DigitsEnd(t, d);
      if TwoDigitsEnd(t, d) < d + 2 then e == TwoDigitsEnd(t, d) else e >= d + 2
  {
    if d < |t| && IsDigit(t[d]) {
      assert DigitsEnd(t, d) == DigitsEnd(t, d + 1);
    }
  }

  // Two characters are taken for a number with something in front of its digits.
  lemma {:induction false} NumberEnd(t: string, i: nat)
    requires i <= |t|
    ensures ColorNumber(t, i).end == if Swallows(t, i) then i + 2 else TwoDigitsEnd(t, i)
  {
    ClampEnd(Strtoul(t, i), i);
    var b := SpacesEnd(t, i);
    var d := if b < |t| && (t[b] == '-' || t[b] == '+') then b + 1 else b;
    DigitsAfter(t, d);
  }

  lemma {:induction false} BackgroundLength(t: string, f: nat)
    requires f <= |t|
    ensures ReadBackground(t, f).length
         == if f == |t| || t[f] != ',' then 0
            else if Swallows(t, f + 1) then 2 else TwoDigitsEnd(t, f + 1) - (f + 1)
  {
    if f < |t| && t[f] == ',' {
      NumberEnd(t, f + 1);
    }
  }

  // Where the scan goes on, told without `strtoul`.
  function Resumed(t: string, i: nat): (n: nat)
    requires i < |t|
  {
    var f := ForegroundEnd(t, i);
    if f >= |t| || t[f] != ',' then f
    else if Swallows(t, f + 1) then f + 2
    else f + (TwoDigitsEnd(t, f + 1) - (f + 1))
  }

  lemma {:induction false} ResumesAt(t: string, i: nat)
    requires i < |t|
    ensures Resumed(t, i) == ReadColor(t, i).next
    ensures HasBackground(t, i) <==> ReadColor(t, i).bg.Some?
  {
    hide Swallows, ColorNumber;
    NumberEnd(t, i + 1);
    BackgroundLength(t, ColorNumber(t, i + 1).end);
  }

  lemma {:induction false} SwallowedText(t: string, i: nat)
    requires i <= |t| && Swallows(t, i)
    ensures i + 2 <= |t| && !IsDigit(t[i]) && t[i] != ','
    ensures CodeOf(t[i]) == None && CodeOf(t[i + 1]) == None
  {
    if IsSpace(t[i]) {
      assert SpacesEnd(t, i) == SpacesEnd(t, i + 1);
    }
  }

  /** Behind a colour code the scan goes on where the code ends if and only if neither
    * the control character is followed by blanks or a sign in front of a digit, nor the
    * foreground by a comma and a digit, or a comma and such text. */
  lemma {:induction false} ResumesAtEndIff(t: string, i: nat)
    requires i < |t|
    ensures ReadColor(t, i).next == CodeEnd(t, i) <==> !HasBackground(t, i) && !Swallows(t, i + 1)
  {
    hide Swallows, CodeOf, IsSpace, ReadColor;
    ResumesAt(t, i);
    if Swallows(t, i + 1) {
      SwallowedText(t, i + 1);
    } else {
      var f := TwoDigitsEnd(t, i + 1);
      if f < |t| && Swallows(t, f + 1) {
        SwallowedText(t, f + 1);
      }
    }
  }

  // ---------------------------------------------------- what a code leaves

  // The scan goes on at the end of the code, or one digit before it, or behind
  // some text that starts with no digit and holds no code.
  ghost predicate Apart(t: string, e: nat, n: nat) {
    || n == e
    || (n + 1 == e <= |t| && IsDigit(t[n]))
    || (e < n <= |t| && !IsDigit(t[e]) && forall k | e <= k < n :: CodeOf(t[k]) == None)
  }

  lemma {:induction false} DigitsAreNoCodes(t: string, i: nat)
    requires i <= |t|
    ensures forall k | i <= k < TwoDigitsEnd(t, i) :: IsDigit(t[k]) && CodeOf(t[k]) == None
  {
  }

  lemma {:induction false} ResumesApart(t: string, i: nat)
    requires i < |t|
    ensures Apart(t, CodeEnd(t, i), ReadColor(t, i).next)
  {
    hide Swallows, HasBackground, ReadColor;
    ResumesAt(t, i);
    if Swallows(t, i + 1) {
      SwallowedText(t, i + 1);
      BackgroundApart(t, i + 3);
    } else {
      BackgroundApart(t, TwoDigitsEnd(t, i + 1));
    }
  }

  // The same for what stands behind the foreground.
  lemma {:induction false} BackgroundApart(t: string, f: nat)
    requires f <= |t|
    ensures f < |t| && t[f] == ',' && Swallows(t, f + 1) ==>
      f + 2 <= |t| && CodeOf(t[f]) == None && CodeOf(t[f + 1]) == None && !IsDigit(t[f + 1])
    ensures f < |t| && t[f] == ',' ==>
      forall k | f <= k < TwoDigitsEnd(t, f + 1) :: CodeOf(t[k]) == None && (k > f ==> IsDigit(t[k]))
  {
    if f < |t| && t[f] == ',' {
      DigitsAreNoCodes(t, f + 1);
      if Swallows(t, f + 1) {
        SwallowedText(t, f + 1);
      }
    }
  }

  // ------------------------------------------------------------ whole texts

  // The characters of text that the codes from i on take with them.
  function Swallowed(t: string, i: nat): nat
    requires i <= |t|
    decreases |t| - i
  {
    if i == |t| then 0
    else
      (if IsColor(t, i) && ReadColor(t, i).next > CodeEnd(t, i) then ReadColor(t, i).next - CodeEnd(t, i) else 0)
      + Swallowed(t, ScanStep(t, i).next)
  }

  // The characters of colour codes that are left over.
  function LeftOver(t: string, i: nat): nat
    requires i <= |t|
    decreases |t| - i
  {
    if i == |t| then 0
    else
      (if IsColor(t, i) && ReadColor(t, i).next < CodeEnd(t, i) then CodeEnd(t, i) - ReadColor(t, i).next else 0)
      + LeftOver(t, ScanStep(t, i).next)
  }

  // Every colour code of the scan ends where it is read to.
  predicate Clean(t: string, i: nat)
    requires i <= |t|
    decreases |t| - i
  {
    i == |t| ||
    ((IsColor(t, i) ==> !HasBackground(t, i) && !Swallows(t, i + 1)) && Clean(t, ScanStep(t, i).next))
  }

  lemma {:induction false} CleanIff(t: string, i: nat)
    requires i <= |t|
    ensures Clean(t, i) <==> Swallowed(t, i) == 0 && LeftOver(t, i) == 0
    decreases |t| - i
  {
    if i < |t| {
      hide ReadColor, HasBackground, Swallows, CodeEnd, ScanStep;
      ResumesAtEndIff(t, i);
      CleanIff(t, ScanStep(t, i).next);
    }
  }

  function NonDigits(s: string): nat {
    if s == "" then 0 else (if IsDigit(s[0]) then 0 else 1) + NonDigits(s[1..])
  }

  lemma {:induction false} NonDigitsBoth(a: string, b: string)
    ensures NonDigits(a + b) == NonDigits(a) + NonDigits(b)
  {
    if a == "" {
      assert a + b == b;
    } else {
      NonDigitsBoth(a[1..], b);
      assert (a + b)[1..] == a[1..] + b;
    }
  }

  // What is shown is the documented text without what was swallowed, and with the
  // digits that were left over.
  ghost predicate Accounted(shown: string, doc: string, swallowed: nat, left: nat) {
    && |shown| + swallowed == |doc| + left
    && NonDigits(shown) <= NonDigits(doc) && (swallowed > 0 ==> NonDigits(shown) < NonDigits(doc))
    && (swallowed == 0 && left == 0 ==> shown == doc)
  }

  lemma {:induction false} AccountBoth(c: string, shown: string, doc: string, swallowed: nat, left: nat)
    requires Accounted(shown, doc, swallowed, left)
    ensures Accounted(c + shown, c + doc, swallowed, left)
  {
    NonDigitsBoth(c, shown);
    NonDigitsBoth(c, doc);
  }

  lemma {:induction false} AccountSwallowed(text: string, shown: string, doc: string, swallowed: nat, left: nat)
    requires Accounted(shown, doc, swallowed, left) && text != "" && !IsDigit(text[0])
    ensures Accounted(shown, text + doc, |text| + swallowed, left)
  {
    NonDigitsBoth(text, doc);
    assert NonDigits(text) > 0;
  }

  lemma {:induction false} AccountLeft(d: char, shown: string, doc: string, swallowed: nat, left: nat)
    requires Accounted(shown, doc, swallowed, left) && IsDigit(d)
    ensures Accounted([d] + shown, doc, swallowed, 1 + left)
  {
    NonDigitsBoth([d], shown);
    assert [d][1..] == "";
  }

  // Text without codes is part of the documented text.
  lemma {:induction false} DocumentedText(t: string, e: nat, n: nat)
    requires e <= n <= |t| && forall k | e <= k < n :: CodeOf(t[k]) == None
    ensures Documented(t, e) == t[e..n] + Documented(t, n)
    decreases n - e
  {
    hide Documented;
    if e == n {
      assert t[e..n] == "";
    } else {
      DocumentedText(t, e + 1, n);
      DocumentedChar(t, e);
      assert t[e..n] == [t[e]] + t[e + 1..n];
    }
  }

  lemma {:induction false} DocumentedChar(t: string, i: nat)
    requires i < |t| && CodeOf(t[i]) == None
    ensures Documented(t, i) == [t[i]] + Documented(t, i + 1)
  {
    hide CodeEnd, CodeOf;
  }

  function ShownFrom(t: string, i: nat): string
    requires i <= |t|
  {
    Shown(Scan(t, i))
  }

  lemma {:induction false} ShownFromNext(t: string, i: nat)
    requires i < |t|
    ensures var s := ScanStep(t, i);
      ShownFrom(t, i) == (if s.act.Show? then [s.act.c] else "") + ShownFrom(t, s.next)
  {
    ShownConcat([ScanStep(t, i).act], Scan(t, ScanStep(t, i).next));
    assert [ScanStep(t, i).act][..0] == [];
  }

  ghost predicate AccountedFrom(t: string, i: nat)
    requires i <= |t|
  {
    Accounted(ShownFrom(t, i), Documented(t, i), Swallowed(t, i), LeftOver(t, i))
  }

  lemma {:induction false} AccountFrom(t: string, i: nat)
    requires i <= |t|
    ensures AccountedFrom(t, i)
    decreases |t| - i, 1
  {
    if i < |t| {
      if IsColor(t, i) {
        AccountColor(t, i);
      } else {
        AccountOther(t, i);
      }
    }
  }

  lemma {:induction false} OtherStep(t: string, i: nat)
    requires i < |t| && !IsColor(t, i)
    ensures var c := if CodeOf(t[i]) == None then [t[i]] else "";
      ShownFrom(t, i) == c + ShownFrom(t, i + 1) && Documented(t, i) == c + Documented(t, i + 1)
    ensures Swallowed(t, i) == Swallowed(t, i + 1) && LeftOver(t, i) == LeftOver(t, i + 1)
  {
    hide ReadColor, CodeEnd;
    ShownFromNext(t, i);
  }

  lemma {:induction false} AccountOther(t: string, i: nat)
    requires i < |t| && !IsColor(t, i)
    ensures AccountedFrom(t, i)
    decreases |t| - i, 0
  {
    hide ReadColor, CodeEnd, Documented, ShownFrom, Swallowed, LeftOver, Accounted, CodeOf, IsColor;
    AccountFrom(t, i + 1);
    OtherStep(t, i);
    AccountBoth(if CodeOf(t[i]) == None then [t[i]] else "", ShownFrom(t, i + 1), Documented(t, i + 1),
                Swallowed(t, i + 1), LeftOver(t, i + 1));
  }

  lemma {:induction false} AccountColor(t: string, i: nat)
    requires i < |t| && IsColor(t, i)
    ensures AccountedFrom(t, i)
    decreases |t| - i, 0
  {
    hide ReadColor, CodeEnd, Documented, ShownFrom, Swallowed, LeftOver, Accounted, CodeOf, IsColor;
    var n, e := ReadColor(t, i).next, CodeEnd(t, i);
    AccountFrom(t, n);
    AccountFrom(t, e);
    ResumesApart(t, i);
    ColorStep(t, i, n, e);
    if n > e {
      DocumentedText(t, e, n);
      AccountSwallowed(t[e..n], ShownFrom(t, n), Documented(t, n), Swallowed(t, n), LeftOver(t, n));
    } else if n < e {
      DigitStep(t, n);
      AccountLeft(t[n], ShownFrom(t, e), Documented(t, e), Swallowed(t, e), LeftOver(t, e));
    }
  }

  lemma {:induction false} ColorStep(t: string, i: nat, n: nat, e: nat)
    requires i < |t| && IsColor(t, i) && n == ReadColor(t, i).next && e == CodeEnd(t, i)
    ensures ShownFrom(t, i) == ShownFrom(t, n) && Documented(t, i) == Documented(t, e)
    ensures Swallowed(t, i) == (if n > e then n - e else 0) + Swallowed(t, n)
    ensures LeftOver(t, i) == (if n < e then e - n else 0) + LeftOver(t, n)
  {
    ShownFromNext(t, i);
    assert "" + ShownFrom(t, n) == ShownFrom(t, n);
  }

  lemma {:induction false} DigitStep(t: string, n: nat)
    requires n < |t| && IsDigit(t[n])
    ensures ShownFrom(t, n) == [t[n]] + ShownFrom(t, n + 1)
    ensures Swallowed(t, n) == Swallowed(t, n + 1) && LeftOver(t, n) == LeftOver(t, n + 1)
  {
    hide ReadColor, CodeEnd, ShownFrom;
    CharShown(t, n);
    ShownFromNext(t, n);
  }

  lemma {:induction false} CharShown(t: string, i: nat)
    requires i < |t| && CodeOf(t[i]) == None
    ensures ScanStep(t, i) == Step(Show(t[i]), i + 1) && !IsColor(t, i)
  {
  }

  /** What a text shows, against the format: the characters that colour codes leave
    * over are too many, those they swallow are missing, and it is the documented
    * text if and only if no code has a background or swallows anything. */
  lemma {:induction false} ColorCodesVanishIff(t: string)
    ensures |ShownFrom(t, 0)| + Swallowed(t, 0) == |Documented(t, 0)| + LeftOver(t, 0)
    ensures ShownFrom(t, 0) == Documented(t, 0) <==> Clean(t, 0)
  {
    AccountFrom(t, 0);
    CleanIff(t, 0);
  }

  // ------------------------------------------------------------ the two cases

  /** Colour 4 on 7, then an x, shows "7x": the comma is not counted. */
  lemma {:induction false} BackgroundDigitStays()
    ensures var t := [MIRC_COLOR] + "4,7x"; ShownFrom(t, 0) == "7x" && Documented(t, 0) == "x"
  {
    hide ReadColor, Documented, ShownFrom, Swallowed, LeftOver;
    var t := [MIRC_COLOR] + "4,7x";
    ResumesAt(t, 0);
    assert CodeEnd(t, 0) == 4 && Resumed(t, 0) == 3;
    ColorStep(t, 0, 3, 4);
    PlainTail(t, 3);
    PlainTail(t, 4);
  }

  /** A bare colour code in front of " 5x" shows "x": the blank and the 5 are taken
    * for a number. */
  lemma {:induction false} BlankAndDigitVanish()
    ensures var t := [MIRC_COLOR] + " 5x"; ShownFrom(t, 0) == "x" && Documented(t, 0) == " 5x"
  {
    hide ReadColor, Documented, ShownFrom, Swallowed, LeftOver;
    var t := [MIRC_COLOR] + " 5x";
    assert SpacesEnd(t, 1) == SpacesEnd(t, 2) == 2;
    ResumesAt(t, 0);
    assert CodeEnd(t, 0) == 1 && Resumed(t, 0) == 3;
    ColorStep(t, 0, 3, 1);
    PlainTail(t, 3);
    PlainTail(t, 1);
  }

  lemma {:induction false} PlainTail(t: string, i: nat)
    requires i <= |t| && forall k | i <= k < |t| :: CodeOf(t[k]) == None
    ensures ShownFrom(t, i) == t[i..] && Documented(t, i) == t[i..]
    decreases |t| - i
  {
    if i < |t| {
      hide Documented, ShownFrom;
      PlainTail(t, i + 1);
      DocumentedChar(t, i);
      CharShown(t, i);
      ShownFromNext(t, i);
    }
  }
}
