/** Colours and styles told from the characters of a text: which number of a colour
  * code is which colour, and what every character shown looks like. */
module MircText {
  import opened Wrappers
  import opened Markup
  import opened MircCodes
  import opened MircColorize
  import opened MircMeaning
  import opened MircFormat

  // ----------------------------------------------- the numbers of a colour code

  // The digits behind the control character.
  function FirstRun(t: string, i: nat): (ds: string)
    requires i < |t|
    ensures AllDigits(ds)
  {
    t[i + 1..DigitsEnd(t, i + 1)]
  }

  // The digits behind the comma that follows up to two digits.
  function SecondRun(t: string, i: nat): (ds: string)
    requires i < |t|
    ensures AllDigits(ds)
  {
    var f := TwoDigitsEnd(t, i + 1);
    if f < |t| && t[f] == ',' then t[f + 1..DigitsEnd(t, f + 1)] else ""
  }

  // Nothing is swallowed for a number, and both runs fit 32 bits.
  predicate Tidy(t: string, i: nat)
    requires i < |t|
  {
    var f := TwoDigitsEnd(t, i + 1);
    && !Swallows(t, i + 1) && (f < |t| && t[f] == ',' ==> !Swallows(t, f + 1))
    && Decimal(FirstRun(t, i)) < UINT_WIDTH && Decimal(SecondRun(t, i)) < UINT_WIDTH
  }

  // What a run of digits says, if there is one.
  function Says(ds: string): Option<nat>
    requires AllDigits(ds)
  {
    if ds == "" then None else Some(FirstTwo(ds))
  }

  lemma {:induction false} RunRead(t: string, i: nat)
    requires i <= |t| && !Swallows(t, i) && Decimal(t[i..DigitsEnd(t, i)]) < UINT_WIDTH
    ensures var n, ds := ColorNumber(t, i), t[i..DigitsEnd(t, i)];
      && n.end == TwoDigitsEnd(t, i)
      && (n.end > i <==> ds != "") && (ds != "" ==> n.value == FirstTwo(ds))
  {
    NumberEnd(t, i);
    if i < |t| && IsDigit(t[i]) {
      DecodesTwoDigits(t, i);
      assert DigitsEnd(t, i) > i;
    }
  }

  /** The first number of a colour code is the foreground and the second, behind a
    * comma, the background; each is missing just when it has no digits. */
  lemma {:induction false} ColorsInOrder(t: string, i: nat)
    requires i < |t| && Tidy(t, i)
    ensures ReadColor(t, i).fg == Says(FirstRun(t, i)) && ReadColor(t, i).bg == Says(SecondRun(t, i))
  {
    hide Swallows, ColorNumber, FirstTwo, Decimal;
    RunRead(t, i + 1);
    var f := TwoDigitsEnd(t, i + 1);
    if f < |t| && t[f] == ',' {
      RunRead(t, f + 1);
    }
  }

  // ------------------------------------------------- what a character looks like

  // How often a character stands in front of k since the last plain code.
  function Since(t: string, c: char, k: nat): nat
    requires k <= |t|
  {
    if k == 0 || t[k - 1] == 0x0F as char then 0 else Since(t, c, k - 1) + if t[k - 1] == c then 1 else 0
  }

  // The foreground in front of k: that of the last colour code that has one, unless a
  // plain code or a bare colour code has come since.
  function ForeAt(t: string, k: nat): nat
    requires k <= |t|
  {
    if k == 0 || t[k - 1] == 0x0F as char then 16
    else if t[k - 1] != 0x03 as char then ForeAt(t, k - 1)
    else
      var r := ReadColor(t, k - 1);
      if r.fg.Some? then Least16(r.fg.value) else if r.bg.None? then 16 else ForeAt(t, k - 1)
  }

  // The background likewise.
  function BackAt(t: string, k: nat): nat
    requires k <= |t|
  {
    if k == 0 || t[k - 1] == 0x0F as char then 16
    else if t[k - 1] != 0x03 as char then BackAt(t, k - 1)
    else
      var r := ReadColor(t, k - 1);
      if r.bg.Some? then Least16(r.bg.value) else if r.fg.None? then 16 else BackAt(t, k - 1)
  }

  function Least16(n: nat): nat {
    if n < 16 then n else 16
  }

  /** The style of a character at k: bold, italic and underlined as often as their codes
    * were switched, in the foreground if it is known, or else on the background. */
  function LooksAt(t: string, k: nat): Style
    requires k <= |t|
  {
    var fg, bg := ForeAt(t, k), BackAt(t, k);
    Style(Since(t, 0x02 as char, k) % 2 == 1, Since(t, 0x1D as char, k) % 2 == 1, Since(t, 0x1F as char, k) % 2 == 1,
          if fg < 16 then Some(ColorName(fg)) else None,
          if fg >= 16 && bg < 16 then Some(ColorName(bg)) else None)
  }

  predicate IsCode(c: char) {
    c as int in {0x02, 0x03, 0x06, 0x0F, 0x16, 0x1D, 0x1F}
  }

  // The characters that are shown from i on, as they look.
  function Seen(t: string, i: nat): seq<Styled>
    requires i <= |t|
    decreases |t| - i
  {
    if i == |t| then []
    else if t[i] == 0x03 as char then Seen(t, ReadColor(t, i).next)
    else (if IsCode(t[i]) then [] else [Styled(t[i], LooksAt(t, i))]) + Seen(t, i + 1)
  }

  // ------------------------------------------------------ and why it does so

  // The actions up to i, and the text up to i, agree.
  ghost predicate Tells(t: string, i: nat, acts: seq<Action>)
    requires i <= |t|
  {
    && Toggles(acts, Bold) == Since(t, 0x02 as char, i) && Toggles(acts, Italics) == Since(t, 0x1D as char, i)
    && Toggles(acts, Underline) == Since(t, 0x1F as char, i)
    && Foreground(acts) == ForeAt(t, i) && Background(acts) == BackAt(t, i)
  }

  lemma {:induction false} NumberHasNoCode(t: string, i: nat)
    requires i <= |t|
    ensures forall k | i <= k < ColorNumber(t, i).end :: !IsCode(t[k])
  {
    var b := SpacesEnd(t, i);
    SpacesAreNoCodes(t, i);
    var d := if b < |t| && (t[b] == '-' || t[b] == '+') then b + 1 else b;
    DigitsHaveNoCode(t, d);
  }

  lemma {:induction false} SpacesAreNoCodes(t: string, i: nat)
    requires i <= |t|
    ensures forall k | i <= k < SpacesEnd(t, i) :: !IsCode(t[k])
    decreases |t| - i
  {
    if i < |t| && IsSpace(t[i]) {
      SpacesAreNoCodes(t, i + 1);
    }
  }

  lemma {:induction false} DigitsHaveNoCode(t: string, i: nat)
    requires i <= |t|
    ensures forall k | i <= k < DigitsEnd(t, i) :: !IsCode(t[k])
    decreases |t| - i
  {
    if i < |t| && IsDigit(t[i]) {
      DigitsHaveNoCode(t, i + 1);
    }
  }

  lemma {:induction false} ColorHasNoCode(t: string, i: nat)
    requires i < |t|
    ensures forall k | i < k < ReadColor(t, i).next :: !IsCode(t[k])
  {
    hide ColorNumber;
    var f := ColorNumber(t, i + 1).end;
    NumberHasNoCode(t, i + 1);
    if f < |t| && t[f] == ',' {
      NumberHasNoCode(t, f + 1);
    }
  }

  // Characters that are no codes change nothing.
  lemma {:induction false} NothingSince(t: string, i: nat, j: nat)
    requires i <= j <= |t| && forall k | i <= k < j :: !IsCode(t[k])
    ensures Since(t, 0x02 as char, j) == Since(t, 0x02 as char, i)
    ensures Since(t, 0x1D as char, j) == Since(t, 0x1D as char, i)
    ensures Since(t, 0x1F as char, j) == Since(t, 0x1F as char, i)
    ensures ForeAt(t, j) == ForeAt(t, i) && BackAt(t, j) == BackAt(t, i)
    decreases j - i
  {
    if i < j {
      NothingSince(t, i, j - 1);
    }
  }

  lemma {:induction false} CodesAre(c: char)
    ensures IsCode(c) <==> CodeOf(c).Some?
    ensures CodeOf(c) == Some(Bold) <==> c == 0x02 as char
    ensures CodeOf(c) == Some(Italics) <==> c == 0x1D as char
    ensures CodeOf(c) == Some(Underline) <==> c == 0x1F as char
    ensures CodeOf(c) == Some(Plain) <==> c == 0x0F as char
    ensures CodeOf(c) == Some(Color) <==> c == 0x03 as char
  {
  }

  lemma {:induction false} AfterOne(acts: seq<Action>, a: Action)
    ensures (acts + [a])[..|acts|] == acts
  {
  }

  // One step of the scan that is no colour code.
  lemma {:induction false} TellsNext(t: string, i: nat, acts: seq<Action>)
    requires i < |t| && t[i] != 0x03 as char && Tells(t, i, acts)
    ensures Tells(t, i + 1, acts + [ScanStep(t, i).act]) && ScanStep(t, i).next == i + 1
  {
    CodesAre(t[i]);
    AfterOne(acts, ScanStep(t, i).act);
  }

  lemma {:induction false} TellsColor(t: string, i: nat, acts: seq<Action>)
    requires i < |t| && t[i] == 0x03 as char && Tells(t, i, acts)
    ensures Tells(t, ReadColor(t, i).next, acts + [ScanStep(t, i).act]) && ScanStep(t, i).next == ReadColor(t, i).next
  {
    CodesAre(t[i]);
    AfterOne(acts, ScanStep(t, i).act);
    ColorHasNoCode(t, i);
    NothingSince(t, i + 1, ReadColor(t, i).next);
    TellsBehind(t, i, acts);
  }

  lemma {:induction false} TellsBehind(t: string, i: nat, acts: seq<Action>)
    requires i < |t| && t[i] == 0x03 as char && Tells(t, i, acts)
    ensures Tells(t, i + 1, acts + [ScanStep(t, i).act])
  {
    hide ReadColor;
    CodesAre(t[i]);
    AfterOne(acts, ScanStep(t, i).act);
  }

  lemma {:induction false} SeenIsMeant(t: string, i: nat, acts: seq<Action>)
    requires i <= |t| && Tells(t, i, acts)
    ensures Meaning(acts + Scan(t, i)) == Meaning(acts) + Seen(t, i)
    decreases |t| - i
  {
    hide Tells, ReadColor, LooksAt;
    if i == |t| {
      assert acts + [] == acts && Meaning(acts) + [] == Meaning(acts);
    } else {
      var s := ScanStep(t, i);
      assert acts + Scan(t, i) == acts + [s.act] + Scan(t, s.next);
      if t[i] == 0x03 as char {
        TellsColor(t, i, acts);
      } else {
        TellsNext(t, i, acts);
      }
      SeenIsMeant(t, s.next, acts + [s.act]);
      MeantNext(t, i, acts);
    }
  }

  lemma {:induction false} MeantNext(t: string, i: nat, acts: seq<Action>)
    requires i < |t| && Tells(t, i, acts)
    ensures Meaning(acts + [ScanStep(t, i).act]) + Seen(t, ScanStep(t, i).next) == Meaning(acts) + Seen(t, i)
  {
    hide ReadColor, Tells, LooksAt, FlatStyle;
    CodesAre(t[i]);
    AfterOne(acts, ScanStep(t, i).act);
    StyleTold(t, i, acts);
  }

  lemma {:induction false} StyleTold(t: string, i: nat, acts: seq<Action>)
    requires i <= |t| && Tells(t, i, acts)
    ensures FlatStyle(acts) == LooksAt(t, i)
  {
  }

  /** For every text the tags give each character that is shown the look that the codes
    * in front of it, as characters of the text, give it. */
  lemma {:induction false} ColorizedLooks(t: string)
    ensures WellFormed(Colorized(t)) && Styles(Read(Colorized(t), BLANK).glyphs) == Seen(t, 0)
  {
    RenderingPreservesMeaning(t);
    SeenIsMeant(t, 0, []);
    assert [] + Scan(t, 0) == Scan(t, 0) && [] + Seen(t, 0) == Seen(t, 0);
  }

  /** Behind a colour code with a foreground that has a name the text is in that colour;
    * with none, but a background that has a name, on that; and without numbers it has
    * no colour. */
  lemma {:induction false} LookBehindCode(t: string, i: nat)
    requires i < |t| && t[i] == 0x03 as char && Tidy(t, i)
    ensures var n, fg, bg := ReadColor(t, i).next, FirstRun(t, i), SecondRun(t, i);
      var look := LooksAt(t, n);
      && (fg != "" && FirstTwo(fg) < 16 ==> look.fore == Some(ColorName(FirstTwo(fg))) && look.back == None)
      && (fg != "" && FirstTwo(fg) >= 16 && bg != "" && FirstTwo(bg) < 16 ==>
            look.fore == None && look.back == Some(ColorName(FirstTwo(bg))))
      && (fg == "" && bg == "" ==> look.fore == None && look.back == None)
      && (fg == "" && bg != "" ==> look.fore == LooksAt(t, i).fore)
  {
    hide ReadColor, Tidy, FirstRun, SecondRun, FirstTwo;
    ColorsInOrder(t, i);
    ColorHasNoCode(t, i);
    NothingSince(t, i + 1, ReadColor(t, i).next);
  }

  // ------------------------------------------------------------- the tags

  lemma {:induction false} DrawNext(acts: seq<Action>, a: Action)
    ensures Draw(acts + [a]) == Apply(Draw(acts), a)
  {
    assert (acts + [a])[..|acts|] == acts;
  }

  lemma {:induction false} DrawTwo(a: Action, b: Action)
    ensures Draw([a, b, Reset]) == Apply(Apply(Apply(Pen([], 16, 16, []), a), b), Reset)
  {
    DrawNext([], a);
    DrawNext([a], b);
    DrawNext([a, b], Reset);
    assert [] + [a] == [a] && [a] + [b] == [a, b] && [a, b] + [Reset] == [a, b, Reset];
  }

  lemma {:induction false} ScanTwo(code: char, c: char)
    requires code != 0x03 as char && !IsCode(c)
    ensures Scan([code, c], 0) == [ScanStep([code, c], 0).act, Show(c)]
  {
    CodesAre(code);
    CodesAre(c);
    var t := [code, c];
    assert Scan(t, 2) == [] && Scan(t, 1) == [Show(c)];
  }

  lemma {:induction false} DrawnAlone(code: Code, c: char)
    requires code.Bold? || code.Italics? || code.Underline?
    ensures Draw([Toggle(code), Show(c), Reset]).out
         == Open(code, SpanFor(16, 16)) + [Ch(c)] + Close(code)
  {
    DrawTwo(Toggle(code), Show(c));
    var p := Apply(Pen([], 16, 16, []), Toggle(code));
    assert [] + [code] == [code];
    assert p.codes == [code] && p.out == Open(code, SpanFor(16, 16));
    assert CloseRange([code], 0, 1) == Close(code) + CloseRange([code], 0, 0);
    assert Close(code) + [] == Close(code);
  }

  /** A character behind a bold, italics or underline code stands in the element of that
    * name, which is closed at the end. */
  lemma {:induction false} TagsOfCodes(c: char)
    requires !IsCode(c)
    ensures Colorized([0x02 as char, c]) == [Start(Elem("b", [])), Ch(c), End("b")]
    ensures Colorized([0x1D as char, c]) == [Start(Elem("i", [])), Ch(c), End("i")]
    ensures Colorized([0x1F as char, c]) == [Start(Elem("u", [])), Ch(c), End("u")]
  {
    hide Draw, Scan;
    TagsOf(0x02 as char, Bold, c);
    TagsOf(0x1D as char, Italics, c);
    TagsOf(0x1F as char, Underline, c);
  }

  lemma {:induction false} TagsOf(k: char, code: Code, c: char)
    requires CodeOf(k) == Some(code) && (code.Bold? || code.Italics? || code.Underline?) && !IsCode(c)
    ensures Colorized([k, c]) == Open(code, SpanFor(16, 16)) + [Ch(c)] + Close(code)
  {
    hide Draw, Scan, Open, Close;
    CodesAre(k);
    ScanTwo(k, c);
    DrawnAlone(code, c);
    assert [Toggle(code), Show(c)] + [Reset] == [Toggle(code), Show(c), Reset];
  }

  // One hexadecimal digit.
  function Hex(d: nat): char
    requires d < 16
  {
    "0123456789ABCDEF"[d]
  }

  lemma {:induction false} HexStep(q: nat, d: nat, n: nat)
    requires d < 16
    ensures HexDigits(16 * q + d, n + 1) == HexDigits(q, n) + [Hex(d)]
  {
    assert (16 * q + d) / 16 == q && (16 * q + d) % 16 == d;
    HexIs(d);
  }

  lemma {:induction false} HexIs(d: nat)
    requires d < 16
    ensures (if d < 10 then '0' as int + d else 'A' as int + d - 10) as char == Hex(d)
  {
  }

  lemma {:induction false} HexByte(q: nat, a: nat, b: nat, n: nat)
    requires a < 16 && b < 16
    ensures HexDigits(256 * q + 16 * a + b, n + 2) == HexDigits(q, n) + [Hex(a), Hex(b)]
  {
    hide HexDigits, Hex;
    HexStep(q, a, n);
    HexStep(16 * q + a, b, n + 1);
    assert 16 * (16 * q + a) + b == 256 * q + 16 * a + b;
    assert HexDigits(q, n) + [Hex(a)] + [Hex(b)] == HexDigits(q, n) + [Hex(a), Hex(b)];
  }

  lemma {:induction false} NameIs(color: nat, a: nat, b: nat, c: nat, d: nat, e: nat, f: nat)
    requires color < 16 && a < 16 && b < 16 && c < 16 && d < 16 && e < 16 && f < 16
    requires Rgb(color) == 256 * (256 * (16 * a + b) + 16 * c + d) + 16 * e + f
    ensures ColorName(color) == ['#', Hex(a), Hex(b), Hex(c), Hex(d), Hex(e), Hex(f)]
  {
    hide Rgb, Hex;
    HexByte(0, a, b, 0);
    HexByte(16 * a + b, c, d, 2);
    HexByte(256 * (16 * a + b) + 16 * c + d, e, f, 4);
    NoDigits();
  }

  lemma {:induction false} NoDigits()
    ensures HexDigits(0, 0) == ""
  {
  }

  /** The names of the colours. */
  lemma {:induction false} ColorNames()
    ensures ColorName(0) == "#FFFFFF" && ColorName(1) == "#000000"
    ensures ColorName(2) == "#00007F" && ColorName(3) == "#009300"
    ensures ColorName(4) == "#FF0000" && ColorName(5) == "#7F0000"
    ensures ColorName(6) == "#9C009C" && ColorName(7) == "#FC7F00"
    ensures ColorName(8) == "#FFFF00" && ColorName(9) == "#00FC00"
    ensures ColorName(10) == "#009393" && ColorName(11) == "#00FFFF"
    ensures ColorName(12) == "#0000FC" && ColorName(13) == "#FF00FF"
    ensures ColorName(14) == "#7F7F7F" && ColorName(15) == "#D2D2D2"
  {
    hide ColorName;
    NameIs(0, 15, 15, 15, 15, 15, 15);
    NameIs(1, 0, 0, 0, 0, 0, 0);
    NameIs(2, 0, 0, 0, 0, 7, 15);
    NameIs(3, 0, 0, 9, 3, 0, 0);
    NameIs(4, 15, 15, 0, 0, 0, 0);
    NameIs(5, 7, 15, 0, 0, 0, 0);
    NameIs(6, 9, 12, 0, 0, 9, 12);
    NameIs(7, 15, 12, 7, 15, 0, 0);
    NameIs(8, 15, 15, 15, 15, 0, 0);
    NameIs(9, 0, 0, 15, 12, 0, 0);
    NameIs(10, 0, 0, 9, 3, 9, 3);
    NameIs(11, 0, 0, 15, 15, 15, 15);
    NameIs(12, 0, 0, 0, 0, 15, 12);
    NameIs(13, 15, 15, 0, 0, 15, 15);
    NameIs(14, 7, 15, 7, 15, 7, 15);
    NameIs(15, 13, 2, 13, 2, 13, 2);
  }
}
