/** The mIRC control codes and the scan that both mIRC renderers perform on a
  * run of text.  A run is a sequence of Unicode scalar values, so the byte
  * steps of the C loops over one UTF-8 sequence are single steps here; every
  * byte the loops look at (codes, digits, comma, blanks, signs) is ASCII. */
module MircCodes {
  import opened Wrappers

  datatype Code = Bold | Italics | Underline | Reverse | Blink | Plain | Color

  const MIRC_BOLD := 0x02 as char
  const MIRC_ITALICS := 0x1D as char
  const MIRC_UNDERLINE := 0x1F as char
  const MIRC_REVERSE := 0x16 as char
  const MIRC_BLINK := 0x06 as char
  const MIRC_PLAIN := 0x0F as char
  const MIRC_COLOR := 0x03 as char

  const MIRC_COLOR_UNKNOWN := 16

  function CodeOf(c: char): Option<Code> {
    if c == MIRC_BOLD then Some(Bold)
    else if c == MIRC_ITALICS then Some(Italics)
    else if c == MIRC_UNDERLINE then Some(Underline)
    else if c == MIRC_REVERSE then Some(Reverse)
    else if c == MIRC_BLINK then Some(Blink)
    else if c == MIRC_PLAIN then Some(Plain)
    else if c == MIRC_COLOR then Some(Color)
    else None
  }

  // ---------------------------------------------------------------- strtoul

  const ULONG_MAX := 0xFFFF_FFFF_FFFF_FFFF
  const UINT_WIDTH := 0x1_0000_0000

  predicate IsSpace(c: char) {
    c == ' ' || '\t' as int <= c as int <= '\r' as int
  }

  predicate IsDigit(c: char) {
    '0' <= c <= '9'
  }

  function SpacesEnd(t: string, i: nat): (e: nat)
    requires i <= |t|
    ensures i <= e <= |t|
    decreases |t| - i
  {
    if i < |t| && IsSpace(t[i]) then SpacesEnd(t, i + 1) else i
  }

  function DigitsEnd(t: string, i: nat): (e: nat)
    requires i <= |t|
    ensures i <= e <= |t|
    ensures AllDigits(t[i..e])
    decreases |t| - i
  {
    if i < |t| && IsDigit(t[i]) then
      var e := DigitsEnd(t, i + 1);
      assert t[i..e] == [t[i]] + t[i + 1..e];
      e
    else i
  }

  function DigitValue(c: char): nat
    requires IsDigit(c)
  {
    c as int - '0' as int
  }

  predicate AllDigits(ds: string) {
    forall k :: 0 <= k < |ds| ==> IsDigit(ds[k])
  }

  function Decimal(ds: string): nat
    requires AllDigits(ds)
  {
    if ds == "" then 0 else 10 * Decimal(ds[..|ds| - 1]) + DigitValue(ds[|ds| - 1])
  }

  datatype Number = Number(value: nat, end: nat)

  // What (unsigned)strtoul(&t[start], &end, 10) yields with 64-bit long and
  // 32-bit int: blanks and one sign are accepted, an overflow saturates, a
  // negated value wraps, and end == start when there is no digit.
  function Strtoul(t: string, start: nat): (n: Number)
    requires start <= |t|
    ensures start <= n.end <= |t| && n.value < UINT_WIDTH
  {
    var b := SpacesEnd(t, start);
    var signed := b < |t| && (t[b] == '-' || t[b] == '+');
    var d := if signed then b + 1 else b;
    var e := DigitsEnd(t, d);
    if e == d then Number(0, start)
    else
      var v := Decimal(t[d..e]);
      var l := if v > ULONG_MAX then ULONG_MAX
               else if signed && t[b] == '-' && v > 0 then ULONG_MAX + 1 - v
               else v;
      Number(l % UINT_WIDTH, e)
  }

  // At most two characters are kept: one division by ten for each dropped one.
  function Clamp(n: Number, start: nat): (c: Number)
    requires start <= n.end
    ensures start <= c.end <= n.end && c.end <= start + 2
    ensures n.end <= start + 2 ==> c == n
    ensures n.end > start ==> c.end > start
    ensures c.value <= n.value
    decreases n.end
  {
    if n.end > start + 2 then Clamp(Number(n.value / 10, n.end - 1), start) else n
  }

  function ColorNumber(t: string, start: nat): (c: Number)
    requires start <= |t|
    ensures start <= c.end <= |t| && c.end <= start + 2 && c.value < UINT_WIDTH
  {
    Clamp(Strtoul(t, start), start)
  }

  // ------------------------------------------------------------------- scan

  // One step of the scan.  `Recolor(None, None)` clears both colours.
  datatype Action =
    | Show(c: char)
    | Toggle(code: Code)
    | Reset
    | Recolor(fg: Option<nat>, bg: Option<nat>)

  datatype ColorCode = ColorCode(fg: Option<nat>, bg: Option<nat>, next: nat)

  // A background, if a comma at t[e] introduces one, and how long it is.
  datatype Ground = Ground(color: Option<nat>, length: nat)

  function ReadBackground(t: string, e: nat): (g: Ground)
    requires e <= |t|
    ensures e + g.length < |t| || g.length == 0
    ensures g.color.Some? <==> g.length > 0
  {
    if e < |t| && t[e] == ',' then
      var b := ColorNumber(t, e + 1);
      if b.end > e + 1 then Ground(Some(b.value), b.end - (e + 1)) else Ground(None, 0)
    else Ground(None, 0)
  }

  // The colour code whose control character is t[i].  `next` is where the scan
  // goes on; it does not count the comma.
  function ReadColor(t: string, i: nat): (r: ColorCode)
    requires i < |t|
    ensures i < r.next <= |t|
    ensures r.bg.Some? ==> r.next < |t|
  {
    var f := ColorNumber(t, i + 1);
    var g := ReadBackground(t, f.end);
    ColorCode(if f.end > i + 1 then Some(f.value) else None, g.color, f.end + g.length)
  }

  datatype Step = Step(act: Action, next: nat)

  function ScanStep(t: string, i: nat): (s: Step)
    requires i < |t|
    ensures i < s.next <= |t|
    ensures s.act.Show? ==> CodeOf(s.act.c) == None
  {
    match CodeOf(t[i])
    case Some(Color) => var r := ReadColor(t, i); Step(Recolor(r.fg, r.bg), r.next)
    case Some(Plain) => Step(Reset, i + 1)
    case Some(code) => Step(Toggle(code), i + 1)
    case None => Step(Show(t[i]), i + 1)
  }

  function Scan(t: string, i: nat): seq<Action>
    requires i <= |t|
    decreases |t| - i
  {
    if i == |t| then [] else [ScanStep(t, i).act] + Scan(t, ScanStep(t, i).next)
  }

  // The codes of t up to i, as a prefix of its scan.
  ghost predicate ScannedTo(t: string, i: nat, acts: seq<Action>) {
    i <= |t| && acts + Scan(t, i) == Scan(t, 0)
  }

  lemma ScanOneMore(t: string, i: nat, acts: seq<Action>)
    requires i < |t| && ScannedTo(t, i, acts)
    ensures ScannedTo(t, ScanStep(t, i).next, acts + [ScanStep(t, i).act])
  {
    var s := ScanStep(t, i);
    assert acts + [s.act] + Scan(t, s.next) == acts + ([s.act] + Scan(t, s.next));
  }

  // The characters a reader is shown.
  function Shown(acts: seq<Action>): string {
    if acts == [] then ""
    else Shown(acts[..|acts| - 1]) + if acts[|acts| - 1].Show? then [acts[|acts| - 1].c] else ""
  }

  /** `strtoul` and the clamping loop as the renderers run them. */
  method ReadNumber(t: string, start: nat) returns (value: nat, end: nat)
    requires start <= |t|
    ensures Number(value, end) == ColorNumber(t, start)
  {
    var n := Strtoul(t, start);
    value, end := n.value, n.end;
    while end - start > 2
      invariant start <= end
      invariant Clamp(Number(value, end), start) == Clamp(n, start)
    {
      value := value / 10;
      end := end - 1;
    }
  }

  /** The colour code at t[i] as the renderers read it.  The index advances by
    * the length of each number and by one, as in the C loops. */
  method ReadColorCode(t: string, i: nat) returns (fg: Option<nat>, bg: Option<nat>, next: nat)
    requires i < |t|
    ensures ColorCode(fg, bg, next) == ReadColor(t, i)
  {
    hide ColorNumber;
    fg, next := None, i;
    var start := i + 1;
    var value, end := ReadNumber(t, start);
    if end > start {
      fg := Some(value);
    }
    next := next + (end - start);
    var length;
    bg, length := ReadBackgroundCode(t, end);
    next := next + length + 1;
  }

  method ReadBackgroundCode(t: string, comma: nat) returns (bg: Option<nat>, length: nat)
    requires comma <= |t|
    ensures Ground(bg, length) == ReadBackground(t, comma)
  {
    bg, length := None, 0;
    if comma < |t| && t[comma] == ',' {
      var start := comma + 1;
      var value, end := ReadNumber(t, start);
      if end > start {
        bg := Some(value);
      }
      length := end - start;
    }
  }

  // ------------------------------------------------- facts about the numbers

  function Pow10(k: nat): nat {
    if k == 0 then 1 else 10 * Pow10(k - 1)
  }

  // Dividing by ten k times over.
  function Shift(v: nat, k: nat): nat {
    if k == 0 then v else Shift(v / 10, k - 1)
  }

  lemma {:induction false} ShiftBounds(v: nat, k: nat)
    ensures Shift(v, k) * Pow10(k) <= v < Shift(v, k) * Pow10(k) + Pow10(k)
  {
    if k > 0 {
      ShiftBounds(v / 10, k - 1);
      TenTimes(v, Shift(v / 10, k - 1), Pow10(k - 1));
    }
  }

  lemma {:induction false} TenTimes(v: nat, q: nat, p: nat)
    requires q * p <= v / 10 < q * p + p
    ensures q * (10 * p) <= v < q * (10 * p) + 10 * p
  {
    var x := q * p;
    assert q * (10 * p) == 10 * x by {
      assert q * (10 * p) == (q * 10) * p == (10 * q) * p == 10 * (q * p);
    }
  }

  lemma {:induction false} ClampShifts(v: nat, start: nat, n: nat)
    requires n >= 2
    ensures Clamp(Number(v, start + n), start) == Number(Shift(v, n - 2), start + 2)
    decreases n
  {
    if n > 2 {
      ClampShifts(v / 10, start, n - 1);
    }
  }

  lemma {:induction false} ShiftOfDecimal(ds: string)
    requires AllDigits(ds) && |ds| >= 2
    ensures Shift(Decimal(ds), |ds| - 2) == Decimal(ds[..2])
  {
    if |ds| == 2 {
      assert ds[..2] == ds;
    } else {
      var front := ds[..|ds| - 1];
      assert front[..2] == ds[..2];
      assert Decimal(ds) / 10 == Decimal(front);
      ShiftOfDecimal(front);
    }
  }

  // The colour number the format documents: the first two digits of the run.
  function FirstTwo(ds: string): nat
    requires AllDigits(ds)
  {
    Decimal(ds[..if |ds| < 2 then |ds| else 2])
  }

  // What the conversion makes of a number that is too large for 32 bits.
  function Wrapped(v: nat): nat {
    (if v > ULONG_MAX then ULONG_MAX else v) % UINT_WIDTH
  }

  lemma {:induction false} WrappedQuotient(v: nat, k: nat)
    ensures Shift(Wrapped(v), k) == Shift(v, k) <==> v < UINT_WIDTH || Shift(v, k) == 0
  {
    var w := Wrapped(v);
    ShiftBounds(v, k);
    ShiftBounds(w, k);
    var q, r, p := Shift(v, k), Shift(w, k), Pow10(k);
    if v >= UINT_WIDTH {
      assert v - w >= UINT_WIDTH > w;
      Scale(q, p);
      Scale(r, p);
    }
  }

  lemma Scale(q: nat, p: nat)
    ensures q == 0 ==> q * p == 0
    ensures q > 0 ==> q * p >= p
  {
    if q > 0 {
      assert q * p == p + (q - 1) * p;
    }
  }

  lemma {:induction false} StrtoulOfDigits(t: string, start: nat)
    requires start < |t| && IsDigit(t[start])
    ensures var e := DigitsEnd(t, start);
      start < e && Strtoul(t, start) == Number(Wrapped(Decimal(t[start..e])), e)
  {
  }

  /** Wherever a number starts in a text, clamping after the conversion gives the
    * first two digits of the run exactly if the whole run fits 32 bits or starts
    * with two zeros; the scan goes on behind those two. */
  lemma {:induction false} DecodesTwoDigits(t: string, start: nat)
    requires start < |t| && IsDigit(t[start])
    ensures var e := DigitsEnd(t, start);
      var ds := t[start..e];
      && (ColorNumber(t, start).value == FirstTwo(ds) <==> Decimal(ds) < UINT_WIDTH || FirstTwo(ds) == 0)
      && ColorNumber(t, start).end == if |ds| < 2 then e else start + 2
  {
    var e := DigitsEnd(t, start);
    var ds := t[start..e];
    StrtoulOfDigits(t, start);
    if |ds| < 2 {
      assert ds[..|ds|] == ds && ds[..0] == "";
    } else {
      ClampShifts(Wrapped(Decimal(ds)), start, |ds|);
      ShiftOfDecimal(ds);
      WrappedQuotient(Decimal(ds), |ds| - 2);
    }
  }

  lemma {:induction false} DecimalOfNines(n: nat)
    ensures var ds := seq(n, _ => '9'); AllDigits(ds) && Decimal(ds) == Pow10(n) - 1
  {
    if n > 0 {
      DecimalOfNines(n - 1);
      assert seq(n, _ => '9')[..n - 1] == seq(n - 1, _ => '9');
    }
  }

  /** Ten nines are read as 14. */
  lemma {:induction false} TenNinesAreMisread()
    ensures var t := [MIRC_COLOR] + seq(10, _ => '9');
      ReadColor(t, 0).fg == Some(14) && FirstTwo(t[1..]) == 99
  {
    var nines := seq(10, _ => '9');
    var t := [MIRC_COLOR] + nines;
    DecimalOfNines(10);
    DecimalOfNines(2);
    NinesEnd(t, 1);
    assert t[1..11] == nines == t[1..] && nines[..2] == seq(2, _ => '9');
    StrtoulOfDigits(t, 1);
    assert Pow10(10) == 10_000_000_000 && Wrapped(9_999_999_999) == 1_410_065_407;
    ClampShifts(1_410_065_407, 1, 10);
    assert Shift(1_410_065_407, 8) == 14;
  }

  lemma {:induction false} NinesEnd(t: string, i: nat)
    requires i <= |t| && forall k | i <= k < |t| :: t[k] == '9'
    ensures DigitsEnd(t, i) == |t|
    decreases |t| - i
  {
    if i < |t| {
      NinesEnd(t, i + 1);
    }
  }

  // ------------------------------------------------------ facts about scanning

  /** A shown character is never one of the seven control codes. */
  lemma {:induction false} ScanShowsNoCode(t: string, i: nat)
    requires i <= |t|
    ensures forall a <- Scan(t, i) :: a.Show? ==> CodeOf(a.c) == None
    decreases |t| - i
  {
    if i < |t| {
      ScanShowsNoCode(t, ScanStep(t, i).next);
    }
  }

  lemma {:induction false} ShownOfShows(acts: seq<Action>)
    requires forall a <- acts :: a.Show? ==> CodeOf(a.c) == None
    ensures forall c <- Shown(acts) :: CodeOf(c) == None
  {
    if acts != [] {
      ShownOfShows(acts[..|acts| - 1]);
    }
  }

  lemma {:induction false} ShownConcat(a: seq<Action>, b: seq<Action>)
    ensures Shown(a + b) == Shown(a) + Shown(b)
  {
    if b == [] {
      assert a + b == a;
    } else {
      assert (a + b)[..|a + b| - 1] == a + b[..|b| - 1];
      ShownConcat(a, b[..|b| - 1]);
    }
  }

  lemma {:induction false} ScanOfPlain(t: string, i: nat)
    requires i <= |t| && forall c <- t :: CodeOf(c) == None
    ensures Shown(Scan(t, i)) == t[i..]
    decreases |t| - i
  {
    if i < |t| {
      ScanOfPlain(t, i + 1);
      ShownConcat([Show(t[i])], Scan(t, i + 1));
      assert Shown([Show(t[i])]) == [t[i]];
    }
  }
}
