/** The mIRC colouriser: flat toggle codes become well nested tags.  A stack of
  * open codes is updated in place; closing a code below the top closes the ones
  * above it, and reopens them afterwards. */
module MircColorize {
  import opened Markup
  import opened MircCodes

  const MAX_CTX_STACK_SIZE := 128

  // The colour of each code 0..15, red, green and blue in one number.
  function Rgb(color: nat): nat
    requires color < MIRC_COLOR_UNKNOWN
  {
    match color
    case 0 => 0xFFFFFF
    case 1 => 0x000000
    case 2 => 0x00007F
    case 3 => 0x009300
    case 4 => 0xFF0000
    case 5 => 0x7F0000
    case 6 => 0x9C009C
    case 7 => 0xFC7F00
    case 8 => 0xFFFF00
    case 9 => 0x00FC00
    case 10 => 0x009393
    case 11 => 0x00FFFF
    case 12 => 0x0000FC
    case 13 => 0xFF00FF
    case 14 => 0x7F7F7F
    case _ => 0xD2D2D2
  }

  function HexDigits(v: nat, n: nat): string {
    if n == 0 then ""
    else
      var d := v % 16;
      HexDigits(v / 16, n - 1) + [(if d < 10 then '0' as int + d else 'A' as int + d - 10) as char]
  }

  // The colour as it is written in an attribute, such as "#FC7F00".
  function ColorName(color: nat): string
    requires color < MIRC_COLOR_UNKNOWN
  {
    "#" + HexDigits(Rgb(color), 6)
  }

  // ------------------------------------------------------ what one code emits

  predicate Known(fg: nat, bg: nat) {
    fg < MIRC_COLOR_UNKNOWN || bg < MIRC_COLOR_UNKNOWN
  }

  function Legal(color: nat): nat {
    if color > MIRC_COLOR_UNKNOWN then MIRC_COLOR_UNKNOWN else color
  }

  function SpanFor(fg: nat, bg: nat): Elem {
    if fg < MIRC_COLOR_UNKNOWN then Elem("span", [("foreground", ColorName(fg))])
    else if bg < MIRC_COLOR_UNKNOWN then Elem("span", [("background", ColorName(bg))])
    else Elem("span", [])
  }

  // The elements a code stands for; reverse and blink have none.
  function ElemsOf(code: Code, span: Elem): seq<Elem> {
    match code
    case Bold => [Elem("b", [])]
    case Italics => [Elem("i", [])]
    case Underline => [Elem("u", [])]
    case Color => [span]
    case _ => []
  }

  function Open(code: Code, span: Elem): Markup {
    match code
    case Bold => [Start(Elem("b", []))]
    case Italics => [Start(Elem("i", []))]
    case Underline => [Start(Elem("u", []))]
    case Color => [Start(span)]
    case _ => []
  }

  function Close(code: Code): Markup {
    match code
    case Bold => [End("b")]
    case Italics => [End("i")]
    case Underline => [End("u")]
    case Color => [End("span")]
    case _ => []
  }

  // The start tags of codes[lo..hi], outermost first.
  function OpenRange(codes: seq<Code>, lo: nat, hi: nat, span: Elem): Markup
    requires hi <= |codes|
  {
    if hi <= lo then [] else OpenRange(codes, lo, hi - 1, span) + Open(codes[hi - 1], span)
  }

  // The end tags of codes[lo..hi], innermost first.
  function CloseRange(codes: seq<Code>, lo: nat, hi: nat): Markup
    requires hi <= |codes|
  {
    if hi <= lo then [] else Close(codes[hi - 1]) + CloseRange(codes, lo, hi - 1)
  }

  ghost predicate Distinct(codes: seq<Code>) {
    codes != [] ==>
      var n := |codes| - 1;
      codes[n] != Plain && codes[n] !in codes[..n] && Distinct(codes[..n])
  }

  lemma {:induction false} DistinctMeans(codes: seq<Code>)
    requires Distinct(codes)
    ensures Plain !in codes && forall i, j :: 0 <= i < j < |codes| ==> codes[i] != codes[j]
  {
    if codes != [] {
      DistinctMeans(codes[..|codes| - 1]);
    }
  }

  lemma {:induction false} DistinctPush(codes: seq<Code>, ch: Code)
    requires Distinct(codes) && ch != Plain && ch !in codes
    ensures Distinct(codes + [ch]) && |codes + [ch]| <= 6
  {
    assert (codes + [ch])[..|codes|] == codes;
    DistinctIsShort(codes + [ch]);
  }

  lemma {:induction false} DistinctPrefix(codes: seq<Code>, p: nat)
    requires Distinct(codes) && p <= |codes|
    ensures Distinct(codes[..p])
  {
    if p < |codes| {
      DistinctPrefix(codes[..|codes| - 1], p);
      assert codes[..|codes| - 1][..p] == codes[..p];
    } else {
      assert codes[..p] == codes;
    }
  }

  function IndexOf(codes: seq<Code>, code: Code): (j: nat)
    requires code in codes
    ensures j < |codes| && codes[j] == code
  {
    if codes[|codes| - 1] == code then |codes| - 1 else IndexOf(codes[..|codes| - 1], code)
  }

  function Without(codes: seq<Code>, code: Code): seq<Code> {
    if code in codes
    then codes[..IndexOf(codes, code)] + codes[IndexOf(codes, code) + 1..]
    else codes
  }

  // The stack after a control code.
  function Restack(codes: seq<Code>, ch: Code, fg: nat, bg: nat): seq<Code> {
    if ch == Plain then []
    else if ch == Color then Without(codes, Color) + if Known(fg, bg) then [Color] else []
    else if ch in codes then Without(codes, ch)
    else codes + [ch]
  }

  // The tags a control code emits, given legal colours.
  function Emission(codes: seq<Code>, ch: Code, fg: nat, bg: nat): Markup {
    if ch == Plain then CloseRange(codes, 0, |codes|)
    else
      var reopened := if ch == Color && !Known(fg, bg) then [] else Open(ch, SpanFor(fg, bg));
      if ch !in codes then reopened
      else
        var j := IndexOf(codes, ch);
        CloseRange(codes, j, |codes|) + OpenRange(codes, j + 1, |codes|, SpanFor(fg, bg))
          + if ch == Color then reopened else []
  }

  // ------------------------------------------------------------- the renderer

  lemma {:induction false} DistinctIsShort(codes: seq<Code>)
    requires Distinct(codes)
    ensures |codes| <= 6
  {
    var all := {Bold, Italics, Underline, Reverse, Blink, Color};
    var here := set c | c in codes;
    assert |here| == |codes| by { SetOfDistinct(codes); }
    DistinctMeans(codes);
    forall c | c in here ensures c in all {
    }
    SubsetSize(here, all);
    assert |all| <= 6;
  }

  lemma {:induction false} SetOfDistinct(codes: seq<Code>)
    requires Distinct(codes)
    ensures |set c | c in codes| == |codes|
  {
    if codes == [] {
      assert (set c | c in codes) == {};
    } else {
      var front, last := codes[..|codes| - 1], codes[|codes| - 1];
      SetOfDistinct(front);
      assert (set c | c in codes) == (set c | c in front) + {last};
    }
  }

  lemma {:induction false} SubsetSize(a: set<Code>, b: set<Code>)
    requires a <= b
    ensures |a| <= |b|
  {
    assert b == a + (b - a);
  }

  lemma {:induction false} AppendClose(s: Markup, codes: seq<Code>, lo: nat, i: nat)
    requires lo <= i < |codes|
    ensures s + CloseRange(codes, lo, i + 1) == s + Close(codes[i]) + CloseRange(codes, lo, i)
  {
  }

  lemma {:induction false} AppendOpen(s: Markup, codes: seq<Code>, lo: nat, i: nat, span: Elem)
    requires lo <= i < |codes|
    ensures s + OpenRange(codes, lo, i + 1, span) == s + OpenRange(codes, lo, i, span) + Open(codes[i], span)
  {
  }

  lemma {:induction false} GapLacks(was: seq<Code>, p: nat)
    requires Distinct(was) && p < |was|
    ensures was[p] !in was[..p] + was[p + 1..]
  {
    DistinctMeans(was);
  }

  lemma Regroup(s: Markup, a: Markup, b: Markup, c: Markup)
    ensures s + a + b + c == s + (a + b + c)
  {
  }

  // Without a colour in the range the span does not matter.
  lemma {:induction false} OpenRangeIgnores(codes: seq<Code>, lo: nat, hi: nat, span: Elem, span': Elem)
    requires lo <= hi <= |codes| && Color !in codes[lo..hi]
    ensures OpenRange(codes, lo, hi, span) == OpenRange(codes, lo, hi, span')
  {
    if lo < hi {
      assert codes[lo..hi] == codes[lo..hi - 1] + [codes[hi - 1]];
      OpenRangeIgnores(codes, lo, hi - 1, span, span');
    }
  }

  lemma {:induction false} NextToReopen(was: seq<Code>, p: nat, i: nat)
    requires Distinct(was) && p < i < |was|
    ensures was[i] in was[p + 1..] && was[i] != Plain && was[i] !in was[..p] + was[p + 1..i]
    ensures was[..p] + was[p + 1..i + 1] == was[..p] + was[p + 1..i] + [was[i]]
  {
    DistinctMeans(was);
    assert was[p + 1..][i - p - 1] == was[i];
    assert was[p + 1..i + 1] == was[p + 1..i] + [was[i]];
  }

  // A code that is not open is pushed; an unknown colour is not.
  lemma {:induction false} FreshCode(codes: seq<Code>, ch: Code, fg: nat, bg: nat)
    requires ch !in codes && ch != Plain
    ensures Restack(codes, ch, fg, bg) == codes + if ch == Color && !Known(fg, bg) then [] else [ch]
    ensures Emission(codes, ch, fg, bg)
         == if ch == Color && !Known(fg, bg) then [] else Open(ch, SpanFor(fg, bg))
  {
  }

  lemma {:induction false} IndexIs(codes: seq<Code>, ch: Code, p: nat)
    requires Distinct(codes) && p < |codes| && codes[p] == ch
    ensures IndexOf(codes, ch) == p
  {
    DistinctMeans(codes);
    assert codes[IndexOf(codes, ch)] == codes[p];
  }

  // The code at `p` is closed; a known colour comes back on top.
  lemma {:induction false} OpenCodeAt(codes: seq<Code>, ch: Code, p: nat, fg: nat, bg: nat)
    requires Distinct(codes) && p < |codes| && codes[p] == ch
    ensures IndexOf(codes, ch) == p
    ensures Restack(codes, ch, fg, bg)
         == codes[..p] + codes[p + 1..] + if ch == Color && Known(fg, bg) then [Color] else []
    ensures Emission(codes, ch, fg, bg)
         == CloseRange(codes, p, |codes|) + OpenRange(codes, p + 1, |codes|, SpanFor(fg, bg))
          + if ch == Color && Known(fg, bg) then [Start(SpanFor(fg, bg))] else []
  {
    WithoutAt(codes, ch, p);
    IndexIs(codes, ch, p);
  }

  lemma {:induction false} WithoutAt(codes: seq<Code>, ch: Code, p: nat)
    requires Distinct(codes) && p < |codes| && codes[p] == ch
    ensures ch != Plain && Without(codes, ch) == codes[..p] + codes[p + 1..]
  {
    DistinctMeans(codes);
    IndexIs(codes, ch, p);
  }

  // Closing the innermost code emits its end tag only.
  lemma {:induction false} TopCode(codes: seq<Code>, ch: Code, fg: nat, bg: nat)
    requires Distinct(codes) && codes != [] && codes[|codes| - 1] == ch && !Known(fg, bg)
    ensures Restack(codes, ch, fg, bg) == codes[..|codes| - 1]
    ensures Emission(codes, ch, fg, bg) == Close(ch)
    ensures IndexOf(codes, ch) == |codes| - 1
  {
    var n := |codes| - 1;
    OpenCodeAt(codes, ch, n, fg, bg);
    assert codes[n + 1..] == [];
    assert CloseRange(codes, n, |codes|) == Close(ch) + CloseRange(codes, n, n);
  }

  // A colour above `ch`, to be reopened when `ch` closes, must be legal and known.
  ghost predicate Reopens(codes: seq<Code>, ch: Code, fg: nat, bg: nat) {
    forall p :: 0 <= p < |codes| && codes[p] == ch && Color in codes[p + 1..] ==> Showing(fg, bg)
  }

  predicate Showing(fg: nat, bg: nat) {
    Known(fg, bg) && fg <= MIRC_COLOR_UNKNOWN && bg <= MIRC_COLOR_UNKNOWN
  }

  function ColorAfter(ch: Code, color: nat): nat {
    if ch == Plain then MIRC_COLOR_UNKNOWN else if ch == Color then Legal(color) else color
  }

  class ColorlizeContext {
    const stack: array<Code>
    var ptr: nat
    var fg: nat
    var bg: nat
    var str: Markup
    ghost var codes: seq<Code>  // the live part of the stack

    ghost predicate Valid()
      reads this, stack
    {
      && stack.Length == MAX_CTX_STACK_SIZE && ptr == |codes| <= 6 && Distinct(codes)
      && forall k :: 0 <= k < ptr ==> stack[k] == codes[k]
    }

    constructor (str: Markup)
      ensures Valid() && fresh(stack) && codes == []
      ensures fg == MIRC_COLOR_UNKNOWN && bg == MIRC_COLOR_UNKNOWN && this.str == str
    {
      stack := new Code[MAX_CTX_STACK_SIZE](_ => Plain);
      ptr := 0;
      fg, bg := MIRC_COLOR_UNKNOWN, MIRC_COLOR_UNKNOWN;
      this.str := str;
      codes := [];
    }

    method DoColorize(ch: Code)
      requires Valid() && Reopens(codes, ch, fg, bg)
      modifies this, stack
      ensures Valid()
      ensures fg == ColorAfter(ch, old(fg)) && bg == ColorAfter(ch, old(bg))
      ensures codes == Restack(old(codes), ch, fg, bg)
      ensures str == old(str) + Emission(old(codes), ch, fg, bg)
      ensures forall k :: old(ptr) < k < stack.Length ==> stack[k] == old(stack[k])
      decreases if ch == Plain then 2 else if ch in codes then 1 else 0, 1
    {
      if ch == Plain {
        Clear();
        return;
      }
      var p := Find(ch);
      if p < 0 {
        OpenCode(ch);
      } else {
        ToggleOff(ch, p);
      }
    }

    method ToggleOff(ch: Code, p: nat)
      requires ch != Plain && Valid() && p < ptr && codes[p] == ch
      requires Reopens(codes, ch, fg, bg)
      modifies this, stack
      ensures Valid()
      ensures fg == ColorAfter(ch, old(fg)) && bg == ColorAfter(ch, old(bg))
      ensures codes == Restack(old(codes), ch, fg, bg)
      ensures str == old(str) + Emission(old(codes), ch, fg, bg)
      ensures forall k :: old(ptr) < k < stack.Length ==> stack[k] == old(stack[k])
      decreases 1, 0
    {
      ghost var s, was := str, codes;
      CloseCode(ch, p);
      OpenCodeAt(was, ch, p, fg, bg);
      Regroup(s, CloseRange(was, p, |was|), OpenRange(was, p + 1, |was|, SpanFor(fg, bg)),
              if ch == Color && Known(fg, bg) then [Start(SpanFor(fg, bg))] else []);
    }

    // The place of `ch` on the stack, or -1.
    method Find(ch: Code) returns (p: int)
      requires Valid()
      ensures -1 <= p < ptr
      ensures if p < 0 then ch !in codes else codes[p] == ch
    {
      p := ptr - 1;
      while p >= 0 && stack[p] != ch
        invariant -1 <= p < ptr
        invariant forall k :: p < k < ptr ==> codes[k] != ch
      {
        p := p - 1;
      }
    }

    // Resets the colours and closes every open code, innermost first.
    method Clear()
      requires Valid()
      modifies this, stack
      ensures Valid()
      ensures fg == MIRC_COLOR_UNKNOWN && bg == MIRC_COLOR_UNKNOWN && codes == []
      ensures str == old(str) + CloseRange(old(codes), 0, |old(codes)|)
      ensures forall k :: old(ptr) < k < stack.Length ==> stack[k] == old(stack[k])
      decreases 2, 0
    {
      fg, bg := MIRC_COLOR_UNKNOWN, MIRC_COLOR_UNKNOWN;
      ghost var was := codes;
      var p: int := ptr - 1;
      while p >= 0
        invariant -1 <= p && ptr == p + 1 <= |was|
        invariant Valid() && codes == was[..ptr]
        invariant fg == MIRC_COLOR_UNKNOWN && bg == MIRC_COLOR_UNKNOWN
        invariant str + CloseRange(was, 0, ptr) == old(str) + CloseRange(was, 0, |was|)
        invariant forall k :: old(ptr) < k < stack.Length ==> stack[k] == old(stack[k])
      {
        ghost var s := str;
        CloseTop();
        AppendClose(s, was, 0, p);
        p := p - 1;
      }
    }

    method CloseTop()
      requires Valid() && ptr > 0
      requires fg == MIRC_COLOR_UNKNOWN && bg == MIRC_COLOR_UNKNOWN
      modifies this, stack
      ensures Valid() && fg == old(fg) && bg == old(bg)
      ensures codes == old(codes[..ptr - 1])
      ensures str == old(str) + Close(old(codes[ptr - 1]))
      ensures forall k :: old(ptr) < k < stack.Length ==> stack[k] == old(stack[k])
      decreases 1, 2
    {
      DistinctMeans(codes);
      DoColorize(stack[ptr - 1]);
      TopCode(old(codes), old(codes[ptr - 1]), fg, bg);
    }

    // The branch that pushes a code and writes its start tag.
    method OpenCode(ch: Code)
      requires Valid() && ch !in codes && ch != Plain
      modifies this, stack
      ensures Valid()
      ensures fg == ColorAfter(ch, old(fg)) && bg == ColorAfter(ch, old(bg))
      ensures codes == Restack(old(codes), ch, fg, bg)
      ensures str == old(str) + Emission(old(codes), ch, fg, bg)
      ensures forall k :: old(ptr) < k < stack.Length ==> stack[k] == old(stack[k])
    {
      stack[ptr] := ch;
      ptr := ptr + 1;
      assert ptr < MAX_CTX_STACK_SIZE;  // so the "too many tags" branch is dead
      DistinctPush(codes, ch);
      codes := codes + [ch];
      match ch {
        case Bold => str := str + [Start(Elem("b", []))];
        case Italics => str := str + [Start(Elem("i", []))];
        case Underline => str := str + [Start(Elem("u", []))];
        case Reverse | Blink | Plain =>
        case Color => OpenColor(old(codes));
      }
      FreshCode(old(codes), ch, fg, bg);
    }

    // An unknown colour needs no tag, so its code is popped again.
    method OpenColor(ghost below: seq<Code>)
      requires Valid() && codes == below + [Color] && Distinct(below)
      modifies this`ptr, this`fg, this`bg, this`str, this`codes
      ensures Valid()
      ensures fg == Legal(old(fg)) && bg == Legal(old(bg))
      ensures codes == below + if Known(fg, bg) then [Color] else []
      ensures str == old(str) + if Known(fg, bg) then [Start(SpanFor(fg, bg))] else []
    {
      if fg > MIRC_COLOR_UNKNOWN {
        fg := MIRC_COLOR_UNKNOWN;
      }
      if bg > MIRC_COLOR_UNKNOWN {
        bg := MIRC_COLOR_UNKNOWN;
      }
      if fg == MIRC_COLOR_UNKNOWN {
        if bg == MIRC_COLOR_UNKNOWN {
          ptr := ptr - 1;
          codes := below;
        } else {
          str := str + [Start(Elem("span", [("background", ColorName(bg))]))];
        }
      } else {
        str := str + [Start(Elem("span", [("foreground", ColorName(fg))]))];
      }
    }

    // The branch that closes the code at `p`: the codes above it are closed
    // first and reopened afterwards.
    method CloseCode(ch: Code, p: nat)
      requires ch != Plain && Valid() && p < ptr && codes[p] == ch
      requires Color in codes[p + 1..] ==> Showing(fg, bg)
      modifies this, stack
      ensures Valid()
      ensures fg == ColorAfter(ch, old(fg)) && bg == ColorAfter(ch, old(bg))
      ensures codes == old(codes[..p] + codes[p + 1..]) + if ch == Color && Known(fg, bg) then [Color] else []
      ensures str == old(str) + CloseRange(old(codes), p, old(ptr))
                   + OpenRange(old(codes), p + 1, old(ptr), SpanFor(fg, bg))
                   + if ch == Color && Known(fg, bg) then [Start(SpanFor(fg, bg))] else []
      ensures forall k :: old(ptr) < k < stack.Length ==> stack[k] == old(stack[k])
      decreases 0, 5
    {
      TakeOut(p);
      if ch == Color {
        GapLacks(old(codes), p);
        OpenRangeIgnores(old(codes), p + 1, old(ptr), SpanFor(fg, bg), SpanFor(Legal(fg), Legal(bg)));
        ReopenColor();
      }
    }

    // Closes the codes from `p` up and reopens those above `p`.
    method TakeOut(p: nat)
      requires Valid() && p < ptr
      requires Color in codes[p + 1..] ==> Showing(fg, bg)
      modifies this, stack
      ensures Valid() && fg == old(fg) && bg == old(bg)
      ensures codes == old(codes[..p] + codes[p + 1..])
      ensures str == old(str) + CloseRange(old(codes), p, old(ptr))
                   + OpenRange(old(codes), p + 1, old(ptr), SpanFor(fg, bg))
      ensures forall k :: old(ptr) <= k < stack.Length ==> stack[k] == old(stack[k])
      decreases 0, 4
    {
      CloseFrom(p);
      var tmp := ptr;
      ptr := p;
      DistinctPrefix(codes, p);
      codes := codes[..p];
      Reopen(p, tmp, old(codes));
    }

    // A closed colour comes back unless it is the default one.
    method ReopenColor()
      requires Valid() && Color !in codes
      modifies this, stack
      ensures Valid()
      ensures fg == Legal(old(fg)) && bg == Legal(old(bg))
      ensures codes == old(codes) + if Known(fg, bg) then [Color] else []
      ensures str == old(str) + if Known(fg, bg) then [Start(SpanFor(fg, bg))] else []
      ensures forall k :: old(ptr) < k < stack.Length ==> stack[k] == old(stack[k])
      decreases 0, 2
    {
      if fg != MIRC_COLOR_UNKNOWN || bg != MIRC_COLOR_UNKNOWN {
        DoColorize(Color);
        FreshCode(old(codes), Color, fg, bg);
      }
    }

    // Writes the end tags of the codes from `p` up, innermost first.
    method CloseFrom(p: nat)
      requires Valid() && p < ptr
      modifies this`str
      ensures str == old(str) + CloseRange(codes, p, ptr)
    {
      var i: int := ptr - 1;
      while i >= p
        invariant p - 1 <= i < ptr
        invariant str + CloseRange(codes, p, i + 1) == old(str) + CloseRange(codes, p, ptr)
      {
        ghost var s := str;
        WriteEndTag(stack[i]);
        AppendClose(s, codes, p, i);
        i := i - 1;
      }
    }

    method WriteEndTag(code: Code)
      modifies this`str
      ensures str == old(str) + Close(code)
    {
      match code
      case Bold => str := str + [End("b")];
      case Italics => str := str + [End("i")];
      case Underline => str := str + [End("u")];
      case Color => str := str + [End("span")];
      case Reverse | Blink | Plain =>
    }

    method ReopenOne(code: Code)
      requires Valid() && code !in codes && code != Plain
      requires code == Color ==> Showing(fg, bg)
      modifies this, stack
      ensures Valid() && fg == old(fg) && bg == old(bg)
      ensures codes == old(codes) + [code]
      ensures str == old(str) + Open(code, SpanFor(fg, bg))
      ensures forall k :: old(ptr) < k < stack.Length ==> stack[k] == old(stack[k])
      decreases 0, 2
    {
      DoColorize(code);
      FreshCode(old(codes), code, fg, bg);
    }

    // Reads stack[p + 1..tmp] while writing one place behind.
    method Reopen(p: nat, tmp: nat, ghost was: seq<Code>)
      requires Valid() && ptr == p < tmp == |was| <= 6 && Distinct(was) && codes == was[..p]
      requires forall k :: p <= k < tmp ==> stack[k] == was[k]
      requires Color in was[p + 1..] ==> Showing(fg, bg)
      modifies this, stack
      ensures Valid() && fg == old(fg) && bg == old(bg)
      ensures codes == was[..p] + was[p + 1..]
      ensures str == old(str) + OpenRange(was, p + 1, tmp, SpanFor(fg, bg))
      ensures forall k :: tmp <= k < stack.Length ==> stack[k] == old(stack[k])
      decreases 0, 3
    {
      var i := p + 1;
      while i < tmp
        invariant p < i <= tmp && ptr == i - 1
        invariant Valid() && fg == old(fg) && bg == old(bg)
        invariant codes == was[..p] + was[p + 1..i]
        invariant str == old(str) + OpenRange(was, p + 1, i, SpanFor(fg, bg))
        invariant forall k :: i <= k < stack.Length ==> stack[k] == old(stack[k])
      {
        NextToReopen(was, p, i);
        ReopenOne(stack[i]);
        AppendOpen(old(str), was, p + 1, i, SpanFor(fg, bg));
        i := i + 1;
      }
      assert was[p + 1..tmp] == was[p + 1..];
    }
  }
}
