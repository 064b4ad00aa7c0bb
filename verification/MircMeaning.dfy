/** What the colouriser's output means: reading the nested tags back gives each
  * shown character the style the flat codes before it give it. */
module MircMeaning {
  import opened Wrappers
  import opened Markup
  import opened MircCodes
  import opened MircColorize

  // ------------------------------------------------------------ flat meaning

  // How often `code` was toggled since the last PLAIN.
  function Toggles(acts: seq<Action>, code: Code): nat {
    if acts == [] || acts[|acts| - 1] == Reset then 0
    else Toggles(acts[..|acts| - 1], code) + if acts[|acts| - 1] == Toggle(code) then 1 else 0
  }

  predicate On(acts: seq<Action>, code: Code) {
    Toggles(acts, code) % 2 == 1
  }

  // The last foreground, unless it was out of range or cleared since.
  function Foreground(acts: seq<Action>): nat {
    if acts == [] then MIRC_COLOR_UNKNOWN
    else match acts[|acts| - 1]
      case Reset => MIRC_COLOR_UNKNOWN
      case Recolor(None, None) => MIRC_COLOR_UNKNOWN
      case Recolor(Some(n), _) => Legal(n)
      case _ => Foreground(acts[..|acts| - 1])
  }

  function Background(acts: seq<Action>): nat {
    if acts == [] then MIRC_COLOR_UNKNOWN
    else match acts[|acts| - 1]
      case Reset => MIRC_COLOR_UNKNOWN
      case Recolor(None, None) => MIRC_COLOR_UNKNOWN
      case Recolor(_, Some(n)) => Legal(n)
      case _ => Background(acts[..|acts| - 1])
  }

  // The foreground if it is in 0..15, else the background if it is, else none.
  function FlatStyle(acts: seq<Action>): Style {
    var fg, bg := Foreground(acts), Background(acts);
    Style(On(acts, Bold), On(acts, Italics), On(acts, Underline),
          if fg < MIRC_COLOR_UNKNOWN then Some(ColorName(fg)) else None,
          if fg >= MIRC_COLOR_UNKNOWN && bg < MIRC_COLOR_UNKNOWN then Some(ColorName(bg)) else None)
  }

  // The shown characters, each with the style the codes before it give it.
  function Meaning(acts: seq<Action>): seq<Styled> {
    if acts == [] then []
    else
      var before, last := acts[..|acts| - 1], acts[|acts| - 1];
      Meaning(before) + if last.Show? then [Styled(last.c, FlatStyle(before))] else []
  }

  // ------------------------------------------------------- the renderer's run

  datatype Pen = Pen(codes: seq<Code>, fg: nat, bg: nat, out: Markup)

  function Strike(p: Pen, ch: Code, fg: nat, bg: nat): Pen {
    Pen(Restack(p.codes, ch, fg, bg), fg, bg, p.out + Emission(p.codes, ch, fg, bg))
  }

  function NewColor(a: Action, mine: Option<nat>, old_: nat): nat
    requires a.Recolor?
  {
    match mine
    case Some(n) => Legal(n)
    case None => if a == Recolor(None, None) then MIRC_COLOR_UNKNOWN else old_
  }

  function Apply(p: Pen, a: Action): Pen {
    match a
    case Show(c) => p.(out := p.out + [Ch(c)])
    case Toggle(code) => Strike(p, code, p.fg, p.bg)
    case Reset => Strike(p, Plain, MIRC_COLOR_UNKNOWN, MIRC_COLOR_UNKNOWN)
    case Recolor(f, b) => Strike(p, Color, NewColor(a, f, p.fg), NewColor(a, b, p.bg))
  }

  function Draw(acts: seq<Action>): Pen {
    if acts == [] then Pen([], MIRC_COLOR_UNKNOWN, MIRC_COLOR_UNKNOWN, [])
    else Apply(Draw(acts[..|acts| - 1]), acts[|acts| - 1])
  }

  // The markup the colouriser writes for a run of text.
  function Colorized(t: string): Markup {
    Draw(Scan(t, 0) + [Reset]).out
  }

  // ---------------------------------------------- what emitted tags mean

  // The elements of codes[lo..hi], outermost first.
  function Elements(codes: seq<Code>, lo: nat, hi: nat, span: Elem): seq<Elem>
    requires hi <= |codes|
  {
    if hi <= lo then [] else Elements(codes, lo, hi - 1, span) + ElemsOf(codes[hi - 1], span)
  }

  // Elements depend on the codes below, and on the span only for a colour.
  lemma {:induction false} SameElements(a: seq<Code>, b: seq<Code>, n: nat, span: Elem, span': Elem)
    requires n <= |a| && n <= |b| && a[..n] == b[..n]
    requires span == span' || Color !in a[..n]
    ensures Elements(a, 0, n, span) == Elements(b, 0, n, span')
  {
    if n > 0 {
      assert a[..n - 1] == a[..n][..n - 1] && b[..n - 1] == b[..n][..n - 1];
      assert a[n - 1] == a[..n][n - 1] && b[n - 1] == b[..n][n - 1];
      SameElements(a, b, n - 1, span, span');
    }
  }

  lemma {:induction false} ReadClose(code: Code, open: seq<Elem>, span: Elem, gs: seq<Glyph>)
    requires span.name == "span"
    ensures Read(Close(code), View(open + ElemsOf(code, span), gs, true)) == View(open, gs, true)
  {
    var v := View(open + ElemsOf(code, span), gs, true);
    if Close(code) == [] {
      assert open + [] == open;
    } else {
      var e := ElemsOf(code, span)[0];
      assert Close(code) == [End(e.name)] && (open + [e])[..|open|] == open;
      assert [End(e.name)][..0] == [];
    }
  }

  lemma {:induction false} ReadOpen(code: Code, open: seq<Elem>, span: Elem, gs: seq<Glyph>)
    ensures Read(Open(code, span), View(open, gs, true)) == View(open + ElemsOf(code, span), gs, true)
  {
    if Open(code, span) == [] {
      assert open + [] == open;
    } else {
      var e := ElemsOf(code, span)[0];
      assert Open(code, span) == [Start(e)] && [Start(e)][..0] == [];
    }
  }

  lemma {:induction false} LastCode(codes: seq<Code>, bottom: nat, lo: nat, hi: nat, span: Elem)
    requires bottom <= lo < hi <= |codes|
    ensures Elements(codes, bottom, hi, span) == Elements(codes, bottom, hi - 1, span) + ElemsOf(codes[hi - 1], span)
    ensures CloseRange(codes, lo, hi) == Close(codes[hi - 1]) + CloseRange(codes, lo, hi - 1)
    ensures OpenRange(codes, lo, hi, span) == OpenRange(codes, lo, hi - 1, span) + Open(codes[hi - 1], span)
  {
  }

  ghost predicate ClosesTo(codes: seq<Code>, lo: nat, hi: nat, span: Elem, gs: seq<Glyph>)
    requires lo <= hi <= |codes|
  {
    Read(CloseRange(codes, lo, hi), View(Elements(codes, 0, hi, span), gs, true))
      == View(Elements(codes, 0, lo, span), gs, true)
  }

  lemma {:induction false} ClosesNothing(codes: seq<Code>, at: nat, span: Elem, gs: seq<Glyph>)
    requires at <= |codes|
    ensures ClosesTo(codes, at, at, span, gs)
  {
    assert CloseRange(codes, at, at) == [];
  }

  lemma {:induction false} CloseOneMore(codes: seq<Code>, lo: nat, hi: nat, span: Elem, gs: seq<Glyph>)
    requires lo < hi <= |codes| && span.name == "span" && ClosesTo(codes, lo, hi - 1, span, gs)
    ensures ClosesTo(codes, lo, hi, span, gs)
  {
    var code, v := codes[hi - 1], Elements(codes, 0, hi - 1, span);
    ReadClose(code, v, span, gs);
    ReadConcat(Close(code), CloseRange(codes, lo, hi - 1), View(v + ElemsOf(code, span), gs, true));
    LastCode(codes, 0, lo, hi, span);
  }

  lemma {:induction false} ReadCloseRange(codes: seq<Code>, lo: nat, hi: nat, span: Elem, gs: seq<Glyph>)
    requires lo <= hi <= |codes| && span.name == "span"
    ensures ClosesTo(codes, lo, hi, span, gs)
    decreases hi
  {
    hide ClosesTo;
    if lo == hi {
      ClosesNothing(codes, lo, span, gs);
    } else {
      ReadCloseRange(codes, lo, hi - 1, span, gs);
      CloseOneMore(codes, lo, hi, span, gs);
    }
  }

  // Reopening the codes above `p` on what is left below it.
  ghost predicate OpensTo(codes: seq<Code>, gap: seq<Code>, p: nat, hi: nat, span: Elem, gs: seq<Glyph>)
    requires p < hi <= |codes| && hi - 1 <= |gap|
  {
    Read(OpenRange(codes, p + 1, hi, span), View(Elements(gap, 0, p, span), gs, true))
      == View(Elements(gap, 0, hi - 1, span), gs, true)
  }

  lemma {:induction false} OpenOneMore(codes: seq<Code>, gap: seq<Code>, p: nat, hi: nat, span: Elem, gs: seq<Glyph>)
    requires p + 1 < hi <= |codes| && hi - 1 <= |gap| && gap[hi - 2] == codes[hi - 1]
    requires OpensTo(codes, gap, p, hi - 1, span, gs)
    ensures OpensTo(codes, gap, p, hi, span, gs)
  {
    var code, v := codes[hi - 1], Elements(gap, 0, hi - 2, span);
    ReadOpen(code, v, span, gs);
    ReadConcat(OpenRange(codes, p + 1, hi - 1, span), Open(code, span), View(Elements(gap, 0, p, span), gs, true));
    LastCode(codes, 0, p + 1, hi, span);
    LastCode(gap, 0, 0, hi - 1, span);
  }

  lemma {:induction false} ReadOpenRange(codes: seq<Code>, gap: seq<Code>, p: nat, hi: nat, span: Elem, gs: seq<Glyph>)
    requires p < hi <= |codes| && hi - 1 <= |gap|
    requires forall k :: p <= k < hi - 1 ==> gap[k] == codes[k + 1]
    ensures OpensTo(codes, gap, p, hi, span, gs)
    decreases hi
  {
    if p + 1 < hi {
      ReadOpenRange(codes, gap, p, hi - 1, span, gs);
      OpenOneMore(codes, gap, p, hi, span, gs);
    }
  }

  // ------------------------------------------- one control code, read back

  // Markup written so far leaves exactly the elements of the open codes open.
  ghost predicate Shows(out: Markup, codes: seq<Code>, span: Elem, gs: seq<Glyph>) {
    Read(out, BLANK) == View(Elements(codes, 0, |codes|, span), gs, true)
  }

  lemma {:induction false} ShowsNext(out: Markup, more: Markup, codes: seq<Code>, span: Elem, gs: seq<Glyph>, w: View)
    requires Shows(out, codes, span, gs)
    requires Read(more, View(Elements(codes, 0, |codes|, span), gs, true)) == w
    ensures Read(out + more, BLANK) == w
  {
    ReadConcat(out, more, BLANK);
  }

  lemma {:induction false} PushShows(out: Markup, codes: seq<Code>, ch: Code, span: Elem, gs: seq<Glyph>)
    requires Shows(out, codes, span, gs)
    ensures Shows(out + Open(ch, span), codes + [ch], span, gs)
  {
    var n := |codes|;
    ReadOpen(ch, Elements(codes, 0, n, span), span, gs);
    SameElements(codes, codes + [ch], n, span, span);
    ShowsNext(out, Open(ch, span), codes, span, gs, View(Elements(codes + [ch], 0, n + 1, span), gs, true));
  }

  lemma {:induction false} CutShows(out: Markup, codes: seq<Code>, p: nat, span: Elem, span': Elem, gs: seq<Glyph>)
    requires Shows(out, codes, span, gs) && p <= |codes| && span.name == "span"
    requires span == span' || Color !in codes[..p]
    ensures Shows(out + CloseRange(codes, p, |codes|), codes[..p], span', gs)
  {
    SameElements(codes, codes[..p], p, span, span');
    ReadCloseRange(codes, p, |codes|, span, gs);
    ShowsNext(out, CloseRange(codes, p, |codes|), codes, span, gs,
              View(Elements(codes[..p], 0, p, span'), gs, true));
  }

  lemma {:induction false} RegrowShows(out: Markup, codes: seq<Code>, below: seq<Code>, gap: seq<Code>, span: Elem,
                                       gs: seq<Glyph>)
    requires |below| <= |gap| == |codes| - 1 && gap[..|below|] == below
    requires forall k :: |below| <= k < |gap| ==> gap[k] == codes[k + 1]
    requires Shows(out, below, span, gs)
    ensures Shows(out + OpenRange(codes, |below| + 1, |codes|, span), gap, span, gs)
  {
    var p, n := |below|, |codes|;
    assert below[..p] == below;
    SameElements(below, gap, p, span, span);
    ReadOpenRange(codes, gap, p, n, span, gs);
    ShowsNext(out, OpenRange(codes, p + 1, n, span), below, span, gs,
              View(Elements(gap, 0, n - 1, span), gs, true));
  }

  // Taking out codes[p]: what was above it is closed and opened again.
  lemma {:induction false} TakeOutShows(out: Markup, codes: seq<Code>, p: nat, span: Elem, span': Elem, gs: seq<Glyph>)
    requires Shows(out, codes, span, gs) && p < |codes| && span.name == "span"
    requires span == span' || Color !in codes[..p]
    ensures Shows(out + CloseRange(codes, p, |codes|) + OpenRange(codes, p + 1, |codes|, span'),
                  codes[..p] + codes[p + 1..], span', gs)
  {
    CutShows(out, codes, p, span, span', gs);
    var gap := codes[..p] + codes[p + 1..];
    assert gap[..p] == codes[..p];
    RegrowShows(out + CloseRange(codes, p, |codes|), codes, codes[..p], gap, span', gs);
  }

  /** One control code: the open elements become those of the new stack. */
  lemma {:induction false} StrikeShows(p: Pen, ch: Code, fg: nat, bg: nat, gs: seq<Glyph>)
    requires Distinct(p.codes) && Shows(p.out, p.codes, SpanFor(p.fg, p.bg), gs)
    requires ch == Color || ch == Plain || (p.fg == fg && p.bg == bg)
    ensures Shows(Strike(p, ch, fg, bg).out, Strike(p, ch, fg, bg).codes, SpanFor(fg, bg), gs)
  {
    var codes, span := p.codes, SpanFor(fg, bg);
    DistinctMeans(codes);
    if ch == Plain {
      CutShows(p.out, codes, 0, SpanFor(p.fg, p.bg), span, gs);
      assert codes[..0] == [];
    } else if ch !in codes {
      FreshCode(codes, ch, fg, bg);
      StrikeFresh(p, ch, fg, bg, gs);
    } else {
      StrikeOpen(p, ch, IndexOf(codes, ch), fg, bg, gs);
    }
  }

  lemma {:induction false} StrikeFresh(p: Pen, ch: Code, fg: nat, bg: nat, gs: seq<Glyph>)
    requires ch !in p.codes && ch != Plain && Shows(p.out, p.codes, SpanFor(p.fg, p.bg), gs)
    requires ch == Color || (p.fg == fg && p.bg == bg)
    ensures Shows(Strike(p, ch, fg, bg).out, Strike(p, ch, fg, bg).codes, SpanFor(fg, bg), gs)
  {
    FreshCode(p.codes, ch, fg, bg);
    assert p.codes[..|p.codes|] == p.codes;
    SameElements(p.codes, p.codes, |p.codes|, SpanFor(p.fg, p.bg), SpanFor(fg, bg));
    if ch == Color && !Known(fg, bg) {
      assert p.out + [] == p.out && p.codes + [] == p.codes;
    } else {
      PushShows(p.out, p.codes, ch, SpanFor(fg, bg), gs);
    }
  }

  lemma {:induction false} StrikeOpen(p: Pen, ch: Code, j: nat, fg: nat, bg: nat, gs: seq<Glyph>)
    requires Distinct(p.codes) && j < |p.codes| && p.codes[j] == ch
    requires Shows(p.out, p.codes, SpanFor(p.fg, p.bg), gs)
    requires ch == Color || (p.fg == fg && p.bg == bg)
    ensures Shows(Strike(p, ch, fg, bg).out, Strike(p, ch, fg, bg).codes, SpanFor(fg, bg), gs)
  {
    var codes, span := p.codes, SpanFor(fg, bg);
    DistinctMeans(codes);
    OpenCodeAt(codes, ch, j, fg, bg);
    TakeOutShows(p.out, codes, j, SpanFor(p.fg, p.bg), span, gs);
    var out := p.out + CloseRange(codes, j, |codes|) + OpenRange(codes, j + 1, |codes|, span);
    var gap := codes[..j] + codes[j + 1..];
    if ch == Color && Known(fg, bg) {
      PushShows(out, gap, Color, span, gs);
      Regroup(p.out, CloseRange(codes, j, |codes|), OpenRange(codes, j + 1, |codes|, span), [Start(span)]);
    } else {
      Regroup(p.out, CloseRange(codes, j, |codes|), OpenRange(codes, j + 1, |codes|, span), []);
      assert out + [] == out && gap + [] == gap;
    }
  }

  // ------------------------------------------------------ what a stack shows

  // The style a stack of codes stands for.
  function StackStyle(codes: seq<Code>, fg: nat, bg: nat): Style {
    Style(Bold in codes, Italics in codes, Underline in codes,
          if Color in codes then Fore(fg) else None,
          if Color in codes then Back(fg, bg) else None)
  }

  lemma {:induction false} StyleOfElements(codes: seq<Code>, fg: nat, bg: nat)
    ensures StyleOf(Elements(codes, 0, |codes|, SpanFor(fg, bg))) == StackStyle(codes, fg, bg)
  {
    if codes != [] {
      var n := |codes| - 1;
      StyleOfElements(codes[..n], fg, bg);
      StyleOfPush(codes[..n], codes[n], fg, bg);
      assert codes == codes[..n] + [codes[n]];
    }
  }

  lemma {:induction false} StyleOfPush(codes: seq<Code>, code: Code, fg: nat, bg: nat)
    requires StyleOf(Elements(codes, 0, |codes|, SpanFor(fg, bg))) == StackStyle(codes, fg, bg)
    ensures StyleOf(Elements(codes + [code], 0, |codes| + 1, SpanFor(fg, bg))) == StackStyle(codes + [code], fg, bg)
  {
    SameElements(codes, codes + [code], |codes|, SpanFor(fg, bg), SpanFor(fg, bg));
    StyleOfOneMore(Elements(codes, 0, |codes|, SpanFor(fg, bg)), code, fg, bg);
    StackStylePush(codes, code, fg, bg);
  }

  lemma StackStylePush(codes: seq<Code>, code: Code, fg: nat, bg: nat)
    ensures StackStyle(codes + [code], fg, bg) == Restyle(StackStyle(codes, fg, bg), code, fg, bg)
  {
  }

  function Restyle(s: Style, code: Code, fg: nat, bg: nat): Style {
    match code
    case Bold => s.(bold := true)
    case Italics => s.(italic := true)
    case Underline => s.(underline := true)
    case Color => s.(fore := if Fore(fg).Some? then Fore(fg) else s.fore,
                     back := if Back(fg, bg).Some? then Back(fg, bg) else s.back)
    case _ => s
  }

  function Fore(fg: nat): Option<string> {
    if fg < MIRC_COLOR_UNKNOWN then Some(ColorName(fg)) else None
  }

  function Back(fg: nat, bg: nat): Option<string> {
    if fg >= MIRC_COLOR_UNKNOWN && bg < MIRC_COLOR_UNKNOWN then Some(ColorName(bg)) else None
  }

  lemma {:induction false} StyleOfOneMore(below: seq<Elem>, code: Code, fg: nat, bg: nat)
    ensures StyleOf(below + ElemsOf(code, SpanFor(fg, bg))) == Restyle(StyleOf(below), code, fg, bg)
  {
    var es := ElemsOf(code, SpanFor(fg, bg));
    if es == [] {
      assert below + es == below;
    } else {
      assert es == [es[0]] && (below + es)[..|below|] == below;
      if code == Color {
        SpanAttrs(fg, bg);
      }
    }
  }

  lemma {:induction false} SpanAttrs(fg: nat, bg: nat)
    ensures SpanFor(fg, bg).name == "span"
    ensures Attr(SpanFor(fg, bg).attrs, "foreground") == Fore(fg)
    ensures Attr(SpanFor(fg, bg).attrs, "background") == Back(fg, bg)
  {
    if fg < MIRC_COLOR_UNKNOWN {
      assert Attr([("foreground", ColorName(fg))][1..], "background") == None;
    } else if bg < MIRC_COLOR_UNKNOWN {
      assert Attr([("background", ColorName(bg))][1..], "foreground") == None;
    }
  }

  ghost predicate Restacked(was: seq<Code>, new_: seq<Code>, ch: Code, known: bool) {
    && Distinct(new_)
    && (forall c :: c != ch && ch != Plain ==> (c in new_ <==> c in was))
    && (ch != Color && ch != Plain ==> (ch in new_ <==> ch !in was))
    && (ch == Color ==> (Color in new_ <==> known))
  }

  lemma {:induction false} RestackFresh(codes: seq<Code>, ch: Code, fg: nat, bg: nat)
    requires Distinct(codes) && ch !in codes && ch != Plain
    ensures Restacked(codes, Restack(codes, ch, fg, bg), ch, Known(fg, bg))
  {
    FreshCode(codes, ch, fg, bg);
    if ch == Color && !Known(fg, bg) {
      assert codes + [] == codes;
    } else {
      DistinctPush(codes, ch);
      MembersOfPush(codes, ch);
    }
  }

  lemma MembersOfPush(codes: seq<Code>, ch: Code)
    ensures forall c :: c in codes + [ch] <==> c in codes || c == ch
  {
  }

  lemma {:induction false} GapMembers(codes: seq<Code>, j: nat)
    requires Distinct(codes) && j < |codes|
    ensures forall c :: c in codes[..j] + codes[j + 1..] <==> c in codes && c != codes[j]
  {
    GapLacks(codes, j);
    forall c | c in codes && c != codes[j] ensures c in codes[..j] + codes[j + 1..] {
      var k :| 0 <= k < |codes| && codes[k] == c;
      assert c == if k < j then codes[..j][k] else codes[j + 1..][k - j - 1];
    }
  }

  lemma {:induction false} RestackOpen(codes: seq<Code>, ch: Code, j: nat, fg: nat, bg: nat)
    requires Distinct(codes) && j < |codes| && codes[j] == ch
    ensures Restacked(codes, Restack(codes, ch, fg, bg), ch, Known(fg, bg))
  {
    var gap := codes[..j] + codes[j + 1..];
    DistinctMeans(codes);
    OpenCodeAt(codes, ch, j, fg, bg);
    DistinctGap(codes, j);
    GapMembers(codes, j);
    if ch == Color && Known(fg, bg) {
      DistinctPush(gap, ch);
    } else {
      assert gap + [] == gap;
    }
  }

  lemma {:induction false} RestackMembers(codes: seq<Code>, ch: Code, fg: nat, bg: nat)
    requires Distinct(codes)
    ensures Restacked(codes, Restack(codes, ch, fg, bg), ch, Known(fg, bg))
  {
    if ch in codes {
      RestackOpen(codes, ch, IndexOf(codes, ch), fg, bg);
    } else if ch != Plain {
      RestackFresh(codes, ch, fg, bg);
    }
  }

  lemma {:induction false} DistinctGap(codes: seq<Code>, j: nat)
    requires Distinct(codes) && j < |codes|
    ensures Distinct(codes[..j] + codes[j + 1..])
  {
    var n := |codes| - 1;
    if j == n {
      assert codes[..j] + codes[j + 1..] == codes[..n];
    } else {
      DistinctGap(codes[..n], j);
      var gap := codes[..n][..j] + codes[..n][j + 1..];
      assert codes[..j] + codes[j + 1..] == gap + [codes[n]];
      DistinctPush(gap, codes[n]);
    }
  }

  // ------------------------------------------------------------ the invariant

  // Only the five toggles appear as toggles.
  ghost predicate Scanned(acts: seq<Action>) {
    forall a <- acts :: a.Toggle? ==> a.code != Plain && a.code != Color
  }

  /** What holds between control codes: stack entries are distinct, a toggle is
    * on the stack iff it is on, COLOR is on it iff a colour is known, the
    * elements left open are those of the stack, and what was written reads as
    * the flat meaning. */
  ghost predicate InStep(acts: seq<Action>, p: Pen) {
    var v := Read(p.out, BLANK);
    && Distinct(p.codes)
    && p.fg == Foreground(acts) <= MIRC_COLOR_UNKNOWN && p.bg == Background(acts) <= MIRC_COLOR_UNKNOWN
    && (Color in p.codes <==> Known(p.fg, p.bg))
    && (forall c :: c != Color && c != Plain ==> (c in p.codes <==> On(acts, c)))
    && Shows(p.out, p.codes, SpanFor(p.fg, p.bg), v.glyphs)
    && Styles(v.glyphs) == Meaning(acts)
  }

  lemma {:induction false} StackIsFlat(acts: seq<Action>, p: Pen)
    requires InStep(acts, p)
    ensures StyleOf(Elements(p.codes, 0, |p.codes|, SpanFor(p.fg, p.bg))) == FlatStyle(acts)
  {
    StyleOfElements(p.codes, p.fg, p.bg);
  }

  lemma {:induction false} ShowStep(acts: seq<Action>, p: Pen, c: char)
    requires InStep(acts, p)
    ensures InStep(acts + [Show(c)], Apply(p, Show(c)))
  {
    StackIsFlat(acts, p);
    var gs, es := Read(p.out, BLANK).glyphs, Elements(p.codes, 0, |p.codes|, SpanFor(p.fg, p.bg));
    ReadConcat(p.out, [Ch(c)], BLANK);
    assert Read([Ch(c)], View(es, gs, true)) == View(es, gs + [Glyph(c, es)], true) by {
      assert [Ch(c)][..0] == [];
    }
    assert Styles(gs + [Glyph(c, es)]) == Styles(gs) + [Styled(c, StyleOf(es))];
    AfterShow(acts, c);
  }

  lemma {:induction false} AfterShow(acts: seq<Action>, c: char)
    ensures Meaning(acts + [Show(c)]) == Meaning(acts) + [Styled(c, FlatStyle(acts))]
    ensures Foreground(acts + [Show(c)]) == Foreground(acts) && Background(acts + [Show(c)]) == Background(acts)
    ensures forall code :: On(acts + [Show(c)], code) == On(acts, code)
  {
    assert (acts + [Show(c)])[..|acts|] == acts;
  }

  lemma {:induction false} AfterCode(acts: seq<Action>, a: Action)
    requires !a.Show?
    ensures Meaning(acts + [a]) == Meaning(acts)
    ensures Foreground(acts + [a]) == match a
      case Reset => MIRC_COLOR_UNKNOWN
      case Recolor(f, b) => NewColor(a, f, Foreground(acts))
      case _ => Foreground(acts)
    ensures Background(acts + [a]) == match a
      case Reset => MIRC_COLOR_UNKNOWN
      case Recolor(f, b) => NewColor(a, b, Background(acts))
      case _ => Background(acts)
    ensures forall c :: On(acts + [a], c) == (a != Reset && (On(acts, c) <==> a != Toggle(c)))
  {
    assert (acts + [a])[..|acts|] == acts;
  }

  lemma {:induction false} StrikeStep(acts: seq<Action>, p: Pen, a: Action, ch: Code, fg: nat, bg: nat)
    requires InStep(acts, p) && !a.Show?
    requires if a.Toggle? then ch == a.code && ch != Plain && ch != Color
             else ch == if a.Reset? then Plain else Color
    requires fg == Foreground(acts + [a]) <= MIRC_COLOR_UNKNOWN
    requires bg == Background(acts + [a]) <= MIRC_COLOR_UNKNOWN
    ensures InStep(acts + [a], Strike(p, ch, fg, bg))
  {
    var gs := Read(p.out, BLANK).glyphs;
    AfterCode(acts, a);
    StrikeShows(p, ch, fg, bg, gs);
    RestackMembers(p.codes, ch, fg, bg);
  }

  lemma {:induction false} DrawInStep(acts: seq<Action>)
    requires Scanned(acts)
    ensures InStep(acts, Draw(acts))
  {
    if acts == [] {
      assert Styles([]) == [];
    } else {
      var before, a := acts[..|acts| - 1], acts[|acts| - 1];
      assert acts == before + [a];
      DrawInStep(before);
      ApplyInStep(before, Draw(before), a);
    }
  }

  lemma {:induction false} ApplyInStep(acts: seq<Action>, p: Pen, a: Action)
    requires InStep(acts, p) && (a.Toggle? ==> a.code != Plain && a.code != Color)
    ensures InStep(acts + [a], Apply(p, a))
  {
    AfterCode(acts, if a.Show? then Reset else a);
    match a
    case Show(c) => ShowStep(acts, p, c);
    case Toggle(code) => StrikeStep(acts, p, a, code, p.fg, p.bg);
    case Reset => StrikeStep(acts, p, a, Plain, MIRC_COLOR_UNKNOWN, MIRC_COLOR_UNKNOWN);
    case Recolor(f, b) => StrikeStep(acts, p, a, Color, NewColor(a, f, p.fg), NewColor(a, b, p.bg));
  }

  lemma {:induction false} ScanIsScanned(t: string, i: nat)
    requires i <= |t|
    ensures Scanned(Scan(t, i))
    decreases |t| - i
  {
    if i < |t| {
      ScanIsScanned(t, ScanStep(t, i).next);
    }
  }

  /** At every point of every text the stack is in step with the flat codes,
    * and it never holds more than six entries, so 128 is never reached. */
  lemma StackDiscipline(t: string, k: nat)
    requires k <= |Scan(t, 0)|
    ensures InStep(Scan(t, 0)[..k], Draw(Scan(t, 0)[..k]))
    ensures |Draw(Scan(t, 0)[..k]).codes| <= 6 < MAX_CTX_STACK_SIZE
  {
    ScanIsScanned(t, 0);
    DrawInStep(Scan(t, 0)[..k]);
    DistinctIsShort(Draw(Scan(t, 0)[..k]).codes);
  }

  /** Rendering preserves meaning: the emitted markup is well formed, and reading
    * it gives each shown character exactly its flat style. */
  lemma RenderingPreservesMeaning(t: string)
    ensures WellFormed(Colorized(t))
    ensures Styles(Read(Colorized(t), BLANK).glyphs) == Meaning(Scan(t, 0))
  {
    ScanIsScanned(t, 0);
    DrawInStep(Scan(t, 0) + [Reset]);
    AfterCode(Scan(t, 0), Reset);
    assert Draw(Scan(t, 0) + [Reset]).codes == [] by {
      assert (Scan(t, 0) + [Reset])[..|Scan(t, 0)|] == Scan(t, 0);
    }
  }

  lemma {:induction false} MeaningSpells(acts: seq<Action>, gs: seq<Glyph>)
    requires Styles(gs) == Meaning(acts)
    ensures GlyphText(gs) == Shown(acts)
  {
    if acts == [] {
      assert |Styles(gs)| == 0;
    } else {
      var before, last := acts[..|acts| - 1], acts[|acts| - 1];
      if last.Show? {
        var n := |gs| - 1;
        assert |Styles(gs)| == |Meaning(before)| + 1;
        assert Styles(gs[..n]) == Styles(gs)[..n] == Meaning(before);
        MeaningSpells(before, gs[..n]);
        assert Styles(gs)[n] == Styled(last.c, FlatStyle(before));
        assert GlyphText(gs) == GlyphText(gs[..n]) + [gs[n].c];
      } else {
        MeaningSpells(before, gs);
      }
    }
  }

  lemma MarkupSpells(m: Markup, acts: seq<Action>)
    requires Styles(Read(m, BLANK).glyphs) == Meaning(acts)
    ensures PlainText(m) == Shown(acts)
  {
    MeaningSpells(acts, Read(m, BLANK).glyphs);
    GlyphsSpellPlainText(m, BLANK);
  }

  /** Deleting the tags of the coloured text gives exactly the stripped text. */
  lemma ColorizedSpellsShown(t: string)
    ensures PlainText(Colorized(t)) == Shown(Scan(t, 0))
  {
    RenderingPreservesMeaning(t);
    MarkupSpells(Colorized(t), Scan(t, 0));
  }
}
