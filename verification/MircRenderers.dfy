/** The `text` callbacks of the two mIRC renderers, run on one stretch of text. */
module MircRenderers {
  import opened Wrappers
  import opened Sequences
  import opened Markup
  import opened MircCodes
  import opened MircColorize
  import opened MircMeaning

  // The context's state is the pen of the codes scanned so far.
  ghost predicate Holds(ctx: ColorlizeContext, markup: Markup, acts: seq<Action>)
    reads ctx, ctx.stack
  {
    && ctx.Valid() && Scanned(acts)
    && Draw(acts) == Pen(ctx.codes, ctx.fg, ctx.bg, Draw(acts).out)
    && ctx.str == markup + Draw(acts).out
  }

  // Between codes, whatever would be reopened is known and legal.
  lemma {:induction false} InStepReopens(acts: seq<Action>, ch: Code)
    requires Scanned(acts)
    ensures var p := Draw(acts); Distinct(p.codes) && Reopens(p.codes, ch, p.fg, p.bg)
    ensures Draw(acts).fg <= MIRC_COLOR_UNKNOWN && Draw(acts).bg <= MIRC_COLOR_UNKNOWN
  {
    DrawInStep(acts);
    var p := Draw(acts);
    forall k | 0 <= k < |p.codes| && p.codes[k] == ch && Color in p.codes[k + 1..]
      ensures Showing(p.fg, p.bg)
    {
      assert Color in p.codes;
    }
  }

  lemma {:induction false} ColorReopens(codes: seq<Code>, fg: nat, bg: nat)
    requires Distinct(codes)
    ensures Reopens(codes, Color, fg, bg)
  {
    forall k | 0 <= k < |codes| && codes[k] == Color ensures Color !in codes[k + 1..] {
      GapLacks(codes, k);
    }
  }

  lemma {:induction false} DrawMore(acts: seq<Action>, a: Action)
    ensures Draw(acts + [a]) == Apply(Draw(acts), a)
  {
    assert (acts + [a])[..|acts|] == acts;
  }

  /** The colouriser's callback appends the markup of the text. */
  method ColorizeText(text: string, markup: Markup) returns (out: Markup)
    ensures out == markup + Colorized(text)
  {
    var ctx := new ColorlizeContext(markup);
    ghost var acts: seq<Action> := [];
    var i := 0;
    while i < |text|
      invariant ScannedTo(text, i, acts)
      invariant fresh(ctx) && fresh(ctx.stack)
      invariant Holds(ctx, markup, acts)
    {
      ScanOneMore(text, i, acts);
      ghost var step := ScanStep(text, i);
      i := ColorizeStep(ctx, text, i, markup, acts);
      acts := acts + [step.act];
    }
    assert acts == Scan(text, 0);
    InStepReopens(acts, Plain);
    DoCode(ctx, Plain, markup, acts, Reset);
    out := ctx.str;
  }

  // One control code, whose colours are already in the context.
  method DoCode(ctx: ColorlizeContext, ch: Code, ghost markup: Markup, ghost acts: seq<Action>, ghost a: Action)
    requires ctx.Valid() && Scanned(acts) && Scanned([a])
    requires ctx.codes == Draw(acts).codes && ctx.str == markup + Draw(acts).out
    requires Reopens(ctx.codes, ch, ctx.fg, ctx.bg)
    requires Apply(Draw(acts), a) == Strike(Draw(acts), ch, ColorAfter(ch, ctx.fg), ColorAfter(ch, ctx.bg))
    modifies ctx, ctx.stack
    ensures Holds(ctx, markup, acts + [a])
  {
    DrawMore(acts, a);
    assert a in [a];
    StrikeCode(ctx, ch, markup, Draw(acts));
  }

  method StrikeCode(ctx: ColorlizeContext, ch: Code, ghost markup: Markup, ghost p: Pen)
    requires ctx.Valid() && Reopens(ctx.codes, ch, ctx.fg, ctx.bg)
    requires ctx.codes == p.codes && ctx.str == markup + p.out
    modifies ctx, ctx.stack
    ensures ctx.Valid()
    ensures var q := Strike(p, ch, ColorAfter(ch, old(ctx.fg)), ColorAfter(ch, old(ctx.bg)));
      q == Pen(ctx.codes, ctx.fg, ctx.bg, q.out) && ctx.str == markup + q.out
  {
    ctx.DoColorize(ch);
    JoinLater(markup, p.out, Emission(p.codes, ch, ctx.fg, ctx.bg));
  }

  // One turn of the scanning loop.
  method ColorizeStep(ctx: ColorlizeContext, text: string, i: nat, ghost markup: Markup, ghost acts: seq<Action>)
      returns (next: nat)
    requires i < |text| && Holds(ctx, markup, acts)
    modifies ctx, ctx.stack
    ensures next == ScanStep(text, i).next
    ensures Holds(ctx, markup, acts + [ScanStep(text, i).act])
  {
    next := i + 1;
    match CodeOf(text[i]) {
      case Some(Color) =>
        next := ColorStep(ctx, text, i, markup, acts);
      case Some(Plain) =>
        InStepReopens(acts, Plain);
        DoCode(ctx, Plain, markup, acts, Reset);
      case Some(code) =>
        InStepReopens(acts, code);
        DoCode(ctx, code, markup, acts, Toggle(code));
      case None =>
        DrawMore(acts, Show(text[i]));
        ctx.str := ctx.str + [Ch(text[i])];
    }
  }

  // A colour code restyles with the colours it names, or with none.
  method ColorStep(ctx: ColorlizeContext, text: string, i: nat, ghost markup: Markup, ghost acts: seq<Action>)
      returns (next: nat)
    requires i < |text| && Holds(ctx, markup, acts)
    modifies ctx, ctx.stack
    ensures next == ReadColor(text, i).next
    ensures Holds(ctx, markup, acts + [Recolor(ReadColor(text, i).fg, ReadColor(text, i).bg)])
  {
    var fg, bg;
    fg, bg, next := ReadColorCode(text, i);
    if fg.Some? {
      ctx.fg := fg.value;
    }
    if bg.Some? {
      ctx.bg := bg.value;
    }
    if fg.None? && bg.None? {
      ctx.fg, ctx.bg := MIRC_COLOR_UNKNOWN, MIRC_COLOR_UNKNOWN;
    }
    InStepReopens(acts, Color);
    ColorReopens(ctx.codes, ctx.fg, ctx.bg);
    DoCode(ctx, Color, markup, acts, Recolor(fg, bg));
  }

  /** The stripper's callback appends what is shown of the text. */
  method StripText(text: string, markup: Markup) returns (out: Markup)
    ensures out == markup + Escaped(Shown(Scan(text, 0)))
  {
    out := markup;
    ghost var acts: seq<Action> := [];
    var i := 0;
    while i < |text|
      invariant ScannedTo(text, i, acts)
      invariant out == markup + Escaped(Shown(acts))
    {
      ghost var step := ScanStep(text, i);
      ScanOneMore(text, i, acts);
      ShownMore(acts, step.act);
      out, i := StripStep(text, i, out);
      acts := acts + [step.act];
    }
    assert acts == Scan(text, 0);
  }

  method StripStep(text: string, i: nat, markup: Markup) returns (out: Markup, next: nat)
    requires i < |text|
    ensures var s := ScanStep(text, i);
      next == s.next && out == markup + if s.act.Show? then [Ch(s.act.c)] else []
  {
    out, next := markup, i + 1;
    match CodeOf(text[i]) {
      case Some(Color) =>
        var _, _, after := ReadColorCode(text, i);
        next := after;
      case Some(_) =>
      case None =>
        out := out + [Ch(text[i])];
    }
  }

  lemma {:induction false} ShownMore(acts: seq<Action>, a: Action)
    ensures Escaped(Shown(acts + [a])) == Escaped(Shown(acts)) + if a.Show? then [Ch(a.c)] else []
  {
    assert (acts + [a])[..|acts|] == acts;
  }

  // What the stripper leaves of a text.
  function Stripped(t: string): string {
    Shown(Scan(t, 0))
  }

  /** The two renderers agree: the coloured markup without its tags is the stripped text. */
  lemma ColorizerAgreesWithStripper(t: string)
    ensures PlainText(Colorized(t)) == Stripped(t) == PlainText(Escaped(Stripped(t)))
  {
    ColorizedSpellsShown(t);
    PlainOfEscaped(Stripped(t));
  }

  /** Stripped text holds none of the seven codes, so stripping is idempotent. */
  lemma StrippingIsIdempotent(t: string)
    ensures forall c <- Stripped(t) :: CodeOf(c) == None
    ensures Stripped(Stripped(t)) == Stripped(t)
  {
    ScanShowsNoCode(t, 0);
    ShownOfShows(Scan(t, 0));
    ScanOfPlain(Stripped(t), 0);
  }
}
