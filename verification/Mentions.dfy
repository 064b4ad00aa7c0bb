/** What marking mentions does to the styles of a message's characters. */
module Mentions {
  import opened Wrappers
  import opened Sequences
  import opened Markup
  import opened Passes

  // ------------------------------------------------ one stretch of text

  function Flags(n: nat, on: bool): seq<bool> {
    seq(n, _ => on)
  }

  // Which characters of the text from `from` on belong to a mention.
  function MentionMask(env: Env, s: string, from: nat): seq<bool>
    requires from <= |s|
    decreases |s| - from
  {
    match env.mention(s, from)
    case None => Flags(|s| - from, false)
    case Some(r) => Flags(r.start - from, false) + Flags(r.end - r.start, true) + MentionMask(env, s, r.end)
  }

  // The elements around a mention.
  const SPOT: seq<Elem> := [Elem("span", [("foreground", MENTION_COLOR)]), Elem("b", [])]

  // Characters of which some are mentions.
  function Spotted(t: string, mask: seq<bool>): seq<Glyph>
    requires |mask| == |t|
  {
    seq(|t|, i requires 0 <= i < |t| => Glyph(t[i], if mask[i] then SPOT else []))
  }

  // Markup that reads as those characters.
  ghost predicate Spots(m: Markup, t: string, mask: seq<bool>) {
    |mask| == |t| && Read(m, BLANK) == View([], Spotted(t, mask), true)
  }

  lemma {:induction false} SpotsBoth(a: Markup, s: string, p: seq<bool>, b: Markup, t: string, q: seq<bool>)
    requires Spots(a, s, p) && Spots(b, t, q)
    ensures Spots(a + b, s + t, p + q)
  {
    ReadConcat(a, b, BLANK);
    ReadInside(b, Read(a, BLANK));
    InsideNothing(Spotted(t, q));
    SpottedBoth(s, p, t, q);
  }

  lemma {:induction false} InsideNothing(gs: seq<Glyph>)
    ensures Inside([], gs) == gs
  {
    assert forall k | 0 <= k < |gs| :: [] + gs[k].within == gs[k].within;
  }

  lemma {:induction false} SpottedBoth(s: string, p: seq<bool>, t: string, q: seq<bool>)
    requires |p| == |s| && |q| == |t|
    ensures Spotted(s, p) + Spotted(t, q) == Spotted(s + t, p + q)
  {
  }

  lemma {:induction false} SpotsEscaped(t: string)
    ensures Spots(Escaped(t), t, Flags(|t|, false))
  {
    ReadEscaped(t, BLANK);
    var gs := seq(|t|, i requires 0 <= i < |t| => Glyph(t[i], []));
    assert [] + gs == gs == Spotted(t, Flags(|t|, false));
  }

  lemma {:induction false} SpotsMark(t: string)
    ensures Spots(Mark(t), t, Flags(|t|, true))
  {
    var span, b := Elem("span", [("foreground", MENTION_COLOR)]), Elem("b", []);
    FitsEscaped(t);
    FitsWrapped(b, Escaped(t), t);
    FitsWrapped(span, [Start(b)] + Escaped(t) + [End("b")], t);
    assert Mark(t) == [Start(span)] + ([Start(b)] + Escaped(t) + [End("b")]) + [End("span")];
    WrappedReads(span, [Start(b)] + Escaped(t) + [End("b")]);
    SpotsEscaped(t);
    assert Inside([span], Inside([b], Spotted(t, Flags(|t|, false)))) == Spotted(t, Flags(|t|, true)) by {
      assert [b] + [] == [b] && [span] + [b] == SPOT;
    }
  }

  lemma {:induction false} NoMention(env: Env, s: string, from: nat)
    requires from <= |s| && env.mention(s, from) == None
    ensures Marked(env, s, from) == Escaped(s[from..])
    ensures MentionMask(env, s, from) == Flags(|s[from..]|, false)
  {
  }

  lemma {:induction false} FirstMention(env: Env, s: string, from: nat, r: Range)
    requires from <= |s| && env.mention(s, from) == Some(r)
    ensures Marked(env, s, from) == Escaped(s[from..r.start]) + Mark(s[r.start..r.end]) + Marked(env, s, r.end)
    ensures MentionMask(env, s, from)
         == Flags(r.start - from, false) + Flags(r.end - r.start, true) + MentionMask(env, s, r.end)
  {
    hide Escaped, Mark, Flags;
  }

  lemma {:induction false} SpotsMarked(env: Env, s: string, from: nat)
    requires from <= |s|
    ensures Spots(Marked(env, s, from), s[from..], MentionMask(env, s, from))
    decreases |s| - from
  {
    hide Spots, Escaped, Mark, Flags, Marked, MentionMask;
    match env.mention(s, from)
    case None =>
      NoMention(env, s, from);
      SpotsEscaped(s[from..]);
    case Some(r) =>
      SpotsMarked(env, s, r.end);
      SpotsNext(s, from, r, Marked(env, s, r.end), MentionMask(env, s, r.end));
      FirstMention(env, s, from, r);
  }

  lemma {:induction false} SpotsNext(s: string, from: nat, r: Range, rest: Markup, mask: seq<bool>)
    requires from <= r.start <= r.end <= |s| && Spots(rest, s[r.end..], mask)
    ensures Spots(Escaped(s[from..r.start]) + Mark(s[r.start..r.end]) + rest, s[from..],
                  Flags(r.start - from, false) + Flags(r.end - r.start, true) + mask)
  {
    hide Spots, Escaped, Mark;
    var gap, hit := s[from..r.start], s[r.start..r.end];
    SpotsEscaped(gap);
    SpotsMark(hit);
    SpotsBoth(Escaped(gap), gap, Flags(|gap|, false), Mark(hit), hit, Flags(|hit|, true));
    SpotsBoth(Escaped(gap) + Mark(hit), gap + hit, Flags(|gap|, false) + Flags(|hit|, true), rest, s[r.end..], mask);
    ThreeParts(s, from, r.start, r.end);
  }

  // --------------------------------------------------------- a whole pass

  // A mention is bold and in its own colour; what else was set stays.
  function Lit(s: Style): Style {
    s.(bold := true, fore := Some("#549ee7"))
  }

  function Highlighted(ss: seq<Styled>, mask: seq<bool>): seq<Styled>
    requires |mask| == |ss|
  {
    seq(|ss|, i requires 0 <= i < |ss| => if mask[i] then Styled(ss[i].c, Lit(ss[i].style)) else ss[i])
  }

  // Which characters of the markup from i on belong to a mention.
  function MaskFrom(env: Env, m: Markup, i: nat): seq<bool>
    requires i <= |m|
    decreases |m| - i
  {
    if i == |m| then []
    else if m[i].Ch? then MentionMask(env, RunText(m, i, RunEnd(m, i)), 0) + MaskFrom(env, m, RunEnd(m, i))
    else MaskFrom(env, m, i + 1)
  }

  lemma {:induction false} StyleOfSpot(open: seq<Elem>)
    ensures StyleOf(open + SPOT) == Lit(StyleOf(open))
  {
    var span, b := Elem("span", [("foreground", MENTION_COLOR)]), Elem("b", []);
    assert open + SPOT == open + [span] + [b];
    StylePushed(open, span);
    StylePushed(open + [span], b);
    SpanLights(StyleOf(open), span);
  }

  lemma {:induction false} StylePushed(open: seq<Elem>, e: Elem)
    ensures StyleOf(open + [e]) == Dress(StyleOf(open), e)
  {
    assert (open + [e])[..|open|] == open;
  }

  lemma {:induction false} SpanLights(s: Style, span: Elem)
    requires span == Elem("span", [("foreground", MENTION_COLOR)])
    ensures Dress(s, span) == s.(fore := Some(MENTION_COLOR))
  {
    assert span.attrs[1..] == [] && Attr([], "background") == None;
    assert span.attrs[0].0[0] == 'f' && "background"[0] == 'b';
    assert Attr(span.attrs, "background") == None;
  }

  // Two readings that agree on the open elements, and on the styles but for the
  // mentions.
  ghost predicate AgreeBut(v: View, w: View, mask: seq<bool>) {
    && w.ok && v.ok && w.open == v.open && |mask| == |v.glyphs|
    && Styles(w.glyphs) == Highlighted(Styles(v.glyphs), mask)
  }

  lemma {:induction false} HighlightedBoth(a: seq<Styled>, p: seq<bool>, b: seq<Styled>, q: seq<bool>)
    requires |p| == |a| && |q| == |b|
    ensures Highlighted(a + b, p + q) == Highlighted(a, p) + Highlighted(b, q)
  {
  }

  // A stretch of text inside open elements.
  lemma {:induction false} SpotsInside(open: seq<Elem>, t: string, mask: seq<bool>)
    requires |mask| == |t|
    ensures var gs := seq(|t|, i requires 0 <= i < |t| => Glyph(t[i], open));
      Styles(Inside(open, Spotted(t, mask))) == Highlighted(Styles(gs), mask)
  {
    StyleOfSpot(open);
    assert open + [] == open;
  }

  lemma {:induction false} PieceBut(env: Env, run: string, v: View, w: View, mask: seq<bool>)
    requires AgreeBut(v, w, mask)
    ensures AgreeBut(Read(Escaped(run), v), Read(Marker(env)(run), w), mask + MentionMask(env, run, 0))
  {
    hide MentionMask, Marked;
    var p := Marked(env, run, 0);
    assert Marker(env)(run) == p;
    SpotsMarked(env, run, 0);
    assert run[0..] == run;
    ReadEscaped(run, v);
    ReadInside(p, w);
    assert w.open + [] == w.open;
    PieceStyles(v, w, mask, run, MentionMask(env, run, 0));
  }

  lemma {:induction false} PieceStyles(v: View, w: View, mask: seq<bool>, run: string, more: seq<bool>)
    requires AgreeBut(v, w, mask) && |more| == |run|
    ensures var gs := seq(|run|, i requires 0 <= i < |run| => Glyph(run[i], v.open));
      && |mask + more| == |v.glyphs + gs|
      && Styles(w.glyphs + Inside(w.open, Spotted(run, more))) == Highlighted(Styles(v.glyphs + gs), mask + more)
  {
    var gs := seq(|run|, i requires 0 <= i < |run| => Glyph(run[i], v.open));
    SpotsInside(w.open, run, more);
    StylesJoin(v.glyphs, gs);
    StylesJoin(w.glyphs, Inside(w.open, Spotted(run, more)));
    HighlightedBoth(Styles(v.glyphs), mask, Styles(gs), more);
  }

  lemma {:induction false} PassHighlights(env: Env, m: Markup, i: nat, v: View, w: View, mask: seq<bool>)
    requires i <= |m| && NoRoot(m) && Read(m[i..], v).ok && AgreeBut(v, w, mask)
    ensures AgreeBut(Read(m[i..], v), Read(PassFrom(Marker(env), m, i), w), mask + MaskFrom(env, m, i))
    decreases |m| - i
  {
    hide AgreeBut, Marker;
    if i == |m| {
      assert m[i..] == [] && mask + [] == mask;
    } else if m[i].Ch? {
      var j := RunEnd(m, i);
      var run := RunText(m, i, j);
      RunIsEscaped(m, i, j);
      ReadConcat(Escaped(run), m[j..], v);
      PieceBut(env, run, v, w, mask);
      ReadConcat(Marker(env)(run), PassFrom(Marker(env), m, j), w);
      PassHighlights(env, m, j, Read(Escaped(run), v), Read(Marker(env)(run), w), mask + MentionMask(env, run, 0));
      JoinLater(mask, MentionMask(env, run, 0), MaskFrom(env, m, j));
    } else {
      ReadFirst(m, i, v);
      OkSticks(m[i + 1..], Enter(v, m[i]));
      ReadTag(Marker(env), m, i, w);
      TagBut(v, w, mask, m[i]);
      PassHighlights(env, m, i + 1, Enter(v, m[i]), Enter(w, m[i]), mask);
    }
  }

  lemma {:induction false} TagBut(v: View, w: View, mask: seq<bool>, it: Item)
    requires AgreeBut(v, w, mask) && !it.Ch? && Enter(v, it).ok
    ensures AgreeBut(Enter(v, it), Enter(w, it), mask)
  {
  }

  /** Marking mentions leaves every character outside them the style it had, and makes
    * those inside bold and of the mention colour. */
  lemma {:induction false} MarkingHighlights(env: Env, m: Markup)
    requires WellFormed(m) && NoRoot(m)
    ensures var gs := Read(m, BLANK).glyphs;
      && |MaskFrom(env, m, 0)| == |gs|
      && Styles(Read(PassFrom(Marker(env), m, 0), BLANK).glyphs) == Highlighted(Styles(gs), MaskFrom(env, m, 0))
  {
    assert m[0..] == m && [] + MaskFrom(env, m, 0) == MaskFrom(env, m, 0);
    PassHighlights(env, m, 0, BLANK, BLANK, []);
  }
}
