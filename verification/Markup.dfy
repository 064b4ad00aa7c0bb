/** Markup as the GMarkup callbacks see it: element starts, element ends and
  * characters of text.  `Read` interprets markup: it keeps the elements that
  * are open, gives every character the elements around it, and notices an end
  * tag that does not match. */
module Markup {
  import opened Wrappers

  datatype Elem = Elem(name: string, attrs: seq<(string, string)>)
  datatype Item = Start(elem: Elem) | End(name: string) | Ch(c: char)
  type Markup = seq<Item>

  // A character and the elements around it, outermost first.
  datatype Glyph = Glyph(c: char, within: seq<Elem>)
  datatype View = View(open: seq<Elem>, glyphs: seq<Glyph>, ok: bool)

  const BLANK := View([], [], true)

  function Enter(v: View, it: Item): View {
    match it
    case Start(e) => v.(open := v.open + [e])
    case End(n) =>
      if v.open != [] && v.open[|v.open| - 1].name == n
      then v.(open := v.open[..|v.open| - 1])
      else v.(ok := false)
    case Ch(c) => v.(glyphs := v.glyphs + [Glyph(c, v.open)])
  }

  function Read(m: Markup, v: View): View {
    if m == [] then v else Enter(Read(m[..|m| - 1], v), m[|m| - 1])
  }

  ghost predicate WellFormed(m: Markup) {
    Read(m, BLANK).ok && Read(m, BLANK).open == []
  }

  function PlainText(m: Markup): string {
    if m == [] then ""
    else PlainText(m[..|m| - 1]) + if m[|m| - 1].Ch? then [m[|m| - 1].c] else ""
  }

  function GlyphText(gs: seq<Glyph>): string {
    seq(|gs|, i requires 0 <= i < |gs| => gs[i].c)
  }

  // Text as markup with nothing around it: what escaping amounts to.
  function Escaped(t: string): Markup {
    seq(|t|, i requires 0 <= i < |t| => Ch(t[i]))
  }

  // The same glyphs, seen inside further elements.
  function Inside(outer: seq<Elem>, gs: seq<Glyph>): seq<Glyph> {
    seq(|gs|, i requires 0 <= i < |gs| => Glyph(gs[i].c, outer + gs[i].within))
  }

  lemma {:induction false} ReadConcat(a: Markup, b: Markup, v: View)
    ensures Read(a + b, v) == Read(b, Read(a, v))
  {
    if b == [] {
      assert a + b == a;
    } else {
      var n := |b| - 1;
      assert (a + b)[..|a + b| - 1] == a + b[..n];
      ReadConcat(a, b[..n], v);
    }
  }

  lemma {:induction false} ReadBoth(a: Markup, b: Markup, u: View, v: View, w: View)
    requires Read(a, u) == v && Read(b, v) == w
    ensures Read(a + b, u) == w
  {
    ReadConcat(a, b, u);
  }

  /** Markup that is well nested on its own reads the same inside any open elements. */
  lemma {:induction false} ReadInside(m: Markup, v: View)
    requires Read(m, BLANK).ok
    ensures Read(m, v) == View(v.open + Read(m, BLANK).open,
                               v.glyphs + Inside(v.open, Read(m, BLANK).glyphs),
                               v.ok)
  {
    if m == [] {
      assert v.open + [] == v.open && v.glyphs + Inside(v.open, []) == v.glyphs;
    } else {
      var front, last := m[..|m| - 1], m[|m| - 1];
      assert Read(front, BLANK).ok;
      ReadInside(front, v);
      var r := Read(front, BLANK);
      match last
      case Start(e) => assert v.open + (r.open + [e]) == v.open + r.open + [e];
      case End(n) =>
        assert (v.open + r.open)[..|v.open + r.open| - 1] == v.open + r.open[..|r.open| - 1];
      case Ch(c) =>
        assert Inside(v.open, r.glyphs + [Glyph(c, r.open)])
            == Inside(v.open, r.glyphs) + [Glyph(c, v.open + r.open)];
    }
  }

  lemma {:induction false} PlainConcat(a: Markup, b: Markup)
    ensures PlainText(a + b) == PlainText(a) + PlainText(b)
  {
    if b == [] {
      assert a + b == a;
    } else {
      assert (a + b)[..|a + b| - 1] == a + b[..|b| - 1];
      PlainConcat(a, b[..|b| - 1]);
    }
  }

  lemma {:induction false} PlainOfEscaped(t: string)
    ensures PlainText(Escaped(t)) == t
  {
    if t != "" {
      var n := |t| - 1;
      assert Escaped(t)[..n] == Escaped(t[..n]);
      PlainOfEscaped(t[..n]);
    }
  }

  /** Reading loses no character: the glyphs spell the plain text. */
  lemma {:induction false} GlyphsSpellPlainText(m: Markup, v: View)
    ensures GlyphText(Read(m, v).glyphs) == GlyphText(v.glyphs) + PlainText(m)
  {
    if m == [] {
      assert PlainText(m) == "";
    } else {
      var r := Read(m[..|m| - 1], v);
      GlyphsSpellPlainText(m[..|m| - 1], v);
      match m[|m| - 1] {
        case Ch(c) =>
          assert GlyphText(r.glyphs + [Glyph(c, r.open)]) == GlyphText(r.glyphs) + [c];
        case _ =>
      }
    }
  }

  lemma {:induction false} ReadEscaped(t: string, v: View)
    ensures Read(Escaped(t), v) == v.(glyphs := v.glyphs + seq(|t|, i requires 0 <= i < |t| => Glyph(t[i], v.open)))
  {
    if t == "" {
    } else {
      var n := |t| - 1;
      assert Escaped(t)[..n] == Escaped(t[..n]);
      ReadEscaped(t[..n], v);
    }
  }

  // ------------------------------------------------------------------ styles

  // What Pango makes of the elements around a character.
  datatype Style = Style(bold: bool, italic: bool, underline: bool,
                         fore: Option<string>, back: Option<string>)

  const PLAIN_STYLE := Style(false, false, false, None, None)

  function Attr(attrs: seq<(string, string)>, key: string): Option<string> {
    if attrs == [] then None
    else if attrs[0].0 == key then Some(attrs[0].1)
    else Attr(attrs[1..], key)
  }

  function Dress(s: Style, e: Elem): Style {
    if e.name == "b" then s.(bold := true)
    else if e.name == "i" then s.(italic := true)
    else if e.name == "u" then s.(underline := true)
    else if e.name == "span" then
      var fg, bg := Attr(e.attrs, "foreground"), Attr(e.attrs, "background");
      s.(fore := if fg.Some? then fg else s.fore, back := if bg.Some? then bg else s.back)
    else s
  }

  // Inner elements override outer ones.
  function StyleOf(within: seq<Elem>): Style {
    if within == [] then PLAIN_STYLE
    else Dress(StyleOf(within[..|within| - 1]), within[|within| - 1])
  }

  datatype Styled = Styled(c: char, style: Style)

  function Styles(gs: seq<Glyph>): seq<Styled> {
    seq(|gs|, i requires 0 <= i < |gs| => Styled(gs[i].c, StyleOf(gs[i].within)))
  }
}
