/** The passes that turn a message into markup.  Every pass parses the markup it is
  * given, copies the elements, and hands each stretch of text between two tags to
  * its own callback. */
module Passes {
  import opened Wrappers
  import opened Sequences
  import opened Markup
  import opened MircCodes
  import opened MircColorize
  import opened MircMeaning
  import opened MircRenderers

  const ROOT_TAG := "root"
  const MENTION_COLOR := "#549ee7"

  // A half-open stretch of a text.
  datatype Range = Range(start: nat, end: nat)

  // A regular expression: where it first matches a text, if it does.  A match is
  // inside the text and not empty.
  type Matcher = m: string -> Option<Range>
    | forall s :: m(s).Some? ==> m(s).value.start < m(s).value.end <= |s|
    witness s => None

  // A regular expression searched for from a given place on.
  type Finder = f: (string, nat) -> Option<Range>
    | forall s, i: nat :: f(s, i).Some? ==> i <= f(s, i).value.start < f(s, i).value.end <= |s|
    witness (s, i) => None

  // What the passes take from outside: the four URL patterns in their order of
  // preference, the address channels are linked to, and the next place
  // where the user's nick stands as a word.
  datatype Env = Env(url: Matcher, host: Matcher, channel: Matcher, email: Matcher,
                     channelBase: string, mention: Finder)
  {
    function Pattern(i: nat): Matcher
      requires i < 4
    {
      if i == 0 then url else if i == 1 then host else if i == 2 then channel else email
    }

    function Prefix(i: nat): string
      requires i < 4
    {
      if i == 0 then "" else if i == 1 then "http://" else if i == 2 then channelBase else "mailto:"
    }
  }

  // ----------------------------------------------------------- linking URLs

  datatype Hit = NoHit | Hit(kind: nat, range: Range)

  // The leftmost match among the first n patterns; the earlier pattern wins a tie.
  function Best(env: Env, s: string, n: nat): (h: Hit)
    requires n <= 4
    ensures h.Hit? ==> h.kind < n && env.Pattern(h.kind)(s) == Some(h.range)
  {
    if n == 0 then NoHit
    else
      var h, m := Best(env, s, n - 1), env.Pattern(n - 1)(s);
      if m.Some? && (h.NoHit? || m.value.start < h.range.start) then Hit(n - 1, m.value) else h
  }

  /** No pattern matches further left than the one that is chosen, and of those
    * that match there it is the first. */
  lemma {:induction false} BestIsLeftmost(env: Env, s: string, n: nat, i: nat)
    requires i < n <= 4 && env.Pattern(i)(s).Some?
    ensures Best(env, s, n).Hit?
    ensures var b := Best(env, s, n);
      b.range.start < env.Pattern(i)(s).value.start
      || (b.range.start == env.Pattern(i)(s).value.start && b.kind <= i)
  {
    if i < n - 1 {
      BestIsLeftmost(env, s, n - 1, i);
    }
  }

  // A match is not in front of the range, nor at the same place if the range does not win.
  predicate Behind(m: Option<Range>, r: Range, wins: bool) {
    m.None? || r.start < m.value.start || (wins && r.start == m.value.start)
  }

  /** Which pattern matches, of URLs, host names, channels and addresses in this order. */
  lemma {:induction false} BestOfFour(env: Env, s: string)
    ensures match Best(env, s, 4)
      case NoHit => env.url(s) == env.host(s) == env.channel(s) == env.email(s) == None
      case Hit(kind, r) =>
        && Some(r) == (if kind == 0 then env.url(s) else if kind == 1 then env.host(s)
                       else if kind == 2 then env.channel(s) else env.email(s))
        && Behind(env.url(s), r, kind <= 0) && Behind(env.host(s), r, kind <= 1)
        && Behind(env.channel(s), r, kind <= 2) && Behind(env.email(s), r, kind <= 3)
  {
    forall i | 0 <= i < 4 && env.Pattern(i)(s).Some? {
      BestIsLeftmost(env, s, 4, i);
    }
    assert env.Pattern(0) == env.url && env.Pattern(1) == env.host;
    assert env.Pattern(2) == env.channel && env.Pattern(3) == env.email;
  }

  function Anchor(env: Env, kind: nat, url: string): Markup
    requires kind < 4
  {
    [Start(Elem("a", [("href", env.Prefix(kind) + url)]))] + Escaped(url) + [End("a")]
  }

  // The text with every URL made a link.
  function Linked(env: Env, s: string): Markup
    decreases |s|
  {
    if s == "" then []
    else
      match Best(env, s, 4)
      case NoHit => Escaped(s)
      case Hit(kind, r) =>
        Escaped(s[..r.start]) + Anchor(env, kind, s[r.start..r.end]) + Linked(env, s[r.end..])
  }

  // The URLs of the text, in order.
  function Urls(env: Env, s: string): seq<string>
    decreases |s|
  {
    if s == "" then []
    else
      match Best(env, s, 4)
      case NoHit => []
      case Hit(kind, r) => [s[r.start..r.end]] + Urls(env, s[r.end..])
  }

  /** The `text` callback of the URL renderer. */
  method LinkText(env: Env, text: string, markup: Markup, urls: seq<string>)
      returns (out: Markup, found: seq<string>)
    ensures out == markup + Linked(env, text)
    ensures found == urls + Urls(env, text)
  {
    out, found := markup, urls;
    var ptr := text;
    while ptr != ""
      invariant out + Linked(env, ptr) == markup + Linked(env, text)
      invariant found + Urls(env, ptr) == urls + Urls(env, text)
      decreases |ptr|
    {
      var hit := FindLeftmost(env, ptr);
      match hit {
        case NoHit =>
          out := out + Escaped(ptr);
          assert out == markup + Linked(env, text);
          ptr := "";
        case Hit(kind, r) =>
          LinkedHit(env, out, found, ptr, kind, r);
          var url := ptr[r.start..r.end];
          out := out + Escaped(ptr[..r.start]);
          out := out + Anchor(env, kind, url);
          found := found + [url];
          ptr := ptr[r.end..];
      }
    }
    assert out + [] == out && found + [] == found;
  }

  lemma {:induction false} LinkedHit(env: Env, out: Markup, found: seq<string>, s: string, kind: nat, r: Range)
    requires s != "" && Best(env, s, 4) == Hit(kind, r)
    ensures out + Linked(env, s)
         == out + Escaped(s[..r.start]) + Anchor(env, kind, s[r.start..r.end]) + Linked(env, s[r.end..])
    ensures found + Urls(env, s) == found + [s[r.start..r.end]] + Urls(env, s[r.end..])
  {
    Join(out, Escaped(s[..r.start]), Anchor(env, kind, s[r.start..r.end]), Linked(env, s[r.end..]));
    Join(found, [], [s[r.start..r.end]], Urls(env, s[r.end..]));
    assert found + [] == found && [] + [s[r.start..r.end]] == [s[r.start..r.end]];
  }

  // The loop over the patterns.
  method FindLeftmost(env: Env, s: string) returns (hit: Hit)
    ensures hit == Best(env, s, 4)
  {
    hit := NoHit;
    var start := |s|;
    for i := 0 to 4
      invariant hit == Best(env, s, i)
      invariant start == if hit.Hit? then hit.range.start else |s|
    {
      var m := env.Pattern(i)(s);
      if m.Some? {
        if m.value.start < start {
          hit, start := Hit(i, m.value), m.value.start;
        }
      }
    }
  }

  // Where the links of the markup lead to.
  function Targets(m: Markup): seq<string> {
    if m == [] then []
    else
      Targets(m[..|m| - 1]) +
        match m[|m| - 1]
        case Start(e) =>
          if e.name == "a" && e.attrs != [] && e.attrs[0].0 == "href" then [e.attrs[0].1] else []
        case _ => []
  }

  lemma {:induction false} TargetsBoth(a: Markup, b: Markup)
    ensures Targets(a + b) == Targets(a) + Targets(b)
  {
    if b == [] {
      assert a + b == a;
    } else {
      var n := |b| - 1;
      assert (a + b)[..|a + b| - 1] == a + b[..n];
      TargetsBoth(a, b[..n]);
    }
  }

  lemma {:induction false} TextHasNoTargets(t: string)
    ensures Targets(Escaped(t)) == []
  {
    if t != "" {
      assert Escaped(t)[..|t| - 1] == Escaped(t[..|t| - 1]);
      TextHasNoTargets(t[..|t| - 1]);
    }
  }

  lemma {:induction false} AnchorHasTarget(env: Env, kind: nat, url: string)
    requires kind < 4
    ensures Targets(Anchor(env, kind, url)) == [env.Prefix(kind) + url]
  {
    var start := [Start(Elem("a", [("href", env.Prefix(kind) + url)]))];
    assert start[..0] == [] && [End("a")][..0] == [];
    TargetsBoth(start + Escaped(url), [End("a")]);
    TargetsBoth(start, Escaped(url));
    TextHasNoTargets(url);
  }

  // The patterns that the URLs of the text match, in order.
  function Kinds(env: Env, s: string): seq<nat>
    decreases |s|
  {
    if s == "" then []
    else
      match Best(env, s, 4)
      case NoHit => []
      case Hit(kind, r) => [kind] + Kinds(env, s[r.end..])
  }

  // A link leads to the URL it shows, behind what its kind puts in front.
  predicate LeadsTo(env: Env, target: string, kind: nat, url: string) {
    kind < 4 && target == match kind
      case 0 => url
      case 1 => "http://" + url
      case 2 => env.channelBase + url
      case _ => "mailto:" + url
  }

  predicate AllLead(env: Env, targets: seq<string>, kinds: seq<nat>, urls: seq<string>) {
    |targets| == |kinds| == |urls| && forall i | 0 <= i < |urls| :: LeadsTo(env, targets[i], kinds[i], urls[i])
  }

  /** The URLs that are recorded are those that are linked, in order, and each link
    * leads to its own behind the prefix of the pattern that matched. */
  lemma {:induction false} LinksLeadToUrls(env: Env, s: string)
    ensures AllLead(env, Targets(Linked(env, s)), Kinds(env, s), Urls(env, s))
    decreases |s|
  {
    if s == "" || Best(env, s, 4).NoHit? {
      TextHasNoTargets(s);
    } else {
      var h := Best(env, s, 4);
      var rest := s[h.range.end..];
      LinksLeadToUrls(env, rest);
      LinkedIs(env, s, h.kind, h.range);
      LinkLeads(env, s[..h.range.start], h.kind, s[h.range.start..h.range.end], Linked(env, rest),
                Kinds(env, rest), Urls(env, rest));
    }
  }

  lemma LinkLeadsTo(env: Env, kind: nat, url: string)
    requires kind < 4
    ensures LeadsTo(env, env.Prefix(kind) + url, kind, url)
  {
    assert "" + url == url;
  }

  lemma {:induction false} LinkLeads(env: Env, before: string, kind: nat, url: string, rest: Markup,
                                     kinds: seq<nat>, urls: seq<string>)
    requires kind < 4 && AllLead(env, Targets(rest), kinds, urls)
    ensures AllLead(env, Targets(Escaped(before) + Anchor(env, kind, url) + rest), [kind] + kinds, [url] + urls)
  {
    hide LeadsTo, Anchor, Escaped, Targets;
    LinkLeadsTo(env, kind, url);
    TargetsBoth(Escaped(before) + Anchor(env, kind, url), rest);
    TargetsBoth(Escaped(before), Anchor(env, kind, url));
    TextHasNoTargets(before);
    AnchorHasTarget(env, kind, url);
  }

  // ------------------------------------------------------ marking mentions

  function Mark(s: string): Markup {
    [Start(Elem("span", [("foreground", MENTION_COLOR)])), Start(Elem("b", []))]
      + Escaped(s) + [End("b"), End("span")]
  }

  // The text from `from` on, with every mention marked.
  function Marked(env: Env, s: string, from: nat): Markup
    requires from <= |s|
    decreases |s| - from
  {
    match env.mention(s, from)
    case None => Escaped(s[from..])
    case Some(r) => Escaped(s[from..r.start]) + Mark(s[r.start..r.end]) + Marked(env, s, r.end)
  }

  /** The `text` callback of the mention renderer. */
  method MarkText(env: Env, text: string, markup: Markup, before: bool)
      returns (out: Markup, mentioned: bool)
    ensures out == markup + Marked(env, text, 0)
    ensures mentioned == (before || env.mention(text, 0).Some?)
  {
    out, mentioned := markup, before;
    var pos: nat := 0;
    var hit := env.mention(text, pos);
    while hit.Some?
      invariant pos <= |text| && hit == env.mention(text, pos)
      invariant out + Marked(env, text, pos) == markup + Marked(env, text, 0)
      invariant mentioned == (before || pos > 0) && (pos > 0 ==> env.mention(text, 0).Some?)
      decreases |text| - pos
    {
      MarkedNext(env, text, pos, out);
      mentioned := true;
      out, pos := MarkOne(text, hit.value, pos, out);
      hit := env.mention(text, pos);
    }
    out := EscapeRest(text, pos, out);
  }

  method MarkOne(text: string, r: Range, pos: nat, markup: Markup) returns (out: Markup, next: nat)
    requires pos <= r.start <= r.end <= |text|
    ensures out == markup + Escaped(text[pos..r.start]) + Mark(text[r.start..r.end]) && next == r.end
  {
    out := markup + Escaped(text[pos..r.start]);
    out, next := out + Mark(text[r.start..r.end]), r.end;
  }

  method EscapeRest(text: string, pos: nat, markup: Markup) returns (out: Markup)
    requires pos <= |text|
    ensures out == markup + Escaped(text[pos..])
  {
    out := markup;
    if pos < |text| {
      out := out + Escaped(text[pos..]);
    } else {
      assert Escaped(text[pos..]) == [];
    }
  }

  lemma {:induction false} MarkedNext(env: Env, s: string, from: nat, out: Markup)
    requires from <= |s| && env.mention(s, from).Some?
    ensures var r := env.mention(s, from).value;
      out + Marked(env, s, from)
        == out + Escaped(s[from..r.start]) + Mark(s[r.start..r.end]) + Marked(env, s, r.end)
  {
    var r := env.mention(s, from).value;
    Join(out, Escaped(s[from..r.start]), Mark(s[r.start..r.end]), Marked(env, s, r.end));
  }

  // ------------------------------------------------------------- one pass

  datatype Pass = Pattern | MircStrip | MircColorize | Url | Mention

  function RunEnd(m: Markup, i: nat): (j: nat)
    requires i <= |m|
    ensures i <= j <= |m|
    ensures i < |m| && m[i].Ch? ==> i < j
    ensures forall k :: i <= k < j ==> m[k].Ch?
    decreases |m| - i
  {
    if i < |m| && m[i].Ch? then RunEnd(m, i + 1) else i
  }

  function RunText(m: Markup, i: nat, j: nat): string
    requires i <= j <= |m| && forall k :: i <= k < j ==> m[k].Ch?
  {
    seq(j - i, k requires 0 <= k < j - i => m[i + k].c)
  }

  // The markup a pass writes for m[i..], when its callback writes f(run) for a run.
  function PassFrom(f: string -> Markup, m: Markup, i: nat): Markup
    requires i <= |m|
    decreases |m| - i
  {
    if i == |m| then []
    else if m[i].Ch? then f(RunText(m, i, RunEnd(m, i))) + PassFrom(f, m, RunEnd(m, i))
    else Copied(m[i]) + PassFrom(f, m, i + 1)
  }

  // Tags are copied, except those of the element the driver adds around the text.
  function Copied(it: Item): Markup {
    if it == End(ROOT_TAG) || (it.Start? && it.elem.name == ROOT_TAG) then [] else [it]
  }

  // What the driver has parsed: the markup inside an element of its own.
  function Rooted(m: Markup): Markup {
    [Start(Elem(ROOT_TAG, []))] + m + [End(ROOT_TAG)]
  }

  lemma RootedAt(m: Markup, i: nat)
    requires i <= |m|
    ensures |Rooted(m)| == |m| + 2 && Rooted(m)[i + 1] == if i < |m| then m[i] else End(ROOT_TAG)
  {
  }

  lemma {:induction false} RunEndWrapped(m: Markup, i: nat)
    requires i <= |m|
    ensures |Rooted(m)| == |m| + 2 && RunEnd(Rooted(m), i + 1) == RunEnd(m, i) + 1
    decreases |m| - i
  {
    hide Rooted;
    RootedAt(m, i);
    if i < |m| && m[i].Ch? {
      RunEndWrapped(m, i + 1);
    }
  }

  lemma {:induction false} RunWrapped(m: Markup, i: nat)
    requires i <= |m|
    ensures |Rooted(m)| == |m| + 2 && RunEnd(Rooted(m), i + 1) == RunEnd(m, i) + 1
    ensures RunText(Rooted(m), i + 1, RunEnd(m, i) + 1) == RunText(m, i, RunEnd(m, i))
  {
    RunEndWrapped(m, i);
    hide Rooted, RunEnd;
    var j := RunEnd(m, i);
    var a, b := RunText(Rooted(m), i + 1, j + 1), RunText(m, i, j);
    forall k | 0 <= k < j - i ensures a[k] == b[k] {
      RootedAt(m, i + k);
    }
  }

  lemma {:induction false} PassRun(f: string -> Markup, m: Markup, i: nat)
    requires i < |m| && m[i].Ch?
    ensures PassFrom(f, m, i) == f(RunText(m, i, RunEnd(m, i))) + PassFrom(f, m, RunEnd(m, i))
  {
  }

  lemma {:induction false} PassTag(f: string -> Markup, m: Markup, i: nat)
    requires i < |m| && !m[i].Ch?
    ensures PassFrom(f, m, i) == Copied(m[i]) + PassFrom(f, m, i + 1)
  {
  }

  lemma {:induction false} PassEnd(f: string -> Markup, m: Markup)
    ensures PassFrom(f, m, |m|) == []
    ensures |m| > 0 && m[|m| - 1] == End(ROOT_TAG) ==> PassFrom(f, m, |m| - 1) == []
  {
  }

  lemma {:induction false} PassInside(f: string -> Markup, m: Markup, i: nat)
    requires i <= |m|
    ensures |Rooted(m)| == |m| + 2 && PassFrom(f, Rooted(m), i + 1) == PassFrom(f, m, i)
    decreases |m| - i
  {
    hide Rooted, RunEnd, RunText, PassFrom, Copied;
    RootedAt(m, i);
    if i == |m| {
      PassEnd(f, m);
      PassEnd(f, Rooted(m));
    } else if m[i].Ch? {
      RunWrapped(m, i);
      PassRun(f, m, i);
      PassRun(f, Rooted(m), i + 1);
      PassInside(f, m, RunEnd(m, i));
    } else {
      PassTag(f, m, i);
      PassTag(f, Rooted(m), i + 1);
      PassInside(f, m, i + 1);
    }
  }

  /** A pass drops the element that the driver adds around the markup. */
  lemma {:induction false} RootIsDropped(f: string -> Markup, m: Markup)
    ensures PassFrom(f, Rooted(m), 0) == PassFrom(f, m, 0)
  {
    assert Rooted(m)[0] == Start(Elem(ROOT_TAG, []));
    PassInside(f, m, 0);
    assert [] + PassFrom(f, m, 0) == PassFrom(f, m, 0);
  }

  function TextFrom(g: string -> string, m: Markup, i: nat): string
    requires i <= |m|
    decreases |m| - i
  {
    if i == |m| then ""
    else if m[i].Ch? then g(RunText(m, i, RunEnd(m, i))) + TextFrom(g, m, RunEnd(m, i))
    else TextFrom(g, m, i + 1)
  }

  // What each callback makes of one stretch of text.
  function Escaper(): string -> Markup { run => Escaped(run) }
  function Stripper(): string -> Markup { run => Escaped(Stripped(run)) }
  function Colorizer(): string -> Markup { run => Colorized(run) }
  function Linker(env: Env): string -> Markup { run => Linked(env, run) }
  function Marker(env: Env): string -> Markup { run => Marked(env, run, 0) }

  // The text a pass leaves of the text it was handed.
  function Same(): string -> string { run => run }
  function Bare(): string -> string { run => Stripped(run) }

  // -------------------------------------------------- what pieces are like

  ghost predicate NoRoot(m: Markup) {
    && (forall it <- m :: it.Start? ==> it.elem.name != ROOT_TAG)
    && (forall it <- m :: it.End? ==> it.name != ROOT_TAG)
  }

  // Markup that is well nested, spells t, and does not use the root tag.
  ghost predicate Fits(m: Markup, t: string) {
    Report(m) == (true, t, true)
  }

  ghost function Report(m: Markup): (bool, string, bool) {
    (WellFormed(m), PlainText(m), NoRoot(m))
  }

  // Only links around the characters: they have no style of their own.
  ghost predicate Neutral(m: Markup) {
    forall g <- Read(m, BLANK).glyphs :: g.within == [] || (|g.within| == 1 && g.within[0].name == "a")
  }

  lemma {:induction false} FitsBoth(a: Markup, s: string, b: Markup, t: string)
    requires Fits(a, s) && Fits(b, t)
    ensures Fits(a + b, s + t)
    ensures Neutral(a) && Neutral(b) ==> Neutral(a + b)
  {
    PlainConcat(a, b);
    ReadConcat(a, b, BLANK);
    var va, vb := Read(a, BLANK), Read(b, BLANK);
    ReadInside(b, va);
    assert Inside([], vb.glyphs) == vb.glyphs by {
      forall k | 0 <= k < |vb.glyphs| ensures Inside([], vb.glyphs)[k] == vb.glyphs[k] {
        assert [] + vb.glyphs[k].within == vb.glyphs[k].within;
      }
    }
  }

  lemma {:induction false} FitsThree(a: Markup, s: string, b: Markup, t: string, c: Markup, u: string)
    requires Fits(a, s) && Fits(b, t) && Fits(c, u)
    ensures Fits(a + b + c, s + t + u)
    ensures Neutral(a) && Neutral(b) && Neutral(c) ==> Neutral(a + b + c)
  {
    FitsBoth(a, s, b, t);
    FitsBoth(a + b, s + t, c, u);
  }

  lemma {:induction false} FitsEscaped(t: string)
    ensures Fits(Escaped(t), t) && Neutral(Escaped(t))
  {
    PlainOfEscaped(t);
    ReadEscaped(t, BLANK);
  }

  // Text inside one element.
  lemma {:induction false} FitsWrapped(e: Elem, m: Markup, t: string)
    requires Fits(m, t) && e.name != ROOT_TAG
    ensures Fits([Start(e)] + m + [End(e.name)], t)
    ensures Read([Start(e)] + m + [End(e.name)], BLANK).glyphs == Inside([e], Read(m, BLANK).glyphs)
  {
    WrappedReads(e, m);
    PlainConcat([Start(e)], m);
    PlainConcat([Start(e)] + m, [End(e.name)]);
    assert PlainText([Start(e)]) == "" && PlainText([End(e.name)]) == "";
    assert "" + t + "" == t;
    NoRootJoin([Start(e)], m);
    NoRootJoin([Start(e)] + m, [End(e.name)]);
  }

  lemma NoRootJoin(a: Markup, b: Markup)
    ensures NoRoot(a + b) <==> NoRoot(a) && NoRoot(b)
  {
    forall it | it in a || it in b ensures it in a + b {
    }
  }

  lemma {:induction false} WrappedReads(e: Elem, m: Markup)
    requires WellFormed(m)
    ensures Read([Start(e)] + m + [End(e.name)], BLANK) == View([], Inside([e], Read(m, BLANK).glyphs), true)
  {
    var v := View([e], [], true);
    assert Read([Start(e)], BLANK) == v by { assert [Start(e)][..0] == []; }
    ReadInside(m, v);
    var gs := Inside([e], Read(m, BLANK).glyphs);
    assert Read(m, v) == View([e], gs, true) by { assert [e] + [] == [e] && [] + gs == gs; }
    assert Read([End(e.name)], View([e], gs, true)) == View([], gs, true) by { assert [End(e.name)][..0] == []; }
    ReadBoth([Start(e)], m, BLANK, v, View([e], gs, true));
    ReadBoth([Start(e)] + m, [End(e.name)], BLANK, View([e], gs, true), View([], gs, true));
  }

  lemma {:induction false} FitsAnchor(env: Env, kind: nat, url: string)
    requires kind < 4
    ensures Fits(Anchor(env, kind, url), url) && Neutral(Anchor(env, kind, url))
  {
    var e := Elem("a", [("href", env.Prefix(kind) + url)]);
    FitsEscaped(url);
    FitsWrapped(e, Escaped(url), url);
    ReadEscaped(url, BLANK);
    assert [e] + [] == [e];
  }

  lemma {:induction false} FitsMark(t: string)
    ensures Fits(Mark(t), t)
  {
    var span, b := Elem("span", [("foreground", MENTION_COLOR)]), Elem("b", []);
    FitsEscaped(t);
    FitsWrapped(b, Escaped(t), t);
    FitsWrapped(span, [Start(b)] + Escaped(t) + [End("b")], t);
    assert Mark(t) == [Start(span)] + ([Start(b)] + Escaped(t) + [End("b")]) + [End("span")];
  }

  /** Linking keeps the text, is well nested, and styles nothing. */
  lemma {:induction false} FitsLinked(env: Env, s: string)
    ensures Fits(Linked(env, s), s) && Neutral(Linked(env, s))
    decreases |s|
  {
    if s == "" || Best(env, s, 4).NoHit? {
      FitsEscaped(s);
    } else {
      var h := Best(env, s, 4);
      var before, url, after := s[..h.range.start], s[h.range.start..h.range.end], s[h.range.end..];
      FitsLinked(env, after);
      FitsHit(env, before, h.kind, url, Linked(env, after), after);
      LinkedIs(env, s, h.kind, h.range);
      ThreeParts(s, 0, h.range.start, h.range.end);
    }
  }

  lemma {:induction false} LinkedIs(env: Env, s: string, kind: nat, r: Range)
    requires s != "" && Best(env, s, 4) == Hit(kind, r)
    ensures Linked(env, s)
         == Escaped(s[..r.start]) + Anchor(env, kind, s[r.start..r.end]) + Linked(env, s[r.end..])
  {
  }

  lemma ThreeParts(s: string, from: nat, i: nat, j: nat)
    requires from <= i <= j <= |s|
    ensures s[from..] == s[from..i] + s[i..j] + s[j..]
  {
  }

  lemma {:induction false} FitsHit(env: Env, before: string, kind: nat, url: string, rest: Markup, after: string)
    requires kind < 4 && Fits(rest, after) && Neutral(rest)
    ensures Fits(Escaped(before) + Anchor(env, kind, url) + rest, before + url + after)
    ensures Neutral(Escaped(before) + Anchor(env, kind, url) + rest)
  {
    FitsEscaped(before);
    FitsAnchor(env, kind, url);
    FitsThree(Escaped(before), before, Anchor(env, kind, url), url, rest, after);
  }

  lemma {:induction false} FitsMarked(env: Env, s: string, from: nat)
    requires from <= |s|
    ensures Fits(Marked(env, s, from), s[from..])
    decreases |s| - from
  {
    match env.mention(s, from)
    case None => FitsEscaped(s[from..]);
    case Some(r) =>
      FitsMarked(env, s, r.end);
      FitsNextMark(s, from, r, Marked(env, s, r.end));
  }

  lemma {:induction false} FitsMarkedWhole(env: Env, s: string)
    ensures Fits(Marked(env, s, 0), s)
  {
    FitsMarked(env, s, 0);
    assert s[0..] == s;
  }

  lemma {:induction false} FitsNextMark(s: string, from: nat, r: Range, rest: Markup)
    requires from <= r.start <= r.end <= |s| && Fits(rest, s[r.end..])
    ensures Fits(Escaped(s[from..r.start]) + Mark(s[r.start..r.end]) + rest, s[from..])
  {
    var gap, hit, after := s[from..r.start], s[r.start..r.end], s[r.end..];
    FitsEscaped(gap);
    FitsMark(hit);
    FitsThree(Escaped(gap), gap, Mark(hit), hit, rest, after);
    ThreeParts(s, from, r.start, r.end);
  }

  // ---------------------------------------------------- colours fit as well

  lemma {:induction false} StartsHaveNoRoot(codes: seq<Code>, lo: nat, hi: nat, fg: nat, bg: nat)
    requires hi <= |codes|
    ensures NoRoot(OpenRange(codes, lo, hi, SpanFor(fg, bg)))
    decreases hi
  {
    hide NoRoot, Open, SpanFor;
    NothingSpells();
    if lo < hi {
      StartsHaveNoRoot(codes, lo, hi - 1, fg, bg);
      TagsHaveNoRoot(codes[hi - 1], fg, bg);
      NoRootJoin(OpenRange(codes, lo, hi - 1, SpanFor(fg, bg)), Open(codes[hi - 1], SpanFor(fg, bg)));
    }
  }

  lemma {:induction false} EndsHaveNoRoot(codes: seq<Code>, lo: nat, hi: nat)
    requires hi <= |codes|
    ensures NoRoot(CloseRange(codes, lo, hi))
    decreases hi
  {
    if lo < hi {
      EndsHaveNoRoot(codes, lo, hi - 1);
      TagsHaveNoRoot(codes[hi - 1], 0, 0);
      NoRootJoin(Close(codes[hi - 1]), CloseRange(codes, lo, hi - 1));
    }
  }

  lemma {:induction false} TagsHaveNoRoot(code: Code, fg: nat, bg: nat)
    ensures NoRoot(Open(code, SpanFor(fg, bg))) && NoRoot(Close(code))
  {
  }

  lemma {:induction false} EmissionHasNoRoot(codes: seq<Code>, ch: Code, fg: nat, bg: nat)
    ensures NoRoot(Emission(codes, ch, fg, bg))
  {
    hide NoRoot, Open, Close, OpenRange, CloseRange, Known, SpanFor;
    var n := |codes|;
    EndsHaveNoRoot(codes, 0, n);
    TagsHaveNoRoot(ch, fg, bg);
    NothingSpells();
    if ch in codes {
      ReopeningHasNoRoot(codes, ch, fg, bg);
    }
  }

  lemma NothingSpells()
    ensures NoRoot([]) && PlainText([]) == ""
  {
  }

  lemma {:induction false} ReopeningHasNoRoot(codes: seq<Code>, ch: Code, fg: nat, bg: nat)
    requires ch in codes
    ensures NoRoot(Emission(codes, ch, fg, bg))
  {
    hide NoRoot, Open, Close, OpenRange, CloseRange, Known, SpanFor;
    var j, n := IndexOf(codes, ch), |codes|;
    var over := OpenRange(codes, j + 1, n, SpanFor(fg, bg));
    var last := if ch == Color && Known(fg, bg) then Open(ch, SpanFor(fg, bg)) else [];
    EndsHaveNoRoot(codes, 0, n);
    EndsHaveNoRoot(codes, j, n);
    StartsHaveNoRoot(codes, j + 1, n, fg, bg);
    TagsHaveNoRoot(ch, fg, bg);
    NothingSpells();
    NoRootJoin(CloseRange(codes, j, n), over);
    NoRootJoin(CloseRange(codes, j, n) + over, last);
  }

  lemma {:induction false} DrawHasNoRoot(acts: seq<Action>)
    ensures NoRoot(Draw(acts).out)
  {
    if acts != [] {
      var p, a := Draw(acts[..|acts| - 1]), acts[|acts| - 1];
      DrawHasNoRoot(acts[..|acts| - 1]);
      match a
      case Show(c) =>
      case Toggle(code) => EmissionHasNoRoot(p.codes, code, p.fg, p.bg);
      case Reset => EmissionHasNoRoot(p.codes, Plain, MIRC_COLOR_UNKNOWN, MIRC_COLOR_UNKNOWN);
      case Recolor(f, b) => EmissionHasNoRoot(p.codes, Color, NewColor(a, f, p.fg), NewColor(a, b, p.bg));
    }
  }

  lemma {:induction false} FitsColorized(t: string)
    ensures Fits(Colorized(t), Stripped(t))
  {
    RenderingPreservesMeaning(t);
    ColorizedSpellsShown(t);
    DrawHasNoRoot(Scan(t, 0) + [Reset]);
  }

  // A callback that writes well-nested markup spelling g(run), and, if it is
  // neutral, only links the text it was given.
  ghost predicate Faithful(f: string -> Markup, g: string -> string, neutral: bool) {
    && (forall run :: Fits(f(run), g(run)))
    && (neutral ==> forall run :: Neutral(f(run)) && g(run) == run)
  }

  lemma StripperIsFaithful()
    ensures Faithful(Stripper(), Bare(), false)
  {
    forall run { FitsEscaped(Stripped(run)); }
  }

  lemma ColorizerIsFaithful()
    ensures Faithful(Colorizer(), Bare(), false)
  {
    forall run { FitsColorized(run); }
  }

  lemma LinkerIsFaithful(env: Env)
    ensures Faithful(Linker(env), Same(), true)
  {
    forall run { FitsLinked(env, run); }
  }

  lemma MarkerIsFaithful(env: Env)
    ensures Faithful(Marker(env), Same(), false)
  {
    forall run { FitsMarkedWhole(env, run); }
  }

  // --------------------------------------------------------- a whole pass

  /** A pass over one stretch of text is its callback's piece. */
  lemma PassOfText(f: string -> Markup, t: string)
    requires t != ""
    ensures PassFrom(f, Escaped(t), 0) == f(t)
  {
    RunEndOfText(t, 0);
    var m := Escaped(t);
    assert m[0].Ch?;
    assert RunText(m, 0, |m|) == t;
    assert PassFrom(f, m, |m|) == [];
  }

  lemma {:induction false} RunEndOfText(t: string, i: nat)
    requires i <= |t|
    ensures RunEnd(Escaped(t), i) == |t|
    decreases |t| - i
  {
    if i < |t| {
      RunEndOfText(t, i + 1);
    }
  }

  lemma {:induction false} OkSticks(m: Markup, v: View)
    requires Read(m, v).ok
    ensures v.ok
  {
    if m != [] {
      OkSticks(m[..|m| - 1], v);
    }
  }

  // m read from i on, as far as tags go.
  lemma {:induction false} ReadFirst(m: Markup, i: nat, v: View)
    requires i < |m|
    ensures Read(m[i..], v) == Read(m[i + 1..], Enter(v, m[i]))
  {
    ReadConcat([m[i]], m[i + 1..], v);
    assert m[i..] == [m[i]] + m[i + 1..];
    assert [m[i]][..0] == [];
  }

  lemma {:induction false} RunIsEscaped(m: Markup, i: nat, j: nat)
    requires i <= j <= |m| && forall k :: i <= k < j ==> m[k].Ch?
    ensures m[i..] == Escaped(RunText(m, i, j)) + m[j..]
  {
  }

  // Two readings that agree on the open elements and, if `styled`, on the styles.
  ghost predicate Agree(v: View, w: View, styled: bool) {
    w.ok && v.ok && w.open == v.open && (styled ==> Styles(w.glyphs) == Styles(v.glyphs))
  }

  /** The tags of a pass's result nest exactly like the tags it was given, and a
    * neutral callback leaves the style of every character alone. */
  lemma {:induction false} PassNests(f: string -> Markup, g: string -> string, neutral: bool,
                                     m: Markup, i: nat, v: View, w: View)
    requires Faithful(f, g, neutral) && i <= |m| && NoRoot(m)
    requires Read(m[i..], v).ok && Agree(v, w, neutral)
    ensures Agree(Read(m[i..], v), Read(PassFrom(f, m, i), w), neutral)
    decreases |m| - i
  {
    if i == |m| {
      assert m[i..] == [];
    } else if m[i].Ch? {
      var j := RunEnd(m, i);
      var run := RunText(m, i, j);
      RunIsEscaped(m, i, j);
      ReadConcat(Escaped(run), m[j..], v);
      PieceNests(f, g, neutral, run, v, w);
      ReadConcat(f(run), PassFrom(f, m, j), w);
      PassNests(f, g, neutral, m, j, Read(Escaped(run), v), Read(f(run), w));
    } else {
      ReadFirst(m, i, v);
      OkSticks(m[i + 1..], Enter(v, m[i]));
      ReadTag(f, m, i, w);
      PassNests(f, g, neutral, m, i + 1, Enter(v, m[i]), Enter(w, m[i]));
    }
  }

  lemma {:induction false} ReadTag(f: string -> Markup, m: Markup, i: nat, w: View)
    requires i < |m| && NoRoot(m) && !m[i].Ch?
    ensures Read(PassFrom(f, m, i), w) == Read(PassFrom(f, m, i + 1), Enter(w, m[i]))
  {
    assert m[i] in m;
    ReadConcat([m[i]], PassFrom(f, m, i + 1), w);
    assert Read([m[i]], w) == Enter(w, m[i]) by { assert [m[i]][..0] == []; }
  }

  lemma {:induction false} PieceNests(f: string -> Markup, g: string -> string, neutral: bool,
                                      run: string, v: View, w: View)
    requires Faithful(f, g, neutral) && Agree(v, w, neutral)
    ensures Agree(Read(Escaped(run), v), Read(f(run), w), neutral)
  {
    var p := f(run);
    assert Fits(p, g(run));
    ReadEscaped(run, v);
    ReadInside(p, w);
    assert w.open + [] == w.open;
    if neutral {
      assert Neutral(f(run)) && g(run) == run;
      GlyphsSpellPlainText(p, BLANK);
      NeutralStyles(w.open, Read(p, BLANK).glyphs, run);
      StylesJoin(v.glyphs, seq(|run|, i requires 0 <= i < |run| => Glyph(run[i], v.open)));
      StylesJoin(w.glyphs, Inside(w.open, Read(p, BLANK).glyphs));
    }
  }

  lemma StylesJoin(a: seq<Glyph>, b: seq<Glyph>)
    ensures Styles(a + b) == Styles(a) + Styles(b)
  {
  }

  lemma {:induction false} NeutralStyles(open: seq<Elem>, gs: seq<Glyph>, run: string)
    requires forall g <- gs :: g.within == [] || (|g.within| == 1 && g.within[0].name == "a")
    requires GlyphText(gs) == run
    ensures Styles(Inside(open, gs)) == Styles(seq(|run|, i requires 0 <= i < |run| => Glyph(run[i], open)))
  {
    forall k | 0 <= k < |gs| ensures StyleOf(open + gs[k].within) == StyleOf(open) {
      assert gs[k] in gs;
      assert open + [] == open;
      if gs[k].within != [] {
        assert open + gs[k].within == open + [gs[k].within[0]];
        assert (open + [gs[k].within[0]])[..|open|] == open;
      }
    }
    assert |gs| == |run|;
    forall k | 0 <= k < |run| ensures gs[k].c == run[k] {
      assert GlyphText(gs)[k] == gs[k].c;
    }
  }

  lemma FaithfulFits(f: string -> Markup, g: string -> string, neutral: bool, run: string)
    requires Faithful(f, g, neutral)
    ensures NoRoot(f(run)) && PlainText(f(run)) == g(run)
  {
    assert Fits(f(run), g(run));
  }

  lemma {:induction false} PassSpells(f: string -> Markup, g: string -> string, m: Markup, i: nat)
    requires Faithful(f, g, false) && i <= |m| && NoRoot(m)
    ensures PlainText(PassFrom(f, m, i)) == TextFrom(g, m, i)
    ensures NoRoot(PassFrom(f, m, i))
    decreases |m| - i
  {
    hide NoRoot, PlainText, RunText, Faithful, Fits;
    if i == |m| {
      NothingSpells();
    } else {
      if m[i].Ch? {
        var run := RunText(m, i, RunEnd(m, i));
        FaithfulFits(f, g, false, run);
        PassSpells(f, g, m, RunEnd(m, i));
        PlainConcat(f(run), PassFrom(f, m, RunEnd(m, i)));
        NoRootJoin(f(run), PassFrom(f, m, RunEnd(m, i)));
      } else {
        PassSpells(f, g, m, i + 1);
        TagSpells(m, i, PassFrom(f, m, i + 1));
      }
    }
  }

  lemma {:induction false} TagSpells(m: Markup, i: nat, rest: Markup)
    requires i < |m| && NoRoot(m) && !m[i].Ch? && NoRoot(rest)
    ensures Copied(m[i]) == [m[i]] && NoRoot([m[i]] + rest)
    ensures PlainText([m[i]] + rest) == PlainText(rest)
  {
    assert m[i] in m;
    PlainConcat([m[i]], rest);
    assert PlainText([m[i]]) == "";
  }

  lemma {:induction false} TextKept(g: string -> string, m: Markup, i: nat)
    requires i <= |m| && forall run :: g(run) == run
    ensures TextFrom(g, m, i) == PlainText(m[i..])
    decreases |m| - i
  {
    if i < |m| {
      if m[i].Ch? {
        var j := RunEnd(m, i);
        var run := RunText(m, i, j);
        RunIsEscaped(m, i, j);
        PlainOfEscaped(run);
        PlainConcat(Escaped(run), m[j..]);
        TextKept(g, m, j);
      } else {
        assert m[i..] == [m[i]] + m[i + 1..];
        PlainConcat([m[i]], m[i + 1..]);
        assert PlainText([m[i]]) == "";
        TextKept(g, m, i + 1);
      }
    }
  }

  /** A pass with a faithful callback maps well-formed markup to well-formed
    * markup, run by run; with a neutral one it also keeps text and styles. */
  lemma FaithfulPass(f: string -> Markup, g: string -> string, neutral: bool, m: Markup)
    requires Faithful(f, g, neutral) && WellFormed(m) && NoRoot(m)
    ensures var r := PassFrom(f, m, 0);
      && WellFormed(r) && NoRoot(r) && PlainText(r) == TextFrom(g, m, 0)
      && (neutral ==> Styles(Read(r, BLANK).glyphs) == Styles(Read(m, BLANK).glyphs))
  {
    assert m[0..] == m;
    PassNests(f, g, neutral, m, 0, BLANK, BLANK);
    PassSpells(f, g, m, 0);
  }

  lemma StrippingPreserves(m: Markup)
    requires WellFormed(m) && NoRoot(m)
    ensures var r := PassFrom(Stripper(), m, 0);
      WellFormed(r) && NoRoot(r) && PlainText(r) == TextFrom(Bare(), m, 0)
  {
    StripperIsFaithful();
    FaithfulPass(Stripper(), Bare(), false, m);
  }

  lemma ColorizingPreserves(m: Markup)
    requires WellFormed(m) && NoRoot(m)
    ensures var r := PassFrom(Colorizer(), m, 0);
      WellFormed(r) && NoRoot(r) && PlainText(r) == TextFrom(Bare(), m, 0)
  {
    ColorizerIsFaithful();
    FaithfulPass(Colorizer(), Bare(), false, m);
  }

  /** Linking keeps the text, and the style of every character. */
  lemma LinkingPreserves(env: Env, m: Markup)
    requires WellFormed(m) && NoRoot(m)
    ensures var r := PassFrom(Linker(env), m, 0);
      && WellFormed(r) && NoRoot(r) && PlainText(r) == PlainText(m)
      && Styles(Read(r, BLANK).glyphs) == Styles(Read(m, BLANK).glyphs)
  {
    LinkerIsFaithful(env);
    FaithfulPass(Linker(env), Same(), true, m);
    TextKept(Same(), m, 0);
    assert m[0..] == m;
  }

  /** Marking mentions keeps the text. */
  lemma MarkingPreserves(env: Env, m: Markup)
    requires WellFormed(m) && NoRoot(m)
    ensures var r := PassFrom(Marker(env), m, 0);
      WellFormed(r) && NoRoot(r) && PlainText(r) == PlainText(m)
  {
    MarkerIsFaithful(env);
    FaithfulPass(Marker(env), Same(), false, m);
    TextKept(Same(), m, 0);
    assert m[0..] == m;
  }
}
