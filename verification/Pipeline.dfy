/** The passes in their order, run on a message. */
module Pipeline {
  import opened Sequences
  import opened Markup
  import opened MircCodes
  import opened MircMeaning
  import opened MircRenderers
  import opened Passes
  import opened Mentions

  // ----------------------------------------------------------- the pipeline

  // The callback of a pass.
  function Callback(env: Env, pass: Pass): string -> Markup {
    match pass
    case Pattern => Escaper()
    case MircStrip => Stripper()
    case MircColorize => Colorizer()
    case Url => Linker(env)
    case Mention => Marker(env)
  }

  lemma CallbacksWrite(env: Env, run: string)
    ensures Callback(env, Pattern)(run) == Escaped(run) && Callback(env, MircStrip)(run) == Escaped(Stripped(run))
    ensures Callback(env, MircColorize)(run) == Colorized(run) && Callback(env, Url)(run) == Linked(env, run)
    ensures Callback(env, Mention)(run) == Marked(env, run, 0)
  {
    hide Escaped, Stripped, Colorized, Linked, Marked;
  }

  // What a pass makes of a message.
  function PassOver(env: Env, pass: Pass, m: Markup): Markup {
    PassFrom(Callback(env, pass), m, 0)
  }

  lemma PassesOver(env: Env, m: Markup)
    ensures PassOver(env, MircStrip, m) == PassFrom(Stripper(), m, 0)
    ensures PassOver(env, MircColorize, m) == PassFrom(Colorizer(), m, 0)
    ensures PassOver(env, Url, m) == PassFrom(Linker(env), m, 0)
    ensures PassOver(env, Mention, m) == PassFrom(Marker(env), m, 0)
  {
    hide PassFrom, Stripper, Colorizer, Linker, Marker;
  }

  // What is written of a pass that has come to m[i].
  ghost predicate Written(env: Env, pass: Pass, m: Markup, i: nat, str: Markup)
    requires i <= |m|
  {
    str + PassFrom(Callback(env, pass), m, i) == PassOver(env, pass, m)
  }

  lemma {:induction false} RunWritten(env: Env, pass: Pass, m: Markup, i: nat, str: Markup)
    requires i < |m| && m[i].Ch? && Written(env, pass, m, i, str)
    ensures Written(env, pass, m, RunEnd(m, i), str + Callback(env, pass)(RunText(m, i, RunEnd(m, i))))
  {
    hide Callback, Copied, RunText;
    var f := Callback(env, pass);
    JoinLater(str, f(RunText(m, i, RunEnd(m, i))), PassFrom(f, m, RunEnd(m, i)));
  }

  lemma {:induction false} TagWritten(env: Env, pass: Pass, m: Markup, i: nat, str: Markup)
    requires i < |m| && !m[i].Ch? && Written(env, pass, m, i, str)
    ensures Written(env, pass, m, i + 1, str + Copied(m[i]))
  {
    hide Callback;
    JoinLater(str, Copied(m[i]), PassFrom(Callback(env, pass), m, i + 1));
  }

  // The URLs found in the runs of m[i..], if the pass looks for them.
  function UrlsOver(env: Env, pass: Pass, m: Markup, i: nat): seq<string>
    requires i <= |m|
    decreases |m| - i
  {
    if i == |m| || pass != Url then []
    else if m[i].Ch? then Urls(env, RunText(m, i, RunEnd(m, i))) + UrlsOver(env, pass, m, RunEnd(m, i))
    else UrlsOver(env, pass, m, i + 1)
  }

  // Whether the user is mentioned in a run of m[i..], if the pass looks for that.
  function MentionOver(env: Env, pass: Pass, m: Markup, i: nat): bool
    requires i <= |m|
    decreases |m| - i
  {
    if i == |m| || pass != Mention then false
    else if m[i].Ch? then
      env.mention(RunText(m, i, RunEnd(m, i)), 0).Some? || MentionOver(env, pass, m, RunEnd(m, i))
    else MentionOver(env, pass, m, i + 1)
  }

  // What is collected of a pass that has come to m[i].
  ghost predicate Collected(env: Env, pass: Pass, m: Markup, i: nat,
                            urls: seq<string>, mentioned: bool, urls0: seq<string>, mentioned0: bool)
    requires i <= |m|
  {
    && urls + UrlsOver(env, pass, m, i) == urls0 + UrlsOver(env, pass, m, 0)
    && (mentioned || MentionOver(env, pass, m, i)) == (mentioned0 || MentionOver(env, pass, m, 0))
  }

  lemma {:induction false} RunCollected(env: Env, pass: Pass, m: Markup, i: nat,
                                        urls: seq<string>, mentioned: bool, urls0: seq<string>, mentioned0: bool)
    requires i < |m| && m[i].Ch? && Collected(env, pass, m, i, urls, mentioned, urls0, mentioned0)
    ensures var run := RunText(m, i, RunEnd(m, i));
      Collected(env, pass, m, RunEnd(m, i), urls + (if pass == Url then Urls(env, run) else []),
                mentioned || (pass == Mention && env.mention(run, 0).Some?), urls0, mentioned0)
  {
    assert urls + [] == urls;
    JoinLater(urls, Urls(env, RunText(m, i, RunEnd(m, i))), UrlsOver(env, pass, m, RunEnd(m, i)));
  }

  lemma {:induction false} TagCollected(env: Env, pass: Pass, m: Markup, i: nat,
                                        urls: seq<string>, mentioned: bool, urls0: seq<string>, mentioned0: bool)
    requires i < |m| && !m[i].Ch? && Collected(env, pass, m, i, urls, mentioned, urls0, mentioned0)
    ensures Collected(env, pass, m, i + 1, urls, mentioned, urls0, mentioned0)
  {
  }

  lemma {:induction false} UrlsInside(env: Env, pass: Pass, m: Markup, i: nat)
    requires i <= |m|
    ensures |Rooted(m)| == |m| + 2 && UrlsOver(env, pass, Rooted(m), i + 1) == UrlsOver(env, pass, m, i)
    decreases |m| - i
  {
    hide Rooted, RunEnd, RunText, Urls;
    RootedAt(m, i);
    if i < |m| && m[i].Ch? {
      RunWrapped(m, i);
      UrlsInside(env, pass, m, RunEnd(m, i));
    } else if i < |m| {
      UrlsInside(env, pass, m, i + 1);
    }
  }

  lemma {:induction false} MentionInside(env: Env, pass: Pass, m: Markup, i: nat)
    requires i <= |m|
    ensures |Rooted(m)| == |m| + 2 && MentionOver(env, pass, Rooted(m), i + 1) == MentionOver(env, pass, m, i)
    decreases |m| - i
  {
    hide Rooted, RunEnd, RunText, Urls;
    RootedAt(m, i);
    if i < |m| && m[i].Ch? {
      RunWrapped(m, i);
      MentionInside(env, pass, m, RunEnd(m, i));
    } else if i < |m| {
      MentionInside(env, pass, m, i + 1);
    }
  }

  lemma {:induction false} FoundWrapped(env: Env, pass: Pass, m: Markup)
    ensures PassOver(env, pass, Rooted(m)) == PassOver(env, pass, m)
    ensures UrlsOver(env, pass, Rooted(m), 0) == UrlsOver(env, pass, m, 0)
    ensures MentionOver(env, pass, Rooted(m), 0) == MentionOver(env, pass, m, 0)
  {
    hide Callback, PassFrom;
    assert Rooted(m)[0] == Start(Elem(ROOT_TAG, []));
    RootIsDropped(Callback(env, pass), m);
    UrlsInside(env, pass, m, 0);
    MentionInside(env, pass, m, 0);
  }

  lemma Beginning(env: Env, pass: Pass, m: Markup, urls: seq<string>, mentioned: bool)
    ensures Written(env, pass, m, 0, []) && Collected(env, pass, m, 0, urls, mentioned, urls, mentioned)
  {
    hide Callback;
    assert [] + PassOver(env, pass, m) == PassOver(env, pass, m);
  }

  lemma Ending(env: Env, pass: Pass, m: Markup, str: Markup,
               urls: seq<string>, mentioned: bool, urls0: seq<string>, mentioned0: bool)
    requires Written(env, pass, m, |m|, str) && Collected(env, pass, m, |m|, urls, mentioned, urls0, mentioned0)
    ensures str == PassOver(env, pass, m) && urls == urls0 + UrlsOver(env, pass, m, 0)
    ensures mentioned == (mentioned0 || MentionOver(env, pass, m, 0))
  {
    hide Callback, Copied, RunText, RunEnd, Urls;
    assert str + [] == str && urls + [] == urls;
  }

  // ------------------------------------------------- what the pipeline yields

  // The text a message shows.
  function Spelling(flags: set<Pass>, content: string): string {
    if MircStrip in flags || MircColorize in flags then Stripped(content) else content
  }

  function Unstyled(t: string): seq<Styled> {
    seq(|t|, i requires 0 <= i < |t| => Styled(t[i], PLAIN_STYLE))
  }

  // The characters a message shows, as its mIRC codes style them.
  function Dressing(flags: set<Pass>, content: string): seq<Styled> {
    if MircColorize !in flags then Unstyled(Spelling(flags, content))
    else Meaning(Scan(if MircStrip in flags then Stripped(content) else content, 0))
  }

  // Whether a renderer runs on a message that `was` or was not found to mention the user.
  predicate Runs(flags: set<Pass>, was: bool, pass: Pass) {
    pass in flags && !(pass == Mention && was)
  }

  // What the first n renderers make of the markup.
  function Through(env: Env, flags: set<Pass>, was: bool, m: Markup, n: nat): Markup
    requires n <= |RENDERERS|
  {
    if n == 0 then m
    else
      var before := Through(env, flags, was, m, n - 1);
      if Runs(flags, was, RENDERERS[n - 1]) then PassOver(env, RENDERERS[n - 1], before) else before
  }

  // What holds of the markup before renderer i: plain text until the mIRC
  // renderers have run, then markup with the right text and styles.
  ghost predicate Stage(flags: set<Pass>, was: bool, content: string, i: nat, m: Markup) {
    if i <= 2 then m == Escaped(if i == 2 && MircStrip in flags then Stripped(content) else content)
    else Dressed(Spelling(flags, content), Dressing(flags, content), i < 5 || !Runs(flags, was, Mention), m)
  }

  ghost predicate Dressed(text: string, styles: seq<Styled>, styled: bool, m: Markup) {
    && WellFormed(m) && NoRoot(m) && PlainText(m) == text
    && (styled ==> Styles(Read(m, BLANK).glyphs) == styles)
  }

  lemma {:induction false} TextIsDressed(t: string)
    ensures WellFormed(Escaped(t)) && NoRoot(Escaped(t)) && PlainText(Escaped(t)) == t
    ensures Styles(Read(Escaped(t), BLANK).glyphs) == Unstyled(t)
  {
    FitsEscaped(t);
    ReadEscaped(t, BLANK);
  }

  lemma NothingStaysNothing()
    ensures Stripper()("") == [] && Colorizer()("") == []
  {
    assert Scan("", 0) == [];
    assert [] + [Reset] == [Reset] && [Reset][..0] == [];
    assert Draw([Reset]).out == [];
  }

  lemma {:induction false} PassOfAnyText(f: string -> Markup, t: string)
    requires f("") == []
    ensures PassFrom(f, Escaped(t), 0) == f(t)
  {
    if t != "" {
      PassOfText(f, t);
    }
  }

  /** The markup is as it should be in front of every renderer. */
  lemma {:induction false} ThroughStages(env: Env, flags: set<Pass>, was: bool, content: string, n: nat)
    requires n <= |RENDERERS| && Pattern !in flags
    ensures Stage(flags, was, content, n, Through(env, flags, was, Escaped(content), n))
  {
    hide Dressed, Dressing, PassOver, Escaped, Stripped, Spelling;
    if n > 0 {
      var m := Through(env, flags, was, Escaped(content), n - 1);
      ThroughStages(env, flags, was, content, n - 1);
      if Runs(flags, was, RENDERERS[n - 1]) {
        NextStage(env, flags, was, content, n - 1, m);
      } else if n == 3 {
        UncolouredStage(flags, was, content, m);
      }
    }
  }

  lemma {:induction false} UncolouredStage(flags: set<Pass>, was: bool, content: string, m: Markup)
    requires MircColorize !in flags && Stage(flags, was, content, 2, m)
    ensures Stage(flags, was, content, 3, m)
  {
    TextIsDressed(Spelling(flags, content));
  }

  // What a renderer makes of the markup it is given.
  lemma {:induction false} NextStage(env: Env, flags: set<Pass>, was: bool, content: string, i: nat, m: Markup)
    requires i < |RENDERERS| && Runs(flags, was, RENDERERS[i]) && Pattern !in flags && Stage(flags, was, content, i, m)
    ensures Stage(flags, was, content, i + 1, PassOver(env, RENDERERS[i], m))
  {
    hide Dressed, Dressing, PassOver, Escaped, Stripped, Spelling;
    match RENDERERS[i]
    case MircStrip => StripStage(env, content);
    case MircColorize => ColorStage(env, flags, content);
    case Url => LinkStage(env, Spelling(flags, content), Dressing(flags, content), m);
    case Mention => MarkStage(env, Spelling(flags, content), Dressing(flags, content), m);
  }

  lemma {:induction false} StripStage(env: Env, content: string)
    ensures PassOver(env, MircStrip, Escaped(content)) == Escaped(Stripped(content))
  {
    hide PassOver, PassFrom;
    PassesOver(env, Escaped(content));
    NothingStaysNothing();
    PassOfAnyText(Stripper(), content);
  }

  // Which of the characters shown belong to a mention: those of the markup the
  // mention renderer is given.
  function MentionsShown(env: Env, flags: set<Pass>, content: string): seq<bool> {
    MaskFrom(env, Through(env, flags, false, Escaped(content), 4), 0)
  }

  /** Characters outside mentions keep the style their mIRC codes give them, and
    * those inside are bold and of the mention colour besides. */
  lemma {:induction false} MentionsStandOut(env: Env, flags: set<Pass>, content: string)
    requires Mention in flags && Pattern !in flags
    ensures |MentionsShown(env, flags, content)| == |Dressing(flags, content)|
    ensures Styles(Read(Through(env, flags, false, Escaped(content), 5), BLANK).glyphs)
         == Highlighted(Dressing(flags, content), MentionsShown(env, flags, content))
  {
    hide PassOver, PassFrom, Marker, Escaped, Dressing, Spelling, Highlighted, MaskFrom, Read;
    var m := Through(env, flags, false, Escaped(content), 4);
    ThroughStages(env, flags, false, content, 4);
    PassesOver(env, m);
    MarkingHighlights(env, m);
  }

  lemma {:induction false} LinkStage(env: Env, text: string, styles: seq<Styled>, m: Markup)
    requires Dressed(text, styles, true, m)
    ensures Dressed(text, styles, true, PassOver(env, Url, m))
  {
    hide PassOver, PassFrom, Linker;
    PassesOver(env, m);
    LinkingPreserves(env, m);
  }

  lemma {:induction false} MarkStage(env: Env, text: string, styles: seq<Styled>, m: Markup)
    requires Dressed(text, styles, true, m)
    ensures Dressed(text, styles, false, PassOver(env, Mention, m))
  {
    hide PassOver, PassFrom, Marker;
    PassesOver(env, m);
    MarkingPreserves(env, m);
  }

  lemma ColorStage(env: Env, flags: set<Pass>, content: string)
    requires MircColorize in flags
    ensures var t := if MircStrip in flags then Stripped(content) else content;
      Dressed(Spelling(flags, content), Dressing(flags, content), true, PassOver(env, MircColorize, Escaped(t)))
  {
    hide PassOver, PassFrom, Read, Meaning, Stripped;
    var t := if MircStrip in flags then Stripped(content) else content;
    PassesOver(env, Escaped(t));
    NothingStaysNothing();
    PassOfAnyText(Colorizer(), t);
    FitsColorized(t);
    RenderingPreservesMeaning(t);
    StrippingIsIdempotent(content);
  }

  method FindRunEnd(m: Markup, i: nat) returns (j: nat)
    requires i < |m| && m[i].Ch?
    ensures j == RunEnd(m, i)
  {
    j := i + 1;
    while j < |m| && m[j].Ch?
      invariant i < j <= |m| && RunEnd(m, j) == RunEnd(m, i)
    {
      j := j + 1;
    }
  }

  // The order the renderers are registered in.
  const RENDERERS := [Pattern, MircStrip, MircColorize, Url, Mention]

  class SrnMessage {
    const content: string
    var rendered: Markup
    var mentioned: bool
    var urls: seq<string>

    constructor (content: string)
      ensures this.content == content && rendered == Escaped(content) && !mentioned && urls == []
    {
      this.content := content;
      rendered, mentioned, urls := Escaped(content), false, [];
    }

    // Parses the markup and writes it again with the text rendered by `pass`.
    method Rerender(env: Env, pass: Pass)
      modifies this
      ensures rendered == PassOver(env, pass, old(rendered))
      ensures urls == old(urls) + UrlsOver(env, pass, old(rendered), 0)
      ensures mentioned == (old(mentioned) || MentionOver(env, pass, old(rendered), 0))
    {
      hide Written, Collected, PassOver, UrlsOver, MentionOver, Copied;
      var m, str, i := Rooted(rendered), [], 0;
      FoundWrapped(env, pass, rendered);
      Beginning(env, pass, m, urls, mentioned);
      while i < |m|
        invariant i <= |m| && Written(env, pass, m, i, str)
        invariant Collected(env, pass, m, i, urls, mentioned, old(urls), old(mentioned))
      {
        if m[i].Ch? {
          str, i := Run(env, pass, m, i, str, old(urls), old(mentioned));
        } else {
          TagWritten(env, pass, m, i, str);
          TagCollected(env, pass, m, i, urls, mentioned, old(urls), old(mentioned));
          str := CopyTag(m[i], str);
          i := i + 1;
        }
      }
      Ending(env, pass, m, str, urls, mentioned, old(urls), old(mentioned));
      rendered := str;
    }

    method Run(env: Env, pass: Pass, m: Markup, i: nat, str: Markup,
               ghost urls0: seq<string>, ghost mentioned0: bool) returns (out: Markup, next: nat)
      requires i < |m| && m[i].Ch? && Written(env, pass, m, i, str)
      requires Collected(env, pass, m, i, urls, mentioned, urls0, mentioned0)
      modifies this`mentioned, this`urls
      ensures i < next <= |m| && Written(env, pass, m, next, out)
      ensures Collected(env, pass, m, next, urls, mentioned, urls0, mentioned0)
    {
      hide Written, Collected, Callback;
      next := FindRunEnd(m, i);
      RunCollected(env, pass, m, i, urls, mentioned, urls0, mentioned0);
      RunWritten(env, pass, m, i, str);
      out := Text(env, pass, RunText(m, i, next), str);
    }

    // The `text` slot of the parser.
    method Text(env: Env, pass: Pass, run: string, str: Markup) returns (out: Markup)
      modifies this`mentioned, this`urls
      ensures out == str + Callback(env, pass)(run)
      ensures urls == old(urls) + if pass == Url then Urls(env, run) else []
      ensures mentioned == (old(mentioned) || (pass == Mention && env.mention(run, 0).Some?))
    {
      hide Callback;
      CallbacksWrite(env, run);
      match pass
      case Pattern => out := str + Escaped(run);
      case MircStrip => out := StripText(run, str);
      case MircColorize => out := ColorizeText(run, str);
      case Url => out, urls := LinkText(env, run, str, urls);
      case Mention => out, mentioned := MarkText(env, run, str, mentioned);
    }

    /** The pipeline: the renderers whose flag is set, in the registered order.
      * The markup stays well formed and spells the content, or its stripped
      * form if a mIRC renderer ran.  Every character has the style its mIRC
      * codes give it, or none if they were not coloured; and if mentions are
      * looked for, the characters of a mention stand out besides. */
    method Render(env: Env, flags: set<Pass>)
      requires Pattern !in flags && rendered == Escaped(content)
      modifies this
      ensures WellFormed(rendered)
      ensures PlainText(rendered) == Spelling(flags, content)
      ensures !Runs(flags, old(mentioned), Mention) ==> Styles(Read(rendered, BLANK).glyphs) == Dressing(flags, content)
      ensures Runs(flags, old(mentioned), Mention) ==> HighlightsMentions(env, flags)
      ensures urls == old(urls) + UrlsShown(env, flags, old(mentioned))
      ensures mentioned == (old(mentioned) || (Mention in flags && MentionShown(env, flags)))
    {
      hide PassOver, UrlsOver, MentionOver, MentionsShown, Highlighted, Dressing, Spelling, Escaped, Read, Styles;
      var was := mentioned;
      for i := 0 to |RENDERERS|
        invariant rendered == Through(env, flags, was, Escaped(content), i)
        invariant urls == old(urls) + if i > 3 then UrlsShown(env, flags, was) else []
        invariant mentioned == (was || (i > 4 && Mention in flags && MentionShown(env, flags)))
      {
        if RENDERERS[i] in flags {
          RenderOne(env, RENDERERS[i]);
        }
      }
      ThroughStages(env, flags, was, content, 5);
      if Runs(flags, was, Mention) {
        MentionsStandOut(env, flags, content);
      }
    }

    ghost predicate HighlightsMentions(env: Env, flags: set<Pass>)
      reads this
    {
      && |MentionsShown(env, flags, content)| == |Dressing(flags, content)|
      && Styles(Read(rendered, BLANK).glyphs)
      == Highlighted(Dressing(flags, content), MentionsShown(env, flags, content))
    }

    // The URLs in the text that the URL renderer is given.
    function UrlsShown(env: Env, flags: set<Pass>, was: bool): seq<string> {
      if Url in flags then UrlsOver(env, Url, Through(env, flags, was, Escaped(content), 3), 0) else []
    }

    predicate MentionShown(env: Env, flags: set<Pass>) {
      MentionOver(env, Mention, Through(env, flags, false, Escaped(content), 4), 0)
    }

    // A message that already mentions the user is not searched again.
    method RenderOne(env: Env, pass: Pass)
      modifies this
      ensures rendered
           == if pass == Mention && old(mentioned) then old(rendered) else PassOver(env, pass, old(rendered))
      ensures urls == old(urls) + UrlsOver(env, pass, old(rendered), 0)
      ensures mentioned == (old(mentioned) || MentionOver(env, pass, old(rendered), 0))
      ensures (pass != Url ==> urls == old(urls)) && (pass != Mention ==> mentioned == old(mentioned))
    {
      hide PassOver;
      if pass == Mention && mentioned {
        return;
      }
      Rerender(env, pass);
    }
  }

  // The driver's own root element is not written back.
  method CopyTag(it: Item, str: Markup) returns (out: Markup)
    requires !it.Ch?
    ensures out == str + Copied(it)
  {
    out := str;
    if it.Start? && it.elem.name == ROOT_TAG {
      return;
    }
    if it.End? && it.name == ROOT_TAG {
      return;
    }
    out := out + [it];
  }
}
