/** Reading an IRC line, token by token as `strtok` finds them. */
module Parsing {
  import opened Wrappers
  import opened Sequences
  import opened CommandBuilder
  import opened Tags

  const SIRC_PARAM_COUNT := 64

  // ---------------------------------------------------------------- strtok

  function Skip(s: string, delims: string, i: nat): (j: nat)
    requires i <= |s|
    ensures i <= j <= |s|
    decreases |s| - i
  {
    if i < |s| && s[i] in delims then Skip(s, delims, i + 1) else i
  }

  function Span(s: string, delims: string, i: nat): (j: nat)
    requires i <= |s|
    ensures i <= j <= |s|
    decreases |s| - i
  {
    if i < |s| && s[i] !in delims then Span(s, delims, i + 1) else i
  }

  // The word that is found, and what the next call goes on with.
  datatype Token = Token(word: Option<string>, rest: string)

  function Strtok(s: string, delims: string): Token {
    var i := Skip(s, delims, 0);
    if i == |s| then Token(None, "")
    else
      var j := Span(s, delims, i);
      Token(Some(s[i..j]), if j == |s| then "" else s[j + 1..])
  }

  // What is left, if anything is: `strtok` without delimiters.
  function Remaining(s: string): Option<string> {
    if s == "" then None else Some(s)
  }

  lemma {:induction false} SpanIs(s: string, delims: string, i: nat, j: nat)
    requires i <= j <= |s| && (j == |s| || s[j] in delims) && forall k | i <= k < j :: s[k] !in delims
    ensures Span(s, delims, i) == j
    decreases j - i
  {
    if i < j {
      SpanIs(s, delims, i + 1, j);
    }
  }

  // A word and what is behind it.
  lemma {:induction false} StrtokWord(w: string, d: char, more: string, delims: string)
    requires w != "" && d in delims && forall c <- w :: c !in delims
    ensures Strtok(w + [d] + more, delims) == Token(Some(w), more)
  {
    var s := w + [d] + more;
    forall k | 0 <= k < |w| ensures s[k] !in delims {
      assert s[k] == w[k];
    }
    SpanIs(s, delims, 0, |w|);
    assert s[..|w|] == w && s[|w| + 1..] == more && s[0..|w|] == w;
  }

  lemma {:induction false} StrtokLast(w: string, delims: string)
    requires w != "" && forall c <- w :: c !in delims
    ensures Strtok(w, delims) == Token(Some(w), "")
  {
    forall k | 0 <= k < |w| ensures w[k] !in delims {
    }
    SpanIs(w, delims, 0, |w|);
    assert w[0..|w|] == w;
  }

  // --------------------------------------------------------- what a line says

  datatype Origin = Origin(nick: string, user: string, host: string)

  datatype Message = Message(tags: seq<Tag>, prefix: string, origin: Option<Origin>, cmd: string,
                             params: seq<Option<string>>)

  function OriginOf(prefix: string): Option<Origin> {
    var n := Strtok(prefix, "!");
    var u := Strtok(n.rest, "@");
    var h := Remaining(u.rest);
    if n.word.Some? && u.word.Some? && h.Some? then Some(Origin(n.word.value, u.word.value, h.value)) else None
  }

  // The words of a text.
  function Words(s: string): seq<string>
    decreases |s|
  {
    var t := Strtok(s, " ");
    if t.word.None? then [] else [t.word.value] + Words(t.rest)
  }

  function Given(ws: seq<string>): seq<Option<string>> {
    seq(|ws|, i requires 0 <= i < |ws| => Some(ws[i]))
  }

  // Where the trailing parameter starts in params[i..].
  function TrailingAt(s: string, i: nat): (j: nat)
    requires i <= |s|
    ensures i <= j <= |s| && (j < |s| ==> j + 1 < |s|)
    decreases |s| - i
  {
    if i == |s| then i
    else if i + 1 < |s| && s[i] == ' ' && s[i + 1] == ':' then i
    else TrailingAt(s, i + 1)
  }

  // Parameters in front of the trailing one.  If there is no word the list is
  // one parameter without a value.
  function MiddlesOf(s: string): seq<Option<string>> {
    if Words(s) == [] then [None] else Given(Words(s))
  }

  function ParamsOf(s: string): seq<Option<string>>
    requires s != ""
  {
    if s[0] == ':' then [Some(s[1..])]
    else
      var j := TrailingAt(s, 0);
      MiddlesOf(s[..j]) + if j < |s| then [Some(s[j + 2..])] else []
  }

  // The prefix, if there is one, and what follows it.
  function PrefixOf(line: string): Token {
    if line != "" && line[0] == ':' then Strtok(line[1..], " ") else Token(None, line)
  }

  // A line without tags.
  function ParseLine(line: string): Option<Message> {
    var p := PrefixOf(line);
    var c := Strtok(p.rest, " ");
    if c.word.None? || c.rest == "" || |ParamsOf(c.rest)| > SIRC_PARAM_COUNT then None
    else
      Some(Message([], if p.word.Some? then p.word.value else "",
                   if p.word.Some? then OriginOf(p.word.value) else None,
                   c.word.value, ParamsOf(c.rest)))
  }

  // A line with tags, if it starts with an at sign.
  function Parsed(line: string): Option<Message> {
    if line == "" || line[0] != '@' then ParseLine(line)
    else
      var e := Span(line, " ", 0);
      match ReadTags(line[1..], 0, START)
      case None => None
      case Some(tags) =>
        var m := ParseLine(if e == |line| then "" else line[e + 1..]);
        if m.None? then None else Some(m.value.(tags := tags))
  }

  // -------------------------------------------------------- parse and build

  // A word that can stand in the middle of a line.
  predicate IsWord(w: string) {
    w != "" && w[0] != ':' && forall c <- w :: c != ' '
  }

  predicate Sendable(cmd: string, middles: seq<string>, trailing: Option<string>) {
    && IsWord(cmd) && (forall m <- middles :: IsWord(m))
    && 1 <= |middles| + (if trailing.Some? then 1 else 0) <= SIRC_PARAM_COUNT
  }

  function ParamsSent(middles: seq<string>, trailing: Option<string>): seq<Option<string>> {
    Given(middles) + if trailing.Some? then [trailing] else []
  }

  function Prefixed(prefix: Option<string>, line: string): string {
    if prefix.Some? then ":" + prefix.value + " " + line else line
  }

  // Middles(ms, |ms|), written from the front.
  function Spaced(ms: seq<string>, i: nat): string
    requires i <= |ms|
    decreases |ms| - i
  {
    if i == |ms| then "" else " " + ms[i] + Spaced(ms, i + 1)
  }

  lemma {:induction false} MiddlesAreSpaced(ms: seq<string>, i: nat)
    requires i <= |ms|
    ensures Middles(ms, |ms|) == Middles(ms, i) + Spaced(ms, i)
    decreases |ms| - i
  {
    if i < |ms| {
      MiddlesAreSpaced(ms, i + 1);
      Join(Middles(ms, i), " ", ms[i], Spaced(ms, i + 1));
    }
  }

  lemma {:induction false} WordsOfSpaced(ms: seq<string>, i: nat)
    requires i < |ms| && forall m <- ms :: IsWord(m)
    ensures Words(ms[i] + Spaced(ms, i + 1)) == ms[i..]
    decreases |ms| - i
  {
    assert IsWord(ms[i]) by { assert ms[i] in ms; }
    if i + 1 == |ms| {
      LastWord(ms[i]);
    } else {
      WordsOfSpaced(ms, i + 1);
      NextWord(ms, i, ms[i], ms[i + 1], Spaced(ms, i + 2));
    }
  }

  lemma {:induction false} NextWord(ms: seq<string>, i: nat, w: string, v: string, more: string)
    requires i + 1 < |ms| && ms[i] == w && IsWord(w) && Words(v + more) == ms[i + 1..]
    ensures Words(w + (" " + v + more)) == ms[i..]
  {
    FirstWord(w, v + more);
    assert " " + v + more == " " + (v + more);
    assert ms[i..] == [w] + ms[i + 1..];
  }

  lemma {:induction false} LastWord(w: string)
    requires IsWord(w)
    ensures Words(w + "") == [w]
  {
    StrtokLast(w, " ");
    assert w + "" == w && Words("") == [];
  }

  lemma {:induction false} FirstWord(w: string, more: string)
    requires IsWord(w)
    ensures Words(w + (" " + more)) == [w] + Words(more)
  {
    StrtokWord(w, ' ', more, " ");
    assert w + (" " + more) == w + " " + more;
  }

  // The trailing parameter starts at the first " :".
  predicate NoTrailing(s: string) {
    forall k | 0 <= k && k + 1 < |s| :: !(s[k] == ' ' && s[k + 1] == ':')
  }

  lemma {:induction false} TrailingIs(s: string, i: nat, j: nat)
    requires i <= j <= |s| && (j == |s| || (j + 1 < |s| && s[j] == ' ' && s[j + 1] == ':'))
    requires forall k | i <= k < j && k + 1 < |s| :: !(s[k] == ' ' && s[k + 1] == ':')
    ensures TrailingAt(s, i) == j
    decreases j - i
  {
    if i < j {
      TrailingIs(s, i + 1, j);
    }
  }

  lemma {:induction false} SpacedHasNoTrailing(ms: seq<string>, i: nat)
    requires i <= |ms| && forall m <- ms :: IsWord(m)
    ensures NoTrailing(Spaced(ms, i)) && (Spaced(ms, i) != "" ==> Spaced(ms, i)[0] == ' ')
    decreases |ms| - i
  {
    if i < |ms| {
      SpacedHasNoTrailing(ms, i + 1);
      assert IsWord(ms[i]) by { assert ms[i] in ms; }
      WordBefore(ms[i], Spaced(ms, i + 1));
      assert (" " + ms[i])[1..] == ms[i];
    }
  }

  lemma {:induction false} WordBefore(w: string, more: string)
    requires IsWord(w) && NoTrailing(more) && (more != "" ==> more[0] == ' ')
    ensures NoTrailing(" " + w + more)
  {
    var s := " " + w + more;
    forall k | 0 <= k && k + 1 < |s| ensures !(s[k] == ' ' && s[k + 1] == ':') {
      if k > |w| {
        assert s[k] == more[k - |w| - 1] && s[k + 1] == more[k + 1 - |w| - 1];
      } else if k > 0 {
        assert s[k] == w[k - 1] && w[k - 1] in w;
      }
    }
  }

  // The parameters of a line, after the blank behind the command.
  function ParamText(middles: seq<string>, trailing: Option<string>): string {
    if middles == [] then ":" + (if trailing.Some? then trailing.value else "")
    else middles[0] + Spaced(middles, 1) + Trailing(trailing)
  }

  lemma {:induction false} ParamsBack(body: string, ms: seq<string>, trailing: Option<string>)
    requires body != "" && body[0] != ':' && NoTrailing(body) && Words(body) == ms && ms != []
    ensures ParamsOf(body + Trailing(trailing)) == ParamsSent(ms, trailing)
  {
    if trailing.Some? {
      TrailingFound(body, trailing.value);
    } else {
      TrailingIs(body, 0, |body|);
      assert body + "" == body && body[..|body|] == body;
    }
  }

  lemma {:induction false} TrailingFound(body: string, trailing: string)
    requires NoTrailing(body)
    ensures var s := body + (" :" + trailing);
      TrailingAt(s, 0) == |body| && s[..|body|] == body && s[|body| + 2..] == trailing
  {
    var s := body + (" :" + trailing);
    forall k | 0 <= k < |body| ensures !(s[k] == ' ' && s[k + 1] == ':') {
      assert k + 1 < |body| ==> s[k] == body[k] && s[k + 1] == body[k + 1];
    }
    TrailingIs(s, 0, |body|);
  }

  lemma {:induction false} ParamTextBack(middles: seq<string>, trailing: Option<string>)
    requires (forall m <- middles :: IsWord(m)) && (middles != [] || trailing.Some?)
    ensures ParamText(middles, trailing) != ""
    ensures ParamsOf(ParamText(middles, trailing)) == ParamsSent(middles, trailing)
  {
    if middles == [] {
      assert (":" + trailing.value)[1..] == trailing.value;
    } else {
      assert IsWord(middles[0]) by { assert middles[0] in middles; }
      var body := middles[0] + Spaced(middles, 1);
      WordsOfSpaced(middles, 0);
      SpacedHasNoTrailing(middles, 0);
      BehindBlank(middles[0], Spaced(middles, 1));
      assert middles[0..] == middles;
      ParamsBack(body, middles, trailing);
    }
  }

  lemma BehindBlank(w: string, more: string)
    requires NoTrailing(" " + w + more)
    ensures NoTrailing(w + more)
  {
    var s, t := w + more, " " + w + more;
    forall k | 0 <= k && k + 1 < |s| ensures !(s[k] == ' ' && s[k + 1] == ':') {
      assert s[k] == t[k + 1] && s[k + 1] == t[k + 1 + 1];
    }
  }

  lemma {:induction false} LineIs(cmd: string, middles: seq<string>, trailing: Option<string>)
    requires middles != [] || trailing.Some?
    ensures Line(cmd, middles, trailing) == cmd + " " + ParamText(middles, trailing)
  {
    MiddlesAreSpaced(middles, 0);
    if middles == [] {
      assert cmd + "" + (" :" + trailing.value) == cmd + " " + (":" + trailing.value);
    } else {
      LineJoins(cmd, middles[0], Spaced(middles, 1), Trailing(trailing));
    }
  }

  lemma LineJoins(cmd: string, w: string, more: string, trailing: string)
    ensures cmd + ("" + (" " + w + more)) + trailing == cmd + " " + (w + more + trailing)
  {
  }

  /** Parsing undoes building: command, prefix and parameters come back in order,
    * whatever the trailing parameter holds. */
  lemma {:induction false} ParseUndoesBuild(prefix: Option<string>, cmd: string, middles: seq<string>,
                                            trailing: Option<string>)
    requires Sendable(cmd, middles, trailing)
    requires prefix.Some? ==> prefix.value != "" && forall c <- prefix.value :: c != ' '
    ensures ParseLine(Prefixed(prefix, Line(cmd, middles, trailing)))
         == Some(Message([], if prefix.Some? then prefix.value else "",
                         if prefix.Some? then OriginOf(prefix.value) else None,
                         cmd, ParamsSent(middles, trailing)))
  {
    var text := ParamText(middles, trailing);
    LineIs(cmd, middles, trailing);
    ParamTextBack(middles, trailing);
    StrtokWord(cmd, ' ', text, " ");
    PrefixBack(prefix, cmd + " " + text);
  }

  lemma {:induction false} PrefixBack(prefix: Option<string>, line: string)
    requires line != "" && line[0] != ':'
    requires prefix.Some? ==> prefix.value != "" && forall c <- prefix.value :: c != ' '
    ensures PrefixOf(Prefixed(prefix, line)) == Token(prefix, line)
  {
    if prefix.Some? {
      assert Prefixed(prefix, line)[1..] == prefix.value + " " + line;
      StrtokWord(prefix.value, ' ', line, " ");
    }
  }

  /** A user's prefix is taken apart. */
  lemma {:induction false} OriginBack(nick: string, user: string, host: string)
    requires nick != "" && (forall c <- nick :: c != '!') && user != "" && (forall c <- user :: c != '@') && host != ""
    ensures OriginOf(nick + "!" + user + "@" + host) == Some(Origin(nick, user, host))
  {
    var behind := user + "@" + host;
    assert nick + "!" + user + "@" + host == nick + "!" + behind;
    StrtokWord(nick, '!', behind, "!");
    StrtokWord(user, '@', host, "@");
  }

  /** Blanks where parameters are expected are one parameter that is missing. */
  lemma {:induction false} BlankParameters(s: string)
    requires s != "" && forall c <- s :: c == ' '
    ensures ParamsOf(s) == [None]
  {
    assert forall c <- s :: c != ':';
    NoColon(s, 0);
    OnlyBlanks(s, 0);
    assert s[..|s|] == s;
  }

  lemma {:induction false} NoColon(s: string, i: nat)
    requires i <= |s| && forall c <- s :: c != ':'
    ensures TrailingAt(s, i) == |s|
    decreases |s| - i
  {
    if i < |s| {
      assert i + 1 < |s| ==> s[i + 1] in s;
      NoColon(s, i + 1);
    }
  }

  lemma {:induction false} OnlyBlanks(s: string, i: nat)
    requires i <= |s| && forall c <- s :: c == ' '
    ensures Skip(s, " ", i) == |s|
    decreases |s| - i
  {
    if i < |s| {
      assert s[i] in s;
      OnlyBlanks(s, i + 1);
    }
  }

  /** A prefix without '!', as a server's, or without '@' behind it, has no parts. */
  lemma {:induction false} ServerHasNoOrigin(prefix: string)
    requires (forall c <- prefix :: c != '!') || (forall c <- prefix :: c != '@')
    ensures OriginOf(prefix) == None
  {
    var n := Strtok(prefix, "!");
    if forall c <- prefix :: c != '!' {
      if prefix != "" {
        StrtokLast(prefix, "!");
      }
    } else {
      var rest := n.rest;
      forall c <- rest ensures c != '@' {
        RestIsBehind(prefix, "!");
        assert c in prefix;
      }
      if rest != "" {
        StrtokLast(rest, "@");
      }
    }
  }

  lemma RestIsBehind(s: string, delims: string)
    ensures forall c <- Strtok(s, delims).rest :: c in s
  {
  }

  lemma NoTags(prefix: Option<string>, line: string)
    requires line != "" && line[0] != '@'
    ensures Parsed(Prefixed(prefix, line)) == ParseLine(Prefixed(prefix, line))
  {
  }

  /** The same with tags in front. */
  lemma {:induction false} TagsInFront(ts: seq<Tag>, line: string, m: Message)
    requires ts != [] && (forall t <- ts :: PlainKey(t.key)) && |TagsText(ts, 0)| <= TAGS_SIZE_LIMIT
    requires ParseLine(line) == Some(m)
    ensures Parsed("@" + TagsText(ts, 0) + line) == Some(m.(tags := Normals(ts, 0)))
  {
    hide ReadTags, ParseLine, TagsText, Parsed, Normals, Sound;
    TagsComeBack(ts, line);
    OneBlank(ts, 0);
    BlankFound(TagsText(ts, 0), line);
    var section, whole := TagsText(ts, 0) + line, "@" + TagsText(ts, 0) + line;
    assert whole[1..] == section;
    ParsedBehindTags(whole, section, |TagsText(ts, 0)|, line, Normals(ts, 0), m);
  }

  lemma {:induction false} ParsedBehindTags(whole: string, section: string, e: nat, line: string, tags: seq<Tag>,
                                            m: Message)
    requires whole != "" && whole[0] == '@' && whole[1..] == section && ReadTags(section, 0, START) == Some(tags)
    requires e < |whole| && Span(whole, " ", 0) == e && whole[e + 1..] == line && ParseLine(line) == Some(m)
    ensures Parsed(whole) == Some(m.(tags := tags))
  {
    hide Span, ReadTags, ParseLine;
  }

  lemma {:induction false} BlankFound(text: string, line: string)
    requires text != "" && text[|text| - 1] == ' ' && forall j | 0 <= j < |text| - 1 :: text[j] != ' '
    ensures var whole := "@" + text + line; Span(whole, " ", 0) == |text| && whole[|text| + 1..] == line
  {
    var whole := "@" + text + line;
    forall k | 0 <= k < |text| ensures whole[k] !in " " {
      assert whole[k] == ("@" + text)[k];
      assert k > 0 ==> whole[k] == text[k - 1];
    }
    assert whole[|text|] == text[|text| - 1];
    SpanIs(whole, " ", 0, |text|);
  }

  // -------------------------------------------------------------- the parser

  class SircMessage {
    var tags: seq<Tag>
    var prefix: string
    var origin: Option<Origin>
    var cmd: string
    const params: array<Option<string>>
    var nparam: nat

    predicate Valid()
      reads this
    {
      params.Length == SIRC_PARAM_COUNT && nparam <= params.Length
    }

    function Params(): seq<Option<string>>
      requires Valid()
      reads this, params
    {
      params[..nparam]
    }

    function Value(): Message
      requires Valid()
      reads this, params
    {
      Message(tags, prefix, origin, cmd, Params())
    }

    constructor ()
      ensures Valid() && fresh(params) && Value() == Message([], "", None, "", [])
    {
      tags, prefix, origin, cmd := [], "", None, "";
      params := new Option<string>[SIRC_PARAM_COUNT](_ => None);
      nparam := 0;
    }

    method AddParam(param: Option<string>) returns (ok: bool)
      requires Valid()
      modifies this`nparam, params
      ensures Valid() && ok == (|old(Params())| < SIRC_PARAM_COUNT)
      ensures ok ==> Params() == old(Params()) + [param]
    {
      if nparam >= SIRC_PARAM_COUNT {
        return false;
      }
      params[nparam] := param;
      nparam := nparam + 1;
      assert params[..nparam] == old(params[..nparam]) + [param];
      return true;
    }

    // The words of a text, or one parameter without a value.
    method AddMiddles(text: string) returns (ok: bool)
      requires Valid()
      modifies this`nparam, params
      ensures Valid() && ok == (|old(Params())| + |MiddlesOf(text)| <= SIRC_PARAM_COUNT)
      ensures ok ==> Params() == old(Params()) + MiddlesOf(text)
    {
      ghost var before := Params();
      var t := Strtok(text, " ");
      ok := AddParam(t.word);
      if !ok {
        return;
      }
      MiddlesAre(text);
      assert before + MiddlesOf(text) == before + [t.word] + Coming(Strtok(t.rest, " "));
      t := Strtok(t.rest, " ");
      while t.word.Some?
        invariant Valid() && Params() + Coming(t) == before + MiddlesOf(text)
        decreases if t.word.Some? then |t.rest| + 1 else 0
      {
        ok := AddParam(t.word);
        if !ok {
          return;
        }
        ComingNext(Params(), t);
        t := Strtok(t.rest, " ");
      }
    }

    method AddParams(text: string) returns (ok: bool)
      requires Valid() && nparam == 0 && text != ""
      modifies this`nparam, params
      ensures Valid() && ok == (|ParamsOf(text)| <= SIRC_PARAM_COUNT)
      ensures ok ==> Params() == ParamsOf(text)
    {
      var trailing := None;
      if text[0] == ':' {
        trailing := Some(text[1..]);
      } else {
        var j := FindTrailing(text);
        if j < |text| {
          trailing := Some(text[j + 2..]);
        }
        ok := AddMiddles(text[..j]);
        if !ok {
          return;
        }
      }
      if trailing.Some? {
        ok := AddParam(trailing);
        return;
      }
      ok := true;
    }

    /** Reads a line into a new message.  A tag section has to be sound. */
    method Parse(line: string) returns (ok: bool)
      requires Valid() && Value() == Message([], "", None, "", [])
      requires line != "" && line[0] == '@' ==> Sound(line[1..], 0, true)
      modifies this, params
      ensures Valid() && ok == Parsed(line).Some? && (ok ==> Value() == Parsed(line).value)
    {
      var rest := line;
      if line != "" && line[0] == '@' {
        var section := ReadSection(line[1..]);
        if section.None? {
          return false;
        }
        tags := section.value;
        var e := Span(line, " ", 0);
        rest := if e == |line| then "" else line[e + 1..];
      }
      ok := ParseRfc1459(rest);
    }

    method ParseRfc1459(line: string) returns (ok: bool)
      requires Valid() && prefix == "" && origin.None? && nparam == 0
      modifies this`prefix, this`origin, this`cmd, this`nparam, params
      ensures Valid() && ok == ParseLine(line).Some? && (ok ==> Value() == ParseLine(line).value.(tags := tags))
    {
      var p := if line != "" && line[0] == ':' then Strtok(line[1..], " ") else Token(None, line);
      var c := Strtok(p.rest, " ");
      var text := Remaining(c.rest);
      if c.word.None? || text.None? {
        return false;
      }
      cmd := c.word.value;
      if p.word.Some? {
        prefix := p.word.value;
        origin := OriginOf(p.word.value);
      }
      ok := AddParams(text.value);
    }
  }

  // What the loop over the words has still to add.
  function Coming(t: Token): seq<Option<string>> {
    if t.word.None? then [] else [t.word] + Given(Words(t.rest))
  }

  lemma ComingNext(params: seq<Option<string>>, t: Token)
    requires t.word.Some? && params != [] && params[|params| - 1] == t.word
    ensures params[..|params| - 1] + Coming(t) == params + Coming(Strtok(t.rest, " "))
  {
    ComingIs(t.rest);
  }

  lemma {:induction false} ComingIs(s: string)
    ensures Coming(Strtok(s, " ")) == Given(Words(s))
  {
    var t := Strtok(s, " ");
    if t.word.Some? {
      assert Given([t.word.value] + Words(t.rest)) == [t.word] + Given(Words(t.rest));
    }
  }

  lemma {:induction false} MiddlesAre(s: string)
    ensures var t := Strtok(s, " "); MiddlesOf(s) == [t.word] + Coming(Strtok(t.rest, " "))
  {
    var t := Strtok(s, " ");
    ComingIs(t.rest);
    if t.word.Some? {
      assert Given([t.word.value] + Words(t.rest)) == [t.word] + Given(Words(t.rest));
    } else {
      assert Words("") == [] && Given([]) == [];
    }
  }

  // Looks for " :".
  method FindTrailing(s: string) returns (j: nat)
    ensures j == TrailingAt(s, 0)
  {
    j := 0;
    while j < |s| && !(j + 1 < |s| && s[j] == ' ' && s[j + 1] == ':')
      invariant j <= |s| && TrailingAt(s, j) == TrailingAt(s, 0)
    {
      j := j + 1;
    }
  }
}
