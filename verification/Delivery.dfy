/** From the sender's message to the receiver's: what the splitter writes, the
  * framer takes apart and the parser reads. */
module Delivery {
  import opened Wrappers
  import opened Utf8
  import opened CommandBuilder
  import opened Sending
  import opened Framing
  import opened Parsing

  // Section 2.3 of RFC 2812: a line has at most 512 bytes, CR and LF included.
  const RFC_LINE_LIMIT := 512

  // One line of a message, without its line end.
  function Sentence(chan: string, chunk: string): string {
    Line(PRIVMSG, [chan], Some(chunk))
  }

  function Sentences(chan: string, chunks: seq<string>): seq<string> {
    seq(|chunks|, i requires 0 <= i < |chunks| => Sentence(chan, chunks[i]))
  }

  // What can stand in a line: no line end, and no NUL, at which a C string ends.
  predicate OneLine(s: string) {
    forall c <- s :: c != '\r' && c != '\n' && c != '\0'
  }

  // A prefix that fits the room left for it.
  predicate ShortPrefix(prefix: Option<string>) {
    prefix.Some? ==>
      && prefix.value != "" && (forall c <- prefix.value :: c != ' ') && OneLine(prefix.value)
      && |prefix.value| + 2 <= MAGIC_PREFIX_LEN
  }

  // ------------------------------------------------------------ on the wire

  lemma {:induction false} WrittenLines(chan: string, chunks: seq<string>, n: nat)
    requires n <= |chunks|
    ensures Written(chan, Parts(chunks), |chunks|)
         == Written(chan, Parts(chunks), n) + Unlines(Sentences(chan, chunks)[n..])
    decreases |chunks| - n
  {
    if n == |chunks| {
      assert Sentences(chan, chunks)[n..] == [];
      assert Written(chan, Parts(chunks), n) + "" == Written(chan, Parts(chunks), n);
    } else {
      WrittenLines(chan, chunks, n + 1);
      WrittenNext(chan, chunks, n);
      LineBehind(Written(chan, Parts(chunks), n), Sentences(chan, chunks), n);
    }
  }

  lemma {:induction false} WrittenNext(chan: string, chunks: seq<string>, n: nat)
    requires n < |chunks|
    ensures Written(chan, Parts(chunks), n + 1)
         == Written(chan, Parts(chunks), n) + (Sentences(chan, chunks)[n] + CRLF)
  {
  }

  lemma {:induction false} LineBehind(before: string, lines: seq<string>, n: nat)
    requires n < |lines|
    ensures before + (lines[n] + CRLF) + Unlines(lines[n + 1..]) == before + Unlines(lines[n..])
  {
    assert lines[n..][1..] == lines[n + 1..] && lines[n..][0] == lines[n];
    Behind(before, lines[n], CRLF, Unlines(lines[n + 1..]));
    assert before + (lines[n] + CRLF) + Unlines(lines[n + 1..]) == before + (lines[n] + CRLF + Unlines(lines[n + 1..]));
  }

  lemma {:induction false} SentenceText(chan: string, chunk: string)
    ensures Sentence(chan, chunk) == PRIVMSG + " " + chan + " :" + chunk
    ensures LineOf(chan, Some(chunk)) == Sentence(chan, chunk) + CRLF
  {
    LineText(PRIVMSG, chan, chunk);
  }

  lemma {:induction false} LineText(cmd: string, target: string, text: string)
    ensures Line(cmd, [target], Some(text)) == cmd + " " + target + " :" + text
  {
    assert Middles([target], 1) == " " + target by { assert Middles([target], 0) == ""; }
    assert cmd + (" " + target) + (" :" + text) == cmd + " " + target + " :" + text;
  }

  lemma OneLineJoin(a: string, b: string)
    requires OneLine(a) && OneLine(b)
    ensures OneLine(a + b)
  {
  }

  lemma OneLineHasNoCrlf(s: string)
    requires OneLine(s)
    ensures NoCrlf(s) && '\0' !in s
  {
    assert forall i | 0 <= i < |s| :: s[i] in s;
  }

  lemma {:induction false} SentenceIsOneLine(cmd: string, chan: string, text: string)
    requires OneLine(cmd) && OneLine(chan) && OneLine(text)
    ensures OneLine(cmd + " " + chan + " :" + text)
  {
    OneLineJoin(cmd, " ");
    OneLineJoin(cmd + " ", chan);
    OneLineJoin(cmd + " " + chan, " :");
    OneLineJoin(cmd + " " + chan + " :", text);
  }

  lemma {:induction false} OneLineParts(chunks: seq<string>)
    requires OneLine(Concat(chunks))
    ensures forall c <- chunks :: OneLine(c)
  {
    if chunks != [] {
      var all := Concat(chunks);
      assert forall c <- chunks[0] :: c in all;
      assert forall c <- Concat(chunks[1..]) :: c in all;
      OneLineParts(chunks[1..]);
      assert forall c <- chunks :: c == chunks[0] || c in chunks[1..];
    }
  }

  // ----------------------------------------------------------- the theorem

  // What the receiver reads of one line.
  function MessageOf(prefix: Option<string>, cmd: string, target: string, text: string): Message {
    Message([], if prefix.Some? then prefix.value else "", if prefix.Some? then OriginOf(prefix.value) else None,
            cmd, [Some(target), Some(text)])
  }

  lemma {:induction false} LineRead(prefix: Option<string>, cmd: string, target: string, text: string)
    requires IsWord(cmd) && cmd[0] != '@' && IsWord(target)
    requires prefix.Some? ==> prefix.value != "" && forall c <- prefix.value :: c != ' '
    ensures Parsed(Prefixed(prefix, Line(cmd, [target], Some(text)))) == Some(MessageOf(prefix, cmd, target, text))
  {
    ParseUndoesBuild(prefix, cmd, [target], Some(text));
    LineText(cmd, target, text);
    NoTags(prefix, Line(cmd, [target], Some(text)));
    assert ParamsSent([target], Some(text)) == [Some(target), Some(text)];
  }

  lemma {:induction false} SentenceRead(prefix: Option<string>, chan: string, chunk: string)
    requires IsWord(chan)
    requires prefix.Some? ==> prefix.value != "" && forall c <- prefix.value :: c != ' '
    ensures Parsed(Prefixed(prefix, Sentence(chan, chunk))) == Some(MessageOf(prefix, PRIVMSG, chan, chunk))
  {
    LineRead(prefix, PRIVMSG, chan, chunk);
  }

  // The text of a message to a channel.
  function TextOf(line: string): string {
    var m := Parsed(line);
    if m.Some? && |m.value.params| == 2 && m.value.params[1].Some? then m.value.params[1].value else ""
  }

  function Texts(lines: seq<string>): seq<string> {
    seq(|lines|, i requires 0 <= i < |lines| => TextOf(lines[i]))
  }

  // ------------------------------------------------------ what is received

  // A line that is a message to the channel, in UTF-8, and not too long.
  ghost predicate ReadsAs(prefix: Option<string>, chan: string, line: string) {
    var text := TextOf(line);
    && line == (if prefix.Some? then ":" + prefix.value + " " else "") + ("PRIVMSG " + chan + " :" + text)
    && Parsed(line) == Some(MessageOf(prefix, PRIVMSG, chan, text))
    && Utf8Text(text) && |line + CRLF| <= RFC_LINE_LIMIT
  }

  /** Whoever receives the bytes, and reads the lines as C strings, reads nothing but
    * messages to the channel, whose texts add up to the message; nothing is left, and
    * the buffer does not overflow. */
  ghost predicate Delivers(bytes: string, prefix: Option<string>, chan: string, msg: string) {
    var frames := Split(bytes);
    var lines := CStrings(frames.lines);
    && frames.rest == "" && Fits(frames)
    && Concat(Texts(lines)) == msg && forall line <- lines :: ReadsAs(prefix, chan, line)
  }

  // Lines with a prefix in front of each, as a relay passes them on.
  function Prefixes(prefix: Option<string>, lines: seq<string>): seq<string> {
    seq(|lines|, i requires 0 <= i < |lines| => Prefixed(prefix, lines[i]))
  }

  lemma {:induction false} SentenceLetters(prefix: Option<string>, chan: string, chunk: string)
    ensures Prefixed(prefix, Sentence(chan, chunk))
         == (if prefix.Some? then ":" + prefix.value + " " else "") + ("PRIVMSG " + chan + " :" + chunk)
  {
    SentenceText(chan, chunk);
    assert PRIVMSG + " " == "PRIVMSG ";
    assert "" + Sentence(chan, chunk) == Sentence(chan, chunk);
  }

  lemma {:induction false} SentenceReadsAs(prefix: Option<string>, chan: string, chunk: string)
    requires IsWord(chan) && Utf8Text(chunk) && |LineOf(chan, Some(chunk))| <= MESSAGE_SIZE && ShortPrefix(prefix)
    ensures ReadsAs(prefix, chan, Prefixed(prefix, Sentence(chan, chunk)))
    ensures TextOf(Prefixed(prefix, Sentence(chan, chunk))) == chunk
  {
    hide Parsed, Utf8Text, IsWord;
    SentenceRead(prefix, chan, chunk);
    SentenceLetters(prefix, chan, chunk);
    PrefixedLength(prefix, chan, chunk);
  }

  lemma {:induction false} PrefixedLength(prefix: Option<string>, chan: string, chunk: string)
    requires |LineOf(chan, Some(chunk))| <= MESSAGE_SIZE && ShortPrefix(prefix)
    ensures |Prefixed(prefix, Sentence(chan, chunk)) + CRLF| <= RFC_LINE_LIMIT
  {
    SentenceText(chan, chunk);
  }

  lemma {:induction false} PrefixedIsOneLine(prefix: Option<string>, line: string)
    requires OneLine(line) && ShortPrefix(prefix)
    ensures OneLine(Prefixed(prefix, line))
  {
    if prefix.Some? {
      OneLineJoin(":", prefix.value);
      OneLineJoin(":" + prefix.value, " ");
      OneLineJoin(":" + prefix.value + " ", line);
    }
  }

  // Lines that are clean come back from their bytes, also as C strings.
  lemma {:induction false} LinesComeBack(lines: seq<string>)
    requires forall l <- lines :: OneLine(l)
    ensures Split(Unlines(lines)) == Frames(lines, "") && CStrings(lines) == lines
  {
    forall l <- lines ensures NoCrlf(l) && '\0' !in l {
      OneLineHasNoCrlf(l);
    }
    SplitOfUnlines(lines, "");
    CStringsKeepIff(lines);
    assert Unlines(lines) + "" == Unlines(lines);
  }

  lemma {:induction false} SentencesAreLines(prefix: Option<string>, chan: string, chunks: seq<string>)
    requires OneLine(chan) && (forall c <- chunks :: OneLine(c)) && ShortPrefix(prefix)
    ensures forall l <- Prefixes(prefix, Sentences(chan, chunks)) :: OneLine(l)
  {
    forall l <- Prefixes(prefix, Sentences(chan, chunks)) ensures OneLine(l) {
      var i :| 0 <= i < |chunks| && l == Prefixed(prefix, Sentence(chan, chunks[i]));
      SentenceText(chan, chunks[i]);
      SentenceIsOneLine(PRIVMSG, chan, chunks[i]);
      PrefixedIsOneLine(prefix, Sentence(chan, chunks[i]));
    }
  }

  // The chunks of a message, sent to a channel and passed on.
  lemma {:induction false} ChunksDelivered(prefix: Option<string>, chan: string, chunks: seq<string>)
    requires IsWord(chan) && OneLine(chan) && ShortPrefix(prefix)
    requires forall c <- chunks :: OneLine(c) && Utf8Text(c) && |LineOf(chan, Some(c))| <= MESSAGE_SIZE
    ensures Delivers(Unlines(Prefixes(prefix, Sentences(chan, chunks))), prefix, chan, Concat(chunks))
  {
    var lines := Prefixes(prefix, Sentences(chan, chunks));
    SentencesAreLines(prefix, chan, chunks);
    LinesComeBack(lines);
    forall i | 0 <= i < |chunks|
      ensures ReadsAs(prefix, chan, lines[i]) && TextOf(lines[i]) == chunks[i]
    {
      SentenceReadsAs(prefix, chan, chunks[i]);
    }
    assert Texts(lines) == chunks;
  }

  /** The bytes of a message are received as messages to the channel whose texts add up
    * to it, directly, and when a relay passes the lines on with a prefix in front. */
  lemma {:induction false} EndToEnd(chan: string, msg: string, turns: nat, prefix: Option<string>)
    requires |chan| <= 445 && IsWord(chan) && !IsBlank(chan) && OneLine(chan)
    requires Utf8Text(msg) && !IsBlank(msg) && OneLine(msg) && turns >= |msg| && ShortPrefix(prefix)
    ensures SendOutcome(chan, msg, turns).Sent?
    ensures var parts := SendOutcome(chan, msg, turns).parts;
      var bytes := Written(chan, parts, |parts|);
      && Delivers(bytes, None, chan, msg)
      && Delivers(Unlines(Prefixes(prefix, CStrings(Split(bytes).lines))), prefix, chan, msg)
  {
    hide Delivers, Split, CStrings, Prefixes, Sentences, Written, Unlines, OneLine;
    SplitterDelivers(chan, msg, turns);
    var chunks := Chunks(Cutter(HeadLength(chan)), msg, 0);
    OneLineParts(chunks);
    SentencesSent(chan, chunks);
    ChunksDelivered(None, chan, chunks);
    ChunksDelivered(prefix, chan, chunks);
  }

  // The bytes written are those of the sentences, which a relay reads.
  lemma {:induction false} SentencesSent(chan: string, chunks: seq<string>)
    requires OneLine(chan) && forall c <- chunks :: OneLine(c)
    ensures var bytes := Written(chan, Parts(chunks), |chunks|);
      && bytes == Unlines(Prefixes(None, Sentences(chan, chunks)))
      && CStrings(Split(bytes).lines) == Sentences(chan, chunks)
  {
    var lines := Sentences(chan, chunks);
    WrittenLines(chan, chunks, 0);
    SentencesAreLines(None, chan, chunks);
    assert Prefixes(None, lines) == lines == lines[0..];
    LinesComeBack(lines);
    assert "" + Unlines(lines) == Unlines(lines);
  }
}
