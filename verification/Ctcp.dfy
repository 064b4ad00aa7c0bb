/** CTCP: commands that travel inside a message. */
module Ctcp {
  import opened Wrappers
  import opened AsciiCase
  import opened CommandBuilder
  import opened Sending
  import opened Framing
  import opened Parsing
  import opened Delivery

  // The character that stands at both ends of a CTCP text.
  const MARK: char := 1 as char
  const NOTICE := "NOTICE"

  // -------------------------------------------------------------- sending

  // Requests go out as PRIVMSG, responses as NOTICE.
  function Carrier(response: bool): string {
    if response then NOTICE else PRIVMSG
  }

  function CtcpText(cmd: string, msg: Option<string>): string {
    [MARK] + cmd + (if msg.Some? then " " + msg.value else "") + [MARK]
  }

  // What goes out of a line.
  function Clamped(line: string): string {
    if |line| > RAW_LIMIT then line[..RAW_LIMIT] else line
  }

  // The line that carries a CTCP text, without its line end.
  function CtcpLineOf(response: bool, target: string, cmd: string, msg: Option<string>): string {
    Line(Carrier(response), [target], Some(CtcpText(cmd, msg)))
  }

  method SendCtcp(session: Session, response: bool, target: string, cmd: string, msg: Option<string>)
      returns (ok: bool)
    modifies session
    ensures ok == (!IsBlank(target) && !IsBlank(cmd))
    ensures var line := CtcpLineOf(response, target, cmd, msg) + CRLF;
      session.out == old(session.out) +
        if ok then Clamped(line) else ""
  {
    if IsBlank(target) || IsBlank(cmd) {
      return false;
    }
    var text := Carrier(response) + " " + target + " :" + [MARK] + cmd;
    if msg.Some? {
      text := text + " " + msg.value;
    }
    text := text + [MARK] + "\r\n";
    CtcpLine(response, target, cmd, msg);
    session.Raw(text);
    return true;
  }

  lemma CtcpLine(response: bool, target: string, cmd: string, msg: Option<string>)
    ensures var text := Carrier(response) + " " + target + " :" + [MARK] + cmd;
      Line(Carrier(response), [target], Some(CtcpText(cmd, msg))) + CRLF
        == (if msg.Some? then text + " " + msg.value else text) + [MARK] + "\r\n"
  {
    LineText(Carrier(response), target, CtcpText(cmd, msg));
    if msg.Some? {
      Flatten(Carrier(response) + " " + target + " :", [MARK], cmd, " " + msg.value, CRLF);
      Flatten(Carrier(response) + " " + target + " :" + [MARK] + cmd, " ", msg.value, [MARK], CRLF);
    } else {
      Flatten(Carrier(response) + " " + target + " :", [MARK], cmd, "", CRLF);
    }
  }

  lemma Flatten(a: string, b: string, c: string, d: string, e: string)
    ensures a + (b + c + d + b) + e == a + b + c + d + b + e
    ensures a + b + c + d + e == a + (b + c) + d + e
    ensures a + "" == a
  {
  }

  // ------------------------------------------------------------- receiving

  predicate IsCtcp(text: string) {
    |text| >= 2 && text[0] == MARK && text[|text| - 1] == MARK
  }

  // What a CTCP text carries: a command and the text behind it.
  datatype Carried = Carried(cmd: Option<string>, msg: Option<string>)

  function Unwrapped(text: string): Carried
    requires text != ""
  {
    var t := Strtok(if |text| == 1 then "" else text[1..|text| - 1], " ");
    Carried(t.word, Remaining(t.rest))
  }

  // What the event handlers are called with.
  datatype Event =
    | CtcpEvent(response: bool, origin: string, cmd: Option<string>, params: seq<Option<string>>)
    | OtherEvent

  function Sender(m: Message): string {
    if m.origin.Some? then m.origin.value.nick else m.prefix
  }

  // The event of a message that carries CTCP in its last parameter.
  function EventOf(m: Message): Event
    requires m.params != [] && m.params[|m.params| - 1].Some? && m.params[|m.params| - 1].value != ""
  {
    var n := |m.params| - 1;
    Passed(m, m.params[..n], Unwrapped(m.params[n].value))
  }

  // The event's last parameter is the text, if there is one.
  function Passed(m: Message, others: seq<Option<string>>, c: Carried): Event {
    CtcpEvent(!SameName(m.cmd, PRIVMSG), Sender(m), c.cmd, if c.msg.Some? then others + [c.msg] else others)
  }

  /** The CTCP handler lends the last parameter to the event and takes it back. */
  method HandleCtcp(m: SircMessage) returns (event: Event)
    requires m.Valid() && m.nparam > 0 && m.params[m.nparam - 1].Some? && m.params[m.nparam - 1].value != ""
    modifies m.params
    ensures m.Valid() && m.Value() == old(m.Value()) && event == EventOf(m.Value())
  {
    var last := m.nparam - 1;
    var tmp := m.params[last];
    var c := Unwrapped(tmp.value);
    ghost var v := m.Value();
    assert v.params[..last] == m.params[..last];
    event := Dispatch(m, c);
    m.params[last] := tmp;
    assert m.params[..m.nparam] == v.params;
  }

  // Calls the event; the parameter is not taken back yet.
  method Dispatch(m: SircMessage, c: Carried) returns (event: Event)
    requires m.Valid() && m.nparam > 0
    modifies m.params
    ensures m.params[..m.nparam - 1] == old(m.params[..m.nparam - 1])
    ensures event == Passed(old(m.Value()), old(m.params[..m.nparam - 1]), c)
  {
    var last := m.nparam - 1;
    var response := !SameName(m.cmd, PRIVMSG);
    var origin := if m.origin.Some? then m.origin.value.nick else m.prefix;
    if c.msg.None? {
      event := CtcpEvent(response, origin, c.cmd, m.params[..last]);
    } else {
      m.params[last] := c.msg;
      assert m.params[..m.nparam] == old(m.params[..last]) + [c.msg];
      event := CtcpEvent(response, origin, c.cmd, m.params[..m.nparam]);
    }
  }

  /** A message or notice whose second parameter looks like CTCP goes to the CTCP
    * handler, which reads the last parameter. */
  method HandleMessage(m: SircMessage) returns (event: Event)
    requires m.Valid() && (m.nparam > 2 ==> m.params[m.nparam - 1] != Some(""))
    modifies m.params
    ensures m.Valid() && m.Value() == old(m.Value())
    ensures var v := m.Value();
      event == if Detected(v) then EventOf(v) else OtherEvent
  {
    for i := 0 to m.nparam
      invariant forall j | 0 <= j < i :: m.params[j].Some?
      invariant m.params[..] == old(m.params[..])
    {
      if m.params[i].None? {
        assert m.params[i] in m.Value().params;
        return OtherEvent;
      }
    }
    event := OtherEvent;
    if (SameName(m.cmd, PRIVMSG) || SameName(m.cmd, NOTICE)) && m.nparam >= 2 {
      if IsCtcp(m.params[1].value) {
        event := HandleCtcp(m);
      }
    }
  }

  predicate Detected(m: Message) {
    && (forall p <- m.params :: p.Some?) && |m.params| >= 2 && m.params[|m.params| - 1] != Some("")
    && (SameName(m.cmd, PRIVMSG) || SameName(m.cmd, NOTICE)) && IsCtcp(m.params[1].value)
  }

  /** It is the second parameter that has to look like CTCP, whatever the last one is. */
  lemma {:induction false} SecondDecides(m: Message, target: string, second: string, last: string)
    requires SameName(m.cmd, "PRIVMSG") || SameName(m.cmd, "NOTICE")
    requires m.params == [Some(target), Some(second), Some(last)] && last != ""
    ensures Detected(m) <==> |second| >= 2 && second[0] == 1 as char && second[|second| - 1] == 1 as char
  {
  }

  /** Nothing but messages and notices is taken for CTCP. */
  lemma {:induction false} OtherCommands(m: Message)
    requires !SameName(m.cmd, "PRIVMSG") && !SameName(m.cmd, "NOTICE")
    ensures !Detected(m)
  {
  }

  // ----------------------------------------------------------- round trip

  lemma {:induction false} CtcpIsOneLine(response: bool, target: string, cmd: string, msg: Option<string>)
    requires OneLine(target) && OneLine(cmd) && (msg.Some? ==> OneLine(msg.value))
    ensures OneLine(CtcpLineOf(response, target, cmd, msg))
  {
    var text := CtcpText(cmd, msg);
    assert OneLine(text) by {
      OneLineJoin([MARK], cmd);
      if msg.Some? {
        OneLineJoin(" ", msg.value);
        OneLineJoin([MARK] + cmd, " " + msg.value);
        OneLineJoin([MARK] + cmd + (" " + msg.value), [MARK]);
      } else {
        OneLineJoin([MARK] + cmd, "");
        OneLineJoin([MARK] + cmd + "", [MARK]);
      }
    }
    LineText(Carrier(response), target, text);
    SentenceIsOneLine(Carrier(response), target, text);
  }

  lemma {:induction false} CtcpRead(response: bool, target: string, cmd: string, msg: Option<string>, m: Message)
    requires m.cmd == Carrier(response) && m.params == [Some(target), Some(CtcpText(cmd, msg))]
    requires IsCtcp(CtcpText(cmd, msg)) && Unwrapped(CtcpText(cmd, msg)) == Carried(Some(cmd), msg)
    ensures Detected(m)
    ensures EventOf(m) == CtcpEvent(response, Sender(m), Some(cmd),
                                    if msg.Some? then [Some(target), msg] else [Some(target)])
  {
  }

  /** A CTCP text is recognised, and unwrapping gives the command and the text. */
  lemma {:induction false} UnwrapUndoesWrap(cmd: string, msg: Option<string>)
    requires cmd != "" && (forall c <- cmd :: c != ' ') && msg != Some("")
    ensures IsCtcp(CtcpText(cmd, msg)) && Unwrapped(CtcpText(cmd, msg)) == Carried(Some(cmd), msg)
  {
    var text := CtcpText(cmd, msg);
    if msg.Some? {
      assert text[1..|text| - 1] == cmd + " " + msg.value;
      StrtokWord(cmd, ' ', msg.value, " ");
    } else {
      assert text[1..|text| - 1] == cmd;
      StrtokLast(cmd, " ");
    }
  }

  // Received as one line, also by a C string, if the line is not cut, and as none if
  // it is.
  lemma {:induction false} ClampedLine(line: string)
    requires OneLine(line)
    ensures CStrings(Split(Clamped(line + CRLF)).lines) == if |line + CRLF| <= RAW_LIMIT then [line] else []
  {
    if |line + CRLF| <= RAW_LIMIT {
      LineComesBack(line);
    } else {
      var cut := Clamped(line + CRLF);
      assert forall i | 0 <= i < |cut| - 1 :: cut[i] == line[i] && line[i] in line;
      SplitNone(cut);
    }
  }

  /** CTCP survives the wire if and only if its line is not cut: what is received is that
    * line, and what is read of it, or of the line with a relay's prefix in front, is the
    * CTCP event of the sender's command and text. */
  lemma {:induction false} CtcpSurvives(response: bool, target: string, cmd: string, msg: Option<string>,
                                        prefix: Option<string>)
    requires IsWord(target) && cmd != "" && (forall c <- cmd :: c != ' ') && msg != Some("") && ShortPrefix(prefix)
    requires OneLine(target) && OneLine(cmd) && (msg.Some? ==> OneLine(msg.value))
    ensures var line := CtcpLineOf(response, target, cmd, msg);
      var relayed := Prefixed(prefix, line);
      && CStrings(Split(Clamped(line + CRLF)).lines) == (if |line + CRLF| <= RAW_LIMIT then [line] else [])
      && CStrings(Split(relayed + CRLF).lines) == [relayed]
      && Arrives(Parsed(line), response, target, cmd, msg, "")
      && (exists origin :: Arrives(Parsed(relayed), response, target, cmd, msg, origin))
      && forall origin | ComesFrom(prefix, origin) :: Arrives(Parsed(relayed), response, target, cmd, msg, origin)
    ensures CtcpLineOf(response, target, cmd, msg)
         == (if response then "NOTICE " else "PRIVMSG ") + target + " :" + [1 as char] + cmd
            + (if msg.Some? then " " + msg.value else "") + [1 as char]
  {
    hide Split, CStrings, CtcpLineOf, Arrives, Clamped, ComesFrom, OneLine, Parsed, Line;
    CtcpLineText(response, target, cmd, msg);
    var line := CtcpLineOf(response, target, cmd, msg);
    CtcpIsOneLine(response, target, cmd, msg);
    ClampedLine(line);
    PrefixedIsOneLine(prefix, line);
    LineComesBack(Prefixed(prefix, line));
    CtcpParsed(response, target, cmd, msg, None);
    CtcpParsed(response, target, cmd, msg, prefix);
    NobodySends();
  }

  lemma NobodySends()
    ensures ComesFrom(None, "")
  {
  }

  lemma {:induction false} CtcpLineText(response: bool, target: string, cmd: string, msg: Option<string>)
    ensures CtcpLineOf(response, target, cmd, msg)
         == (if response then "NOTICE " else "PRIVMSG ") + target + " :" + [1 as char] + cmd
            + (if msg.Some? then " " + msg.value else "") + [1 as char]
  {
    var more := if msg.Some? then " " + msg.value else "";
    LineText(Carrier(response), target, CtcpText(cmd, msg));
    Glued((if response then "NOTICE " else "PRIVMSG ") + target + " :", [1 as char], cmd, more);
    assert Carrier(response) + " " == if response then "NOTICE " else "PRIVMSG ";
  }

  lemma Glued(head: string, mark: string, cmd: string, more: string)
    ensures head + (mark + cmd + more + mark) == head + mark + cmd + more + mark
  {
  }

  lemma {:induction false} LineComesBack(line: string)
    requires OneLine(line)
    ensures CStrings(Split(line + CRLF).lines) == [line]
  {
    LinesComeBack([line]);
    assert Unlines([line]) == line + CRLF by { assert [line][1..] == []; }
  }

  // The event that a request or a response is to cause.
  predicate Arrives(m: Option<Message>, response: bool, target: string, cmd: string, msg: Option<string>,
                    origin: string)
  {
    && m.Some? && Detected(m.value)
    && EventOf(m.value) == CtcpEvent(response, origin, Some(cmd),
                                     if msg.Some? then [Some(target), msg] else [Some(target)])
  }

  // A prefix that has all three parts.
  predicate FullPrefix(prefix: string, nick: string, user: string, host: string) {
    && prefix == nick + "!" + user + "@" + host
    && nick != "" && (forall c <- nick :: c != '!') && user != "" && (forall c <- user :: c != '@') && host != ""
  }

  /** Who sends a message behind a prefix: the nick in front of a user and a host, or
    * whatever holds no '!', which is a server; and nobody without a prefix. */
  ghost predicate ComesFrom(prefix: Option<string>, origin: string) {
    match prefix
    case None => origin == ""
    case Some(p) => (p == origin && forall c <- p :: c != '!') || exists user, host :: FullPrefix(p, origin, user, host)
  }

  lemma {:induction false} SenderIs(prefix: Option<string>, cmd: string, target: string, text: string, origin: string)
    requires ComesFrom(prefix, origin) && (prefix.Some? ==> prefix.value != "")
    ensures Sender(MessageOf(prefix, cmd, target, text)) == origin
  {
    if prefix.Some? {
      if user, host :| FullPrefix(prefix.value, origin, user, host) {
        OriginBack(origin, user, host);
      } else {
        ServerHasNoOrigin(prefix.value);
      }
    }
  }

  lemma {:induction false} CtcpParsed(response: bool, target: string, cmd: string, msg: Option<string>,
                                      prefix: Option<string>)
    requires IsWord(target) && cmd != "" && (forall c <- cmd :: c != ' ') && msg != Some("")
    requires prefix.Some? ==> prefix.value != "" && forall c <- prefix.value :: c != ' '
    ensures var m := Parsed(Prefixed(prefix, CtcpLineOf(response, target, cmd, msg)));
      && (exists origin :: Arrives(m, response, target, cmd, msg, origin))
      && forall origin | ComesFrom(prefix, origin) :: Arrives(m, response, target, cmd, msg, origin)
  {
    hide ComesFrom, Parsed;
    var m := MessageOf(prefix, Carrier(response), target, CtcpText(cmd, msg));
    LineRead(prefix, Carrier(response), target, CtcpText(cmd, msg));
    UnwrapUndoesWrap(cmd, msg);
    CtcpRead(response, target, cmd, msg, m);
    assert Arrives(Some(m), response, target, cmd, msg, Sender(m));
    forall origin | ComesFrom(prefix, origin) ensures Sender(m) == origin {
      SenderIs(prefix, Carrier(response), target, CtcpText(cmd, msg), origin);
    }
  }
}
