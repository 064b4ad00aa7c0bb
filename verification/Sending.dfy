/** Sending a message: it is cut into as many lines as it takes. */
module Sending {
  import opened Wrappers
  import opened Sequences
  import opened Utf8
  import opened CommandBuilder

  const PRIVMSG := "PRIVMSG"
  const RAW_LIMIT := 512

  predicate IsSpace(c: char) {
    c == ' ' || c == '\t' || c == '\n' || c == '\r' || c as int == 0x0C
  }

  // Nothing but white space.
  predicate IsBlank(s: string) {
    forall i | 0 <= i < |s| :: IsSpace(s[i])
  }

  // ------------------------------------------------------- what is sent

  /** How sending ended, and the trailing parameters of the lines that went out:
    * all was sent, the caller was refused, or the loop was still running when it
    * was last looked at. */
  datatype Outcome =
    | Sent(parts: seq<Option<string>>)
    | Refused(parts: seq<Option<string>>)
    | Running(parts: seq<Option<string>>)

  // The length of a line before its trailing parameter, line end included.
  function HeadLength(chan: string): nat {
    |PRIVMSG| + |CRLF| + 1 + |chan|
  }

  function LineOf(chan: string, trailing: Option<string>): string {
    Line(PRIVMSG, [chan], trailing) + CRLF
  }

  // How a line whose head has `len` bytes cuts what is left of a message.
  function Cutter(len: nat): string -> Cut {
    param => CutTrailing(len, param)
  }

  lemma CutterCuts(len: nat, param: string)
    ensures Cutter(len)(param) == CutTrailing(len, param)
  {
  }

  // `turns` turns of the sending loop, from byte `pos` of the message on.
  function Turns(cutter: string -> Cut, msg: string, pos: nat, turns: nat, parts: seq<Option<string>>): Outcome
    requires pos <= |msg|
    decreases turns
  {
    if turns == 0 then Running(parts)
    else
      var cut := cutter(msg[pos..]);
      match cut.rest
      case None => Sent(parts + [cut.trailing])
      case Some(k) =>
        if pos + k == 0 || pos + k > |msg| then Refused(parts)
        else Turns(cutter, msg, pos + k, turns - 1, parts + [cut.trailing])
  }

  // The same when the message may have been sent already.
  function Ahead(cutter: string -> Cut, msg: string, pos: Option<nat>, turns: nat, parts: seq<Option<string>>): Outcome
    requires pos.Some? ==> pos.value <= |msg|
  {
    if pos.None? then Sent(parts) else Turns(cutter, msg, pos.value, turns, parts)
  }

  lemma {:induction false} TurnTaken(cutter: string -> Cut, msg: string, pos: nat, turns: nat,
                                     parts: seq<Option<string>>, cut: Cut)
    requires pos <= |msg| && turns > 0 && cutter(msg[pos..]) == cut
    requires cut.rest.Some? ==> 0 < pos + cut.rest.value <= |msg|
    ensures Turns(cutter, msg, pos, turns, parts)
         == Ahead(cutter, msg, if cut.rest.None? then None else Some(pos + cut.rest.value),
                  turns - 1, parts + [cut.trailing])
  {
  }

  function SendOutcome(chan: string, msg: string, turns: nat): Outcome {
    if IsBlank(chan) || IsBlank(msg) then Refused([])
    else Turns(Cutter(HeadLength(chan)), msg, 0, turns, [])
  }

  // The lines of the first n parts.
  function Written(chan: string, parts: seq<Option<string>>, n: nat): string
    requires n <= |parts|
  {
    if n == 0 then "" else Written(chan, parts, n - 1) + LineOf(chan, parts[n - 1])
  }

  lemma {:induction false} WrittenAppend(chan: string, parts: seq<Option<string>>, more: seq<Option<string>>, n: nat)
    requires n <= |parts|
    ensures Written(chan, parts + more, n) == Written(chan, parts, n)
  {
    if n > 0 {
      WrittenAppend(chan, parts, more, n - 1);
      assert (parts + more)[n - 1] == parts[n - 1];
    }
  }

  lemma {:induction false} WrittenOne(out: string, chan: string, parts: seq<Option<string>>, part: Option<string>)
    ensures out + Written(chan, parts + [part], |parts| + 1) == out + Written(chan, parts, |parts|) + LineOf(chan, part)
  {
    WrittenAppend(chan, parts, [part], |parts|);
    assert (parts + [part])[|parts|] == part;
    JoinLater(out, Written(chan, parts, |parts|), LineOf(chan, part));
  }

  // --------------------------------------------------------- the session

  class Session {
    var out: string
    var msgid: nat

    constructor ()
      ensures out == "" && msgid == 0
    {
      out, msgid := "", 0;
    }

    /** Writes a command; the stream takes all of it. */
    method Raw(command: string)
      modifies this
      ensures out == old(out) + command[..if |command| > RAW_LIMIT then RAW_LIMIT else |command|]
      ensures msgid == old(msgid) + 1
    {
      var len := |command|;
      if len > RAW_LIMIT {
        len := RAW_LIMIT;
      }
      msgid := msgid + 1;
      out := out + command[..len];
    }

    /** Sends a message; the loop is watched for `turns` turns, as nothing in it
      * ensures that it ends. */
    method SendMsg(chan: string, msg: string, turns: nat) returns (outcome: Outcome)
      modifies this
      ensures outcome == SendOutcome(chan, msg, turns)
      ensures out == old(out) + Written(chan, outcome.parts, |outcome.parts|)
      ensures msgid == old(msgid) + |outcome.parts|
    {
      if IsBlank(chan) {
        return Refused([]);
      }
      if IsBlank(msg) {
        return Refused([]);
      }
      outcome := Loop(chan, msg, turns, HeadLength(chan), Cutter(HeadLength(chan)));
    }

    method Loop(chan: string, msg: string, turns: nat, ghost len: nat, ghost cutter: string -> Cut)
        returns (outcome: Outcome)
      requires len == HeadLength(chan) && cutter == Cutter(len)
      modifies this
      ensures outcome == Turns(cutter, msg, 0, turns, [])
      ensures out == old(out) + Written(chan, outcome.parts, |outcome.parts|)
      ensures msgid == old(msgid) + |outcome.parts|
    {
      hide Cutter, LineOf, HeadLength;
      var pos: Option<nat>, parts, n := Some(0), [], 0;
      while pos.Some? && n < turns
        invariant n <= turns && (pos.Some? ==> pos.value <= |msg|)
        invariant pos == Some(0) || len <= MESSAGE_SIZE
        invariant Turns(cutter, msg, 0, turns, []) == Ahead(cutter, msg, pos, turns - n, parts)
        invariant out == old(out) + Written(chan, parts, |parts|) && msgid == old(msgid) + |parts|
        decreases turns - n
      {
        var sent, rest, part := Turn(chan, msg[pos.value..], pos.value == 0, len, cutter);
        if !sent {
          return Refused(parts);
        }
        TurnTaken(cutter, msg, pos.value, turns - n, parts, Cut(part, rest));
        WrittenOne(old(out), chan, parts, part);
        parts, n := parts + [part], n + 1;
        pos := if rest.None? then None else Some(pos.value + rest.value);
      }
      outcome := if pos.None? then Sent(parts) else Running(parts);
    }

    // One turn: cuts a line off the message, unless nothing would be cut off
    // the original one.
    method Turn(chan: string, msg: string, original: bool, ghost len: nat, ghost cutter: string -> Cut)
        returns (sent: bool, rest: Option<nat>, part: Option<string>)
      requires len == HeadLength(chan) && cutter == Cutter(len) && (original || len <= MESSAGE_SIZE)
      modifies this
      ensures sent ==> len <= MESSAGE_SIZE
      ensures !sent ==> original && cutter(msg).rest == Some(0)
      ensures sent ==> !(original && cutter(msg).rest == Some(0))
      ensures sent ==> cutter(msg) == Cut(part, rest) && (rest.Some? ==> rest.value <= |msg|)
      ensures out == if sent then old(out) + LineOf(chan, part) else old(out)
      ensures msgid == old(msgid) + if sent then 1 else 0
    {
      var command;
      command, rest, part := NextLine(chan, msg, cutter);
      sent := command.Some? && !(original && rest == Some(0));
      if sent {
        Raw(command.value);
      }
    }
  }

  // The next line to send, or none if the builder refuses the channel.
  method NextLine(chan: string, msg: string, ghost cutter: string -> Cut)
      returns (command: Option<string>, rest: Option<nat>, part: Option<string>)
    requires cutter == Cutter(HeadLength(chan))
    ensures command.None? == (HeadLength(chan) > MESSAGE_SIZE)
    ensures command.None? ==> cutter(msg).rest == Some(0)
    ensures command.Some? ==>
      && cutter(msg) == Cut(part, rest) && (rest.Some? ==> rest.value <= |msg|)
      && command.value == LineOf(chan, part) && |command.value| <= RAW_LIMIT
  {
    var builder := new Builder(PRIVMSG);
    LineLength(chan, None);
    var added := builder.AddMiddle(chan);
    if !added {
      CutKeepsTheLimit(HeadLength(chan), msg);
      return None, None, None;
    }
    rest := builder.SetTrailing(msg);
    part := builder.trailing;
    CutFits(HeadLength(chan), msg);
    assert builder.middles == [chan];
    assert builder.expectedLen <= MESSAGE_SIZE by { LineLength(chan, part); }
    var line := builder.Build();
    command := Some(line);
  }

  lemma CutFits(len: nat, param: string)
    requires len <= MESSAGE_SIZE
    ensures var cut := CutTrailing(len, param);
      && len + |Trailing(cut.trailing)| <= MESSAGE_SIZE
      && (cut.rest.Some? ==> cut.rest.value <= |param|)
  {
    if len + 2 + |param| > MESSAGE_SIZE {
      CutKeepsTheLimit(len, param);
    }
  }

  // ------------------------------------------------- what arrives of a message

  function Concat(ss: seq<string>): string {
    if ss == [] then "" else ss[0] + Concat(ss[1..])
  }

  // The parts a message is cut into, from byte `pos` on.
  function Chunks(cutter: string -> Cut, msg: string, pos: nat): seq<string>
    requires pos <= |msg|
    decreases |msg| - pos
  {
    match cutter(msg[pos..]).rest
    case None => [msg[pos..]]
    case Some(k) =>
      if 0 < k <= |msg| - pos then [msg[pos..pos + k]] + Chunks(cutter, msg, pos + k) else []
  }

  function Parts(chunks: seq<string>): seq<Option<string>> {
    seq(|chunks|, i requires 0 <= i < |chunks| => Some(chunks[i]))
  }

  // The longest head of a line with room for any character after it.
  const LONGEST_HEAD := MESSAGE_SIZE - 2 - 5

  /** A turn takes at least one character off a UTF-8 message and sends what it
    * took, if the head of the line leaves room for any character. */
  lemma EveryTurnTakesACharacter(len: nat, msg: string)
    requires len <= LONGEST_HEAD && Utf8Text(msg) && msg != ""
    ensures var cut := CutTrailing(len, msg);
      && (cut.rest.None? ==> cut.trailing == Some(msg))
      && (cut.rest.Some? ==> 0 < cut.rest.value < |msg| && Boundary(msg, cut.rest.value)
                             && cut.trailing == Some(msg[..cut.rest.value]))
  {
    if len + 2 + |msg| > MESSAGE_SIZE {
      CutIsLongest(msg, |msg|, MESSAGE_SIZE - len - 2);
      FirstCharacter(msg);
    }
  }

  // A cutter that always takes at least one byte of a good text, at most `room`
  // bytes, and cuts it into good texts.
  ghost predicate Eats(cutter: string -> Cut, good: string -> bool, room: nat) {
    forall msg {:trigger cutter(msg)} | msg != "" && good(msg) :: Bites(cutter(msg), msg, good, room)
  }

  ghost predicate Bites(cut: Cut, msg: string, good: string -> bool, room: nat) {
    var k := if cut.rest.Some? then cut.rest.value else |msg|;
    && 0 < k <= |msg| && k <= room && good(msg[..k]) && good(msg[k..])
    && cut.trailing == Some(msg[..k]) && (cut.rest.Some? ==> k < |msg|)
  }

  function InUtf8(): string -> bool {
    s => Utf8Text(s)
  }

  lemma CutterEats(len: nat)
    requires len <= LONGEST_HEAD
    ensures Eats(Cutter(len), InUtf8(), MESSAGE_SIZE - len - 2)
  {
    forall msg | msg != "" && InUtf8()(msg) ensures Bites(Cutter(len)(msg), msg, InUtf8(), MESSAGE_SIZE - len - 2) {
      CutterCuts(len, msg);
      EveryTurnTakesACharacter(len, msg);
      CutFits(len, msg);
      assert msg[..|msg|] == msg && msg[|msg|..] == "";
      CutsIntoText(msg, if CutTrailing(len, msg).rest.Some? then CutTrailing(len, msg).rest.value else |msg|);
    }
  }

  // From byte `pos` on: k bytes are taken.
  lemma {:induction false} TurnAt(cutter: string -> Cut, good: string -> bool, room: nat, msg: string, pos: nat)
      returns (k: nat)
    requires Eats(cutter, good, room) && pos < |msg| && good(msg[pos..])
    ensures 0 < k <= |msg| - pos && k <= room
    ensures good(msg[pos..pos + k]) && good(msg[pos + k..])
    ensures cutter(msg[pos..]) == Cut(Some(msg[pos..pos + k]), if pos + k == |msg| then None else Some(k))
  {
    assert Bites(cutter(msg[pos..]), msg[pos..], good, room);
    var cut := cutter(msg[pos..]);
    k := if cut.rest.Some? then cut.rest.value else |msg| - pos;
    assert msg[pos..][k..] == msg[pos + k..];
    assert msg[pos..][..k] == msg[pos..pos + k];
  }

  lemma {:induction false} LoopSendsChunks(cutter: string -> Cut, good: string -> bool, room: nat,
                                           msg: string, pos: nat, turns: nat, parts: seq<Option<string>>)
    requires Eats(cutter, good, room) && pos < |msg| <= pos + turns && good(msg[pos..])
    ensures Turns(cutter, msg, pos, turns, parts) == Sent(parts + Parts(Chunks(cutter, msg, pos)))
    decreases turns
  {
    var k := TurnAt(cutter, good, room, msg, pos);
    var chunk := msg[pos..pos + k];
    if pos + k < |msg| {
      LoopSendsChunks(cutter, good, room, msg, pos + k, turns - 1, parts + [Some(chunk)]);
      PartsFirst(parts, chunk, Chunks(cutter, msg, pos + k));
    } else {
      PartsFirst(parts, chunk, []);
      assert chunk == msg[pos..] && [chunk] + [] == [chunk] && Parts([]) == [];
    }
  }

  lemma PartsFirst(parts: seq<Option<string>>, chunk: string, more: seq<string>)
    ensures parts + Parts([chunk] + more) == parts + [Some(chunk)] + Parts(more)
  {
  }

  ghost predicate GoodChunk(c: string, good: string -> bool, room: nat) {
    c != "" && good(c) && |c| <= room
  }

  lemma {:induction false} ChunksAreTheMessage(cutter: string -> Cut, good: string -> bool, room: nat,
                                               msg: string, pos: nat)
    requires Eats(cutter, good, room) && pos < |msg| && good(msg[pos..])
    ensures Concat(Chunks(cutter, msg, pos)) == msg[pos..]
    ensures forall c <- Chunks(cutter, msg, pos) :: GoodChunk(c, good, room)
    decreases |msg| - pos
  {
    var k := TurnAt(cutter, good, room, msg, pos);
    if pos + k < |msg| {
      ChunksAreTheMessage(cutter, good, room, msg, pos + k);
      MoreChunks(msg, pos, k, Chunks(cutter, msg, pos + k));
    } else {
      assert Concat([msg[pos..pos + k]]) == msg[pos..pos + k] + Concat([]);
    }
  }

  lemma {:induction false} MoreChunks(msg: string, pos: nat, k: nat, more: seq<string>)
    requires 0 < k <= |msg| - pos && Concat(more) == msg[pos + k..]
    ensures Concat([msg[pos..pos + k]] + more) == msg[pos..]
  {
    assert ([msg[pos..pos + k]] + more)[1..] == more;
    assert msg[pos..pos + k] + msg[pos + k..] == msg[pos..];
  }

  /** A message goes out whole, cut between characters, on lines that leave room
    * for a relay's prefix, and the loop ends, if the channel has at most 445
    * bytes. */
  lemma SplitterDelivers(chan: string, msg: string, turns: nat)
    requires |chan| <= 445 && !IsBlank(chan) && !IsBlank(msg) && Utf8Text(msg) && turns >= |msg|
    ensures var chunks := Chunks(Cutter(HeadLength(chan)), msg, 0);
      && SendOutcome(chan, msg, turns) == Sent(Parts(chunks))
      && Concat(chunks) == msg
      && (forall c <- chunks :: c != "" && Utf8Text(c) && |LineOf(chan, Some(c))| <= MESSAGE_SIZE)
  {
    assert msg[0..] == msg;
    var cutter, room := Cutter(HeadLength(chan)), MESSAGE_SIZE - HeadLength(chan) - 2;
    CutterEats(HeadLength(chan));
    LoopSendsChunks(cutter, InUtf8(), room, msg, 0, turns, []);
    ChunksAreTheMessage(cutter, InUtf8(), room, msg, 0);
    assert [] + Parts(Chunks(cutter, msg, 0)) == Parts(Chunks(cutter, msg, 0));
    forall c <- Chunks(cutter, msg, 0) ensures |LineOf(chan, Some(c))| <= MESSAGE_SIZE {
      LineLength(chan, Some(c));
    }
  }

  lemma LineLength(chan: string, trailing: Option<string>)
    ensures |LineOf(chan, trailing)| == HeadLength(chan) + if trailing.Some? then 2 + |trailing.value| else 0
  {
    assert Middles([chan], 1) == " " + chan by { assert Middles([chan], 0) == ""; }
  }

  // -------------------------------------------------- and when it does not

  // Four bytes: the widest character there is.
  const WIDE: string := [0xF0 as char, 0x9F as char, 0x98 as char, 0x80 as char]

  ghost predicate AlwaysDelivers(chan: string) {
    forall msg, turns | Utf8Text(msg) && !IsBlank(msg) && turns >= |msg| :: SendOutcome(chan, msg, turns).Sent?
  }

  /** 445 bytes is the exact limit: with any longer channel name there is a
    * message that is refused. */
  lemma LongestChannel(chan: string)
    requires !IsBlank(chan)
    ensures AlwaysDelivers(chan) <==> |chan| <= 445
  {
    if |chan| <= 445 {
      forall msg, turns | Utf8Text(msg) && !IsBlank(msg) && turns >= |msg| ensures SendOutcome(chan, msg, turns).Sent? {
        SplitterDelivers(chan, msg, turns);
      }
    } else {
      var msg := WIDE + WIDE;
      WideText();
      WideNeedsRoom(HeadLength(chan), msg);
      CutterCuts(HeadLength(chan), msg);
      assert !IsBlank(msg) by { assert !IsSpace(msg[0]); }
      assert msg[0..] == msg;
      assert SendOutcome(chan, msg, 8).Refused?;
    }
  }

  lemma WideText()
    ensures Utf8Text(WIDE + WIDE) && |WIDE + WIDE| == 8
    ensures forall i | 0 <= i < 8 :: Continues((WIDE + WIDE)[i]) <==> i != 0 && i != 4
  {
    var two := WIDE + WIDE;
    assert two[4..] == WIDE && WIDE[4..] == "";
    assert Width(two[0]) == 4 && Width(WIDE[0]) == 4;
  }

  // No character fits, so the message would have to be cut at its start.
  lemma WideNeedsRoom(len: nat, msg: string)
    requires len > LONGEST_HEAD && |msg| == 8
    requires forall i | 0 <= i < 8 :: Continues(msg[i]) <==> i != 0 && i != 4
    ensures CutTrailing(len, msg).rest == Some(0)
  {
    CutKeepsTheLimit(len, msg);
  }

  // --------------------------------------------- whether the loop ends

  // The loop comes to an end, in whatever way.
  ghost predicate Ends(chan: string, msg: string) {
    exists turns :: !SendOutcome(chan, msg, turns).Running?
  }

  lemma {:induction false} TurnsSettle(cutter: string -> Cut, msg: string, pos: nat, turns: nat, more: nat,
                                       parts: seq<Option<string>>)
    requires pos <= |msg| && turns <= more && !Turns(cutter, msg, pos, turns, parts).Running?
    ensures Turns(cutter, msg, pos, more, parts) == Turns(cutter, msg, pos, turns, parts)
    decreases turns
  {
    var cut := cutter(msg[pos..]);
    if cut.rest.Some? && 0 < pos + cut.rest.value <= |msg| {
      TurnsSettle(cutter, msg, pos + cut.rest.value, turns - 1, more - 1, parts + [cut.trailing]);
    }
  }

  /** Watching longer changes nothing once the loop has ended. */
  lemma OutcomeSettles(chan: string, msg: string, turns: nat, more: nat)
    requires turns <= more && !SendOutcome(chan, msg, turns).Running?
    ensures SendOutcome(chan, msg, more) == SendOutcome(chan, msg, turns)
  {
    if !IsBlank(chan) && !IsBlank(msg) {
      TurnsSettle(Cutter(HeadLength(chan)), msg, 0, turns, more, []);
    }
  }

  // A message that begins with n letters.
  function Letters(n: nat): string {
    seq(n, _ => 'a')
  }

  lemma {:induction false} LettersInFront(n: nat, s: string)
    requires Utf8Text(s)
    ensures Utf8Text(Letters(n) + s)
  {
    if n == 0 {
      assert Letters(0) + s == s;
    } else {
      LettersInFront(n - 1, s);
      var t := Letters(n) + s;
      assert t[Width(t[0])..] == Letters(n - 1) + s;
    }
  }

  // Just the letters fit on the first line.
  lemma {:induction false} LettersFit(len: nat, n: nat, msg: string)
    requires 456 <= len <= 458 && n == 459 - len && |msg| == n + 8 && Boundary(msg, n)
    ensures CutTrailing(len, msg).rest == Some(n)
  {
    CutKeepsTheLimit(len, msg);
  }

  lemma {:induction false} StuckBehind(len: nat, n: nat, msg: string, turns: nat, parts: seq<Option<string>>)
    requires len > LONGEST_HEAD && 0 < n && |msg| == n + 8 && msg[n..] == WIDE + WIDE
    ensures Turns(Cutter(len), msg, n, turns, parts).Running?
    decreases turns
  {
    if turns > 0 {
      WideText();
      WideNeedsRoom(len, msg[n..]);
      CutterCuts(len, msg[n..]);
      StuckBehind(len, n, msg, turns - 1, parts + [CutTrailing(len, msg[n..]).trailing]);
    }
  }

  /** The guard against an endless loop compares with the start of the message
    * alone: once a first line is out the loop can go round for ever. */
  lemma {:induction false} GuardMissesLaterLines(chan: string, turns: nat)
    requires 446 <= |chan| <= 448 && !IsBlank(chan)
    ensures var msg := Letters(449 - |chan|) + (WIDE + WIDE);
      Utf8Text(msg) && !IsBlank(msg) && SendOutcome(chan, msg, turns).Running?
  {
    var n := 449 - |chan|;
    var msg := Letters(n) + (WIDE + WIDE);
    WideText();
    LettersInFront(n, WIDE + WIDE);
    assert !IsBlank(msg) by { assert !IsSpace(msg[0]); }
    assert msg[n..] == WIDE + WIDE && msg[0..] == msg;
    if turns > 0 {
      FirstTurnOfLetters(HeadLength(chan), n, msg, turns);
    }
  }

  lemma {:induction false} FirstTurnOfLetters(len: nat, n: nat, msg: string, turns: nat)
    requires 456 <= len <= 458 && n == 459 - len && |msg| == n + 8 && turns > 0
    requires msg[n..] == WIDE + WIDE && msg[0..] == msg
    ensures Turns(Cutter(len), msg, 0, turns, []).Running?
  {
    WideText();
    assert msg[n] == msg[n..][0];
    LettersFit(len, n, msg);
    CutterCuts(len, msg);
    var parts := [] + [CutTrailing(len, msg).trailing];
    TurnTaken(Cutter(len), msg, 0, turns, [], CutTrailing(len, msg));
    StuckBehind(len, n, msg, turns - 1, parts);
  }

  // A line that has no room for a byte takes the whole message, or is refused.
  lemma {:induction false} EndsAtOnce(len: nat, msg: string)
    requires len >= 459
    ensures !Turns(Cutter(len), msg, 0, 1, []).Running?
  {
    assert msg[0..] == msg;
    CutterCuts(len, msg);
    if len + 2 + |msg| > MESSAGE_SIZE {
      CutKeepsTheLimit(len, msg);
    }
  }

  /** The loop ends for every message if and only if the channel has at most 445
    * bytes, or at least 449, when whatever does not fit whole is refused; or if it is
    * blank. */
  lemma {:induction false} EndsForEveryMessageIff(chan: string)
    ensures (forall msg | Utf8Text(msg) && !IsBlank(msg) :: Ends(chan, msg))
       <==> IsBlank(chan) || |chan| <= 445 || |chan| >= 449
  {
    if IsBlank(chan) || |chan| <= 445 || |chan| >= 449 {
      forall msg | Utf8Text(msg) && !IsBlank(msg) ensures Ends(chan, msg) {
        EndsFor(chan, msg);
      }
    } else {
      var msg := Letters(449 - |chan|) + (WIDE + WIDE);
      GuardMissesLaterLines(chan, 0);
      forall turns ensures SendOutcome(chan, msg, turns).Running? {
        GuardMissesLaterLines(chan, turns);
      }
      assert !Ends(chan, msg);
    }
  }

  lemma {:induction false} EndsFor(chan: string, msg: string)
    requires Utf8Text(msg) && !IsBlank(msg)
    requires IsBlank(chan) || |chan| <= 445 || |chan| >= 449
    ensures Ends(chan, msg)
  {
    if IsBlank(chan) {
      assert !SendOutcome(chan, msg, 0).Running?;
    } else if |chan| <= 445 {
      SplitterDelivers(chan, msg, |msg|);
      assert !SendOutcome(chan, msg, |msg|).Running?;
    } else {
      EndsAtOnce(HeadLength(chan), msg);
      assert !SendOutcome(chan, msg, 1).Running?;
    }
  }
}
