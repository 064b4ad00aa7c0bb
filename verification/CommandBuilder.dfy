/** The command builder keeps an IRC line within its length limit and cuts a
  * trailing parameter between two characters if it has to. */
module CommandBuilder {
  import opened Wrappers
  import opened Utf8

  const CRLF := "\r\n"

  // The bytes a server may put in front of a line that it relays.
  const MAGIC_PREFIX_LEN := 50
  const MESSAGE_SIZE := 512 - MAGIC_PREFIX_LEN

  // ------------------------------------------------------------- the line

  function Middles(middles: seq<string>, n: nat): string
    requires n <= |middles|
  {
    if n == 0 then "" else Middles(middles, n - 1) + " " + middles[n - 1]
  }

  function Trailing(trailing: Option<string>): string {
    if trailing.Some? then " :" + trailing.value else ""
  }

  // Section 2.3.1 of RFC 2812, without the prefix.
  function Line(cmd: string, middles: seq<string>, trailing: Option<string>): string {
    cmd + Middles(middles, |middles|) + Trailing(trailing)
  }

  lemma {:induction false} MiddlesAppend(middles: seq<string>, more: seq<string>, n: nat)
    requires n <= |middles|
    ensures Middles(middles + more, n) == Middles(middles, n)
  {
    if n > 0 {
      MiddlesAppend(middles, more, n - 1);
    }
  }

  // ------------------------------------------------------------ the cutting

  // The last boundary before p, and before the end of the text, that is less
  // than `room` from the start.
  function CutBefore(s: string, p: nat, room: int): (c: Option<nat>)
    requires p <= |s|
    ensures c.Some? ==> c.value < p
    decreases p
  {
    match PreviousChar(s, p)
    case None => None
    case Some(k) => if k < room then Some(k) else CutBefore(s, k, room)
  }

  // What becomes of a trailing parameter on a line of `len` bytes so far.
  datatype Cut = Cut(trailing: Option<string>, rest: Option<nat>)

  function CutTrailing(len: nat, param: string): Cut {
    if len + 2 + |param| <= MESSAGE_SIZE then Cut(Some(param), None)
    else
      match CutBefore(param, |param|, MESSAGE_SIZE - len - 2)
      case None => Cut(None, Some(0))
      case Some(k) => Cut(Some(param[..k]), Some(k))
  }

  /** A piece that was cut off is the longest one that ends between characters
    * and keeps the line below the limit; if there is none, nothing is added. */
  lemma {:induction false} CutIsLongest(s: string, p: nat, room: int)
    requires p <= |s|
    ensures var c := CutBefore(s, p, room);
      && (c.Some? ==> c.value < p && c.value < room && Boundary(s, c.value))
      && (forall j | 0 <= j < p && Boundary(s, j) && j < room :: c.Some? && j <= c.value)
    decreases p
  {
    PreviousCharIsLast(s, p);
    match PreviousChar(s, p)
    case None =>
    case Some(k) =>
      if k >= room {
        CutIsLongest(s, k, room);
      }
  }

  /** What the splitter promises of a parameter that does not fit: the two parts
    * are the parameter, the line stays strictly below the limit, and no longer
    * part would do. */
  lemma CutKeepsTheLimit(len: nat, param: string)
    requires len + 2 + |param| > MESSAGE_SIZE
    ensures var cut := CutTrailing(len, param);
      && cut.rest.Some? && cut.rest.value <= |param|
      && (cut.trailing.Some? ==>
            && cut.trailing.value + param[cut.rest.value..] == param
            && Boundary(param, cut.rest.value)
            && len + 2 + |cut.trailing.value| < MESSAGE_SIZE)
      && (cut.trailing.None? ==> cut.rest == Some(0))
      && (forall j | 0 <= j < |param| && Boundary(param, j) && len + 2 + j < MESSAGE_SIZE ::
            cut.trailing.Some? && j <= cut.rest.value)
  {
    CutIsLongest(param, |param|, MESSAGE_SIZE - len - 2);
  }

  // ------------------------------------------------------------ the builder

  class Builder {
    const cmd: string
    var middles: seq<string>
    var trailing: Option<string>
    var expectedLen: nat

    // The running length is the length of the line as it stands.
    predicate Valid()
      reads this
    {
      expectedLen == |Line(cmd, middles, trailing) + CRLF|
    }

    constructor (cmd: string)
      ensures Valid() && this.cmd == cmd && middles == [] && trailing == None
    {
      this.cmd := cmd;
      middles, trailing := [], None;
      expectedLen := |cmd| + |CRLF|;
    }

    method AddMiddle(param: string) returns (added: bool)
      requires Valid()
      modifies this`middles, this`expectedLen
      ensures Valid()
      ensures added == (old(expectedLen) + 1 + |param| <= MESSAGE_SIZE)
      ensures middles == old(middles) + if added then [param] else []
      ensures expectedLen <= MESSAGE_SIZE || expectedLen == old(expectedLen)
    {
      var addedLen := |" "| + |param|;
      if expectedLen + addedLen > MESSAGE_SIZE {
        return false;
      }
      MiddlesAppend(middles, [param], |middles|);
      middles := middles + [param];
      expectedLen := expectedLen + addedLen;
      return true;
    }

    /** Returns where the part of the parameter starts that is left over. */
    method SetTrailing(param: string) returns (rest: Option<nat>)
      requires Valid() && trailing.None?
      modifies this`trailing, this`expectedLen
      ensures Valid()
      ensures Cut(trailing, rest) == CutTrailing(old(expectedLen), param)
    {
      var addedLen := |" "| + |":"| + |param|;
      if expectedLen + addedLen > MESSAGE_SIZE {
        var exceededLen := expectedLen + addedLen - MESSAGE_SIZE;
        var found := FindCut(param, exceededLen);
        if found.None? {
          return Some(0);
        }
        var prev := found.value;
        trailing := Some(param[..prev]);
        expectedLen := expectedLen + |" "| + |":"| + prev;
        return Some(prev);
      }
      trailing := Some(param);
      expectedLen := expectedLen + addedLen;
      return None;
    }

    method Build() returns (line: string)
      requires Valid()
      ensures line == Line(cmd, middles, trailing) + CRLF && |line| == expectedLen
    {
      hide Middles;
      line := cmd;
      NoMiddles(cmd, middles);
      for i := 0 to |middles|
        invariant line == cmd + Middles(middles, i)
      {
        OneMoreMiddle(cmd, middles, i);
        line := line + " ";
        line := line + middles[i];
      }
      LineEnds(line, trailing);
      if trailing.Some? {
        line := line + " ";
        line := line + ":";
        line := line + trailing.value;
      }
      line := line + CRLF;
    }
  }

  lemma NoMiddles(cmd: string, middles: seq<string>)
    ensures cmd == cmd + Middles(middles, 0)
  {
  }

  lemma OneMoreMiddle(cmd: string, middles: seq<string>, i: nat)
    requires i < |middles|
    ensures cmd + Middles(middles, i) + " " + middles[i] == cmd + Middles(middles, i + 1)
  {
    var before := Middles(middles, i);
    assert cmd + before + " " + middles[i] == cmd + (before + " " + middles[i]);
  }

  lemma LineEnds(line: string, trailing: Option<string>)
    ensures line + Trailing(trailing) == if trailing.Some? then line + " " + ":" + trailing.value else line
  {
    if trailing.Some? {
      assert " :" + trailing.value == " " + (":" + trailing.value);
    }
  }

  // Steps back until more than `exceededLen` bytes are behind.
  method FindCut(param: string, exceededLen: nat) returns (r: Option<nat>)
    ensures r == CutBefore(param, |param|, |param| - exceededLen)
    ensures r.Some? ==> r.value <= |param|
  {
    var prev: nat := |param|;
    while true
      invariant prev <= |param|
      invariant CutBefore(param, prev, |param| - exceededLen) == CutBefore(param, |param|, |param| - exceededLen)
      decreases prev
    {
      var p := FindPreviousChar(param, prev);
      if p.None? {
        return None;
      }
      prev := p.value;
      if |param| - prev > exceededLen {
        return Some(prev);
      }
    }
  }

  method FindPreviousChar(s: string, p: nat) returns (r: Option<nat>)
    requires p <= |s|
    ensures r == PreviousChar(s, p)
  {
    var q: nat := p;
    while q > 0
      invariant q <= p && PreviousChar(s, q) == PreviousChar(s, p)
    {
      q := q - 1;
      if !Continues(s[q]) {
        return Some(q);
      }
    }
    return None;
  }
}
