/** The history of an input box: what was sent before can be browsed while the
  * draft waits at the end of the list. */
module InputHistory {
  import opened Wrappers

  const HISTORY_SIZE := 10

  // --------------------------------------------------------- what is kept

  function Pushed(lines: seq<string>, line: string): seq<string> {
    if lines != [] && lines[|lines| - 1] == line then lines
    else
      var more := lines + [line];
      if |more| > HISTORY_SIZE then more[1..] else more
  }

  // The history after the given lines were sent.
  function Kept(sent: seq<string>): seq<string> {
    if sent == [] then [] else Pushed(Kept(sent[..|sent| - 1]), sent[|sent| - 1])
  }

  lemma KeptNext(sent: seq<string>, line: string)
    ensures Kept(sent + [line]) == Pushed(Kept(sent), line)
  {
    assert (sent + [line])[..|sent|] == sent;
  }

  // Repeats of a line that follow it at once do not count.
  function Collapsed(sent: seq<string>): seq<string> {
    if sent == [] then []
    else if |sent| > 1 && sent[|sent| - 2] == sent[|sent| - 1] then Collapsed(sent[..|sent| - 1])
    else Collapsed(sent[..|sent| - 1]) + [sent[|sent| - 1]]
  }

  function LastOf(s: seq<string>, n: nat): seq<string> {
    if |s| > n then s[|s| - n..] else s
  }

  lemma {:induction false} CollapsedEnds(sent: seq<string>)
    requires sent != []
    ensures Collapsed(sent) != [] && Collapsed(sent)[|Collapsed(sent)| - 1] == sent[|sent| - 1]
  {
    if |sent| > 1 && sent[|sent| - 2] == sent[|sent| - 1] {
      CollapsedEnds(sent[..|sent| - 1]);
    }
  }

  /** The history is the last ten of the lines that were sent, without repeats. */
  lemma {:induction false} KeptIsLastTen(sent: seq<string>)
    ensures Kept(sent) == LastOf(Collapsed(sent), 10)
  {
    if sent != [] {
      var before, line := sent[..|sent| - 1], sent[|sent| - 1];
      KeptIsLastTen(before);
      if before != [] {
        CollapsedEnds(before);
      }
      PushKeepsTheLast(Collapsed(before), line);
    }
  }

  lemma {:induction false} PushKeepsTheLast(c: seq<string>, line: string)
    ensures Pushed(LastOf(c, HISTORY_SIZE), line)
         == LastOf(if c != [] && c[|c| - 1] == line then c else c + [line], HISTORY_SIZE)
  {
    if |c| > HISTORY_SIZE {
      assert (c[|c| - HISTORY_SIZE..] + [line])[1..] == (c + [line])[|c| + 1 - HISTORY_SIZE..];
    } else if |c| == HISTORY_SIZE {
      assert (c + [line])[1..] == (c + [line])[|c| + 1 - HISTORY_SIZE..];
    }
  }

  // ------------------------------------------------------------- browsing

  /** The lines that can be browsed, the draft behind them while they are, the place
    * that is shown, and the text in the box. */
  datatype Input = Input(lines: seq<string>, draft: Option<string>, at: nat, text: string)
  {
    predicate Valid() {
      && at <= |lines| && |lines| <= HISTORY_SIZE
      && (draft.None? ==> at == |lines|)
      && (draft.Some? ==> lines != [])
    }
  }

  function Previous(i: Input): Input
    requires i.Valid()
  {
    if i.lines == [] || (i.draft.Some? && i.at == 0) then i
    else i.(draft := Some(if i.draft.Some? then i.draft.value else i.text), at := i.at - 1, text := i.lines[i.at - 1])
  }

  function Next(i: Input): Input
    requires i.Valid()
  {
    if i.draft.None? then i
    else if i.at == |i.lines| then i.(draft := None)
    else i.(at := i.at + 1, text := if i.at + 1 == |i.lines| then i.draft.value else i.lines[i.at + 1])
  }

  function Back(i: Input, k: nat): (r: Input)
    requires i.Valid()
    ensures r.Valid()
  {
    if k == 0 then i else Previous(Back(i, k - 1))
  }

  function Forth(i: Input, k: nat): (r: Input)
    requires i.Valid()
    ensures r.Valid()
  {
    if k == 0 then i else Next(Forth(i, k - 1))
  }

  // Where one is after k steps back.
  lemma {:induction false} BackShows(i: Input, k: nat)
    requires i.Valid() && i.draft.None? && k > 0 && i.lines != []
    ensures var n := if k < |i.lines| then k else |i.lines|;
      Back(i, k) == Input(i.lines, Some(i.text), |i.lines| - n, i.lines[|i.lines| - n])
  {
    assert Back(i, 0) == i;
    if k > 1 {
      BackShows(i, k - 1);
    }
  }

  /** Going back k steps and forward m shows the line k - m steps from the end, and
    * the draft again once all the steps back are undone; further steps change
    * nothing. */
  lemma {:induction false} BackAndForth(i: Input, k: nat, m: nat)
    requires i.Valid() && i.draft.None? && k > 0
    ensures var n := if k < |i.lines| then k else |i.lines|;
      var r := Forth(Back(i, k), m);
      && r.lines == i.lines
      && r.text == (if m < n then i.lines[|i.lines| - n + m] else i.text)
      && (m <= n && i.lines != [] ==> r.at == |i.lines| - n + m && r.draft == Some(i.text))
      && (m > n ==> r == i)
    decreases m
  {
    if i.lines == [] {
      NothingToBrowse(i, k);
      NothingToLeave(i, m);
    } else {
      BackShows(i, k);
      if m > 0 {
        BackAndForth(i, k, m - 1);
      }
    }
  }

  lemma {:induction false} NothingToBrowse(i: Input, k: nat)
    requires i.Valid() && i.lines == []
    ensures Back(i, k) == i
  {
    if k > 0 {
      NothingToBrowse(i, k - 1);
    }
  }

  lemma {:induction false} NothingToLeave(i: Input, m: nat)
    requires i.Valid() && i.draft.None?
    ensures Forth(i, m) == i
  {
    if m > 0 {
      NothingToLeave(i, m - 1);
    }
  }

  // -------------------------------------------------------------- the box

  // The length of the first line, and of the first line with its end.
  function LineEnd(s: string, i: nat): (j: nat)
    requires i <= |s|
    ensures i <= j <= |s| && (j == |s| || s[j] == '\n') && forall k | i <= k < j :: s[k] != '\n'
    decreases |s| - i
  {
    if i == |s| || s[i] == '\n' then i else LineEnd(s, i + 1)
  }

  function WithoutFirstLine(s: string): (t: string)
    ensures var line := s[..LineEnd(s, 0)]; if line == s then t == "" else s == line + "\n" + t
  {
    var j := LineEnd(s, 0);
    if j == |s| then "" else s[j + 1..]
  }

  class SuiBuffer {
    // A list of lines; `iter` and `stage` are places in it.
    var history: seq<string>
    var iter: Option<nat>
    var stage: Option<nat>
    var text: string

    // What was sent so far.
    ghost var sent: seq<string>

    ghost predicate Valid()
      reads this
    {
      && (iter.Some? ==> iter.value < |history|)
      && (stage.Some? ==> |history| > 1 && stage.value == |history| - 1 && iter.Some?)
      && (stage.None? ==> iter == if history == [] then None else Some(|history| - 1))
      && Contents().Valid() && Contents().lines == Kept(sent)
    }

    function Contents(): Input
      reads this
    {
      if stage.Some? && history != [] then
        Input(history[..|history| - 1], Some(history[|history| - 1]), if iter.Some? then iter.value else 0, text)
      else Input(history, None, |history|, text)
    }

    constructor ()
      ensures Valid() && Contents() == Input([], None, 0, "") && sent == []
    {
      history, iter, stage, text, sent := [], None, None, "", [];
    }

    // The user writes.
    method Edit(text: string)
      requires Valid()
      modifies this`text
      ensures Valid() && Contents() == old(Contents()).(text := text)
    {
      this.text := text;
    }

    method BrowsePrevious()
      requires Valid()
      modifies this`history, this`iter, this`stage, this`text
      ensures Valid() && Contents() == Previous(old(Contents()))
    {
      if iter.None? {
        return;
      }
      if stage.None? {
        StartBrowsing();
      } else {
        if iter.value == 0 {
          return;
        }
        iter := Some(iter.value - 1);
      }
      text := history[iter.value];
    }

    method BrowseNext()
      requires Valid()
      modifies this`history, this`iter, this`stage, this`text
      ensures Valid() && Contents() == Next(old(Contents()))
    {
      if stage.None? {
        return;
      }
      if iter.value + 1 == |history| {
        ResetBrowsing();
        return;
      }
      iter := Some(iter.value + 1);
      text := history[iter.value];
    }

    method StartBrowsing()
      requires Valid() && stage.None? && iter.Some?
      modifies this`history, this`stage
      ensures history == old(history) + [text] && stage == Some(|old(history)|)
    {
      history := history + [text];
      stage := Some(|history| - 1);
    }

    method ResetBrowsing()
      requires Valid()
      modifies this`history, this`iter, this`stage
      ensures Valid() && stage.None? && history == old(Contents()).lines
    {
      if stage.Some? {
        history := history[..stage.value] + history[stage.value + 1..];
        stage := None;
      }
      iter := if history == [] then None else Some(|history| - 1);
    }

    method PushHistory(line: string)
      requires Valid()
      modifies this`history, this`iter, this`stage, this`sent
      ensures Valid() && sent == old(sent) + [line] && stage.None?
    {
      hide Kept;
      ResetBrowsing();
      KeptNext(sent, line);
      sent := sent + [line];
      if iter.Some? {
        if history[iter.value] == line {
          return;
        }
      }
      history := history + [line];
      if |history| > HISTORY_SIZE {
        history := history[1..];
      }
      iter := Some(|history| - 1);
    }

    /** Sends the first line, unless it is empty. */
    method Send() returns (line: string)
      requires Valid()
      modifies this
      ensures Valid() && '\n' !in line
      ensures (old(text) == line && text == "") || old(text) == line + "\n" + text
      ensures line != "" ==> sent == old(sent) + [line] && stage.None?
      ensures line == "" ==> sent == old(sent) && Contents() == old(Contents()).(text := text)
    {
      var j := LineEnd(text, 0);
      line := text[..j];
      if line == "" {
        if text == "" {
          return;
        }
        text := WithoutFirstLine(text);
        return;
      }
      PushHistory(line);
      text := WithoutFirstLine(text);
    }
  }
}
