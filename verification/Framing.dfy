/** The receiver takes one byte at a time and hands on whole lines. */
module Framing {
  import opened Wrappers

  const SIRC_BUF_LEN := 1024

  // -------------------------------------------------- splitting all at once

  predicate CrlfAt(s: string, i: int) {
    0 <= i && i + 1 < |s| && s[i] == '\r' && s[i + 1] == '\n'
  }

  // The first line end from i on, or the end of the text.
  function NextCrlf(s: string, i: nat): (j: nat)
    requires i <= |s|
    ensures i <= j <= |s| && (j == |s| || CrlfAt(s, j))
    decreases |s| - i
  {
    if i == |s| || CrlfAt(s, i) then i else NextCrlf(s, i + 1)
  }

  // The lines that are finished, and what has come of the next one.
  datatype Frames = Frames(lines: seq<string>, rest: string)

  function Split(s: string): Frames
    decreases |s|
  {
    var j := NextCrlf(s, 0);
    if j == |s| then Frames([], s)
    else
      var more := Split(s[j + 2..]);
      Frames([s[..j]] + more.lines, more.rest)
  }

  function Unlines(lines: seq<string>): string {
    if lines == [] then "" else lines[0] + "\r\n" + Unlines(lines[1..])
  }

  predicate NoCrlf(s: string) {
    forall i | 0 <= i < |s| :: !CrlfAt(s, i)
  }

  lemma {:induction false} NextCrlfIs(s: string, i: nat, j: nat)
    requires i <= j <= |s| && (j == |s| || CrlfAt(s, j)) && forall k | i <= k < j :: !CrlfAt(s, k)
    ensures NextCrlf(s, i) == j
    decreases j - i
  {
    if i < j {
      NextCrlfIs(s, i + 1, j);
    }
  }

  lemma {:induction false} NothingBeforeNextCrlf(s: string, i: nat)
    requires i <= |s|
    ensures forall k | i <= k < NextCrlf(s, i) :: !CrlfAt(s, k)
    decreases |s| - i
  {
    if i < |s| && !CrlfAt(s, i) {
      NothingBeforeNextCrlf(s, i + 1);
    }
  }

  // A text that starts with a line.
  lemma {:induction false} SplitFirst(line: string, more: string)
    requires NoCrlf(line)
    ensures var f := Split(more);
      Split(line + "\r\n" + more) == Frames([line] + f.lines, f.rest)
  {
    var s := line + "\r\n" + more;
    forall k | 0 <= k < |line| ensures !CrlfAt(s, k) {
      assert !CrlfAt(line, k);
    }
    NextCrlfIs(s, 0, |line|);
    assert s[..|line|] == line && s[|line| + 2..] == more;
  }

  lemma {:induction false} SplitNone(s: string)
    requires NoCrlf(s)
    ensures Split(s) == Frames([], s)
  {
    NextCrlfIs(s, 0, |s|);
  }

  /** Splitting undoes joining: the lines come back, and so does what follows. */
  lemma {:induction false} SplitOfUnlines(lines: seq<string>, rest: string)
    requires (forall l <- lines :: NoCrlf(l)) && NoCrlf(rest)
    ensures Split(Unlines(lines) + rest) == Frames(lines, rest)
  {
    if lines == [] {
      SplitNone(rest);
      assert "" + rest == rest;
    } else {
      forall l <- lines[1..] ensures NoCrlf(l) {
        assert l in lines;
      }
      SplitOfUnlines(lines[1..], rest);
      SplitLine(lines[0], lines[1..], rest);
      assert [lines[0]] + lines[1..] == lines;
    }
  }

  lemma {:induction false} SplitLine(line: string, lines: seq<string>, rest: string)
    requires NoCrlf(line) && Split(Unlines(lines) + rest) == Frames(lines, rest)
    ensures Split(line + "\r\n" + Unlines(lines) + rest) == Frames([line] + lines, rest)
  {
    SplitFirst(line, Unlines(lines) + rest);
    Behind(line, "\r\n", Unlines(lines), rest);
  }

  lemma Behind(a: string, b: string, c: string, d: string)
    ensures a + b + c + d == a + b + (c + d)
  {
  }

  /** Joining undoes splitting, and no line that comes out holds a line end. */
  lemma {:induction false} UnlinesOfSplit(s: string)
    ensures var f := Split(s);
      && Unlines(f.lines) + f.rest == s
      && NoCrlf(f.rest) && (forall l <- f.lines :: NoCrlf(l))
    decreases |s|
  {
    var j := NextCrlf(s, 0);
    NothingBeforeNextCrlf(s, 0);
    if j == |s| {
      assert "" + s == s;
    } else {
      UnlinesOfSplit(s[j + 2..]);
      FirstLine(s, j, Split(s[j + 2..]));
    }
  }

  lemma {:induction false} FirstLine(s: string, j: nat, f: Frames)
    requires CrlfAt(s, j) && forall k | 0 <= k < j :: !CrlfAt(s, k)
    requires Unlines(f.lines) + f.rest == s[j + 2..]
    ensures Unlines([s[..j]] + f.lines) + f.rest == s && NoCrlf(s[..j])
  {
    assert ([s[..j]] + f.lines)[1..] == f.lines;
    assert s[..j] + "\r\n" + s[j + 2..] == s;
    assert s[..j] + "\r\n" + Unlines(f.lines) + f.rest == s[..j] + "\r\n" + (Unlines(f.lines) + f.rest);
    forall k | 0 <= k < j ensures !CrlfAt(s[..j], k) {
      assert !CrlfAt(s, k);
    }
  }

  // --------------------------------------------------- one byte at a time

  predicate EndsLine(s: string) {
    CrlfAt(s, |s| - 2)
  }

  function Fed(f: Frames, byte: char): Frames {
    var pending := f.rest + [byte];
    if EndsLine(pending) then Frames(f.lines + [pending[..|pending| - 2]], "") else Frames(f.lines, pending)
  }

  /** A byte more in the text is a byte more for the receiver. */
  lemma {:induction false} SplitGrows(s: string, byte: char)
    ensures Split(s + [byte]) == Fed(Split(s), byte)
    decreases |s|
  {
    var j := NextCrlf(s, 0);
    NothingBeforeNextCrlf(s, 0);
    forall k | 0 <= k < j ensures k < |s| - 1 ==> !CrlfAt(s + [byte], k) {
      assert !CrlfAt(s, k);
    }
    if j == |s| {
      SplitGrowsLast(s, byte);
    } else {
      SplitGrows(s[j + 2..], byte);
      SplitGrowsLater(s, byte, j);
    }
  }

  lemma {:induction false} SplitGrowsLast(s: string, byte: char)
    requires NextCrlf(s, 0) == |s| && forall k | 0 <= k < |s| :: k < |s| - 1 ==> !CrlfAt(s + [byte], k)
    ensures Split(s + [byte]) == Fed(Split(s), byte)
  {
    var t := s + [byte];
    if EndsLine(t) {
      NextCrlfIs(t, 0, |s| - 1);
      assert t[|s| - 1 + 2..] == "";
      assert [] + [t[..|s| - 1]] == [t[..|s| - 1]] + [];
    } else {
      NextCrlfIs(t, 0, |t|);
    }
  }

  lemma {:induction false} SplitGrowsLater(s: string, byte: char, j: nat)
    requires j == NextCrlf(s, 0) && CrlfAt(s, j) && forall k | 0 <= k < j :: !CrlfAt(s + [byte], k)
    requires Split(s[j + 2..] + [byte]) == Fed(Split(s[j + 2..]), byte)
    ensures Split(s + [byte]) == Fed(Split(s), byte)
  {
    var t := s + [byte];
    NextCrlfIs(t, 0, j);
    assert t[j + 2..] == s[j + 2..] + [byte] && t[..j] == s[..j];
    FedBehind([s[..j]], Split(s[j + 2..]), byte);
  }

  // Lines that came earlier do not matter to the next byte.
  lemma {:induction false} FedBehind(first: seq<string>, f: Frames, byte: char)
    ensures var g := Fed(f, byte);
      Fed(Frames(first + f.lines, f.rest), byte) == Frames(first + g.lines, g.rest)
  {
    var pending := f.rest + [byte];
    if EndsLine(pending) {
      var line := pending[..|pending| - 2];
      assert first + (f.lines + [line]) == first + f.lines + [line];
    }
  }

  // Every line with its line end, and what comes after them, fits the buffer.
  predicate Fits(f: Frames) {
    (forall l <- f.lines :: |l| + 2 <= SIRC_BUF_LEN) && |f.rest| <= SIRC_BUF_LEN
  }

  /** If a text fits, there was room for its last byte, and it fitted before. */
  lemma {:induction false} FitsBefore(f: Frames, byte: char)
    requires Fits(Fed(f, byte))
    ensures Fits(f) && |f.rest| < SIRC_BUF_LEN
  {
    var pending := f.rest + [byte];
    if EndsLine(pending) {
      var line := pending[..|pending| - 2];
      assert line in f.lines + [line];
      forall l <- f.lines ensures |l| + 2 <= SIRC_BUF_LEN {
        assert l in f.lines + [line];
      }
    }
  }

  // ------------------------------------------------------------ C strings

  // Up to the first NUL, or everything.
  function CString(s: string, i: nat): string
    requires i <= |s|
    decreases |s| - i
  {
    if i == |s| || s[i] == '\0' then s[..i] else CString(s, i + 1)
  }

  lemma {:induction false} CStringOf(s: string, i: nat, n: nat)
    requires i <= n <= |s| && (n == |s| || s[n] == '\0') && '\0' !in s[..n]
    ensures CString(s, i) == s[..n]
    decreases n - i
  {
    if i < n {
      assert s[i] == s[..n][i];
      CStringOf(s, i + 1, n);
    }
  }

  lemma CStringIs(s: string)
    requires '\0' !in s
    ensures CString(s, 0) == s
  {
    assert s[..|s|] == s;
    CStringOf(s, 0, |s|);
  }

  // Lines as the parser gets them.
  function CStrings(lines: seq<string>): seq<string> {
    seq(|lines|, i requires 0 <= i < |lines| => CString(lines[i], 0))
  }

  /** Lines lose nothing just when none of them holds a NUL. */
  lemma {:induction false} CStringsKeepIff(lines: seq<string>)
    ensures CStrings(lines) == lines <==> forall l <- lines :: '\0' !in l
  {
    forall i | 0 <= i < |lines| ensures CString(lines[i], 0) == lines[i] <==> '\0' !in lines[i] {
      NoNulBefore(lines[i], 0);
      if '\0' !in lines[i] {
        CStringIs(lines[i]);
      }
    }
  }

  lemma {:induction false} NoNulBefore(s: string, i: nat)
    requires i <= |s| && '\0' !in s[..i]
    ensures '\0' !in CString(s, i)
    decreases |s| - i
  {
    if i < |s| && s[i] != '\0' {
      NoNulBefore(s, i + 1);
    }
  }

  // ----------------------------------------------------------- the receiver

  class Receiver {
    const buf: array<char>
    var bufptr: nat

    predicate Valid()
      reads this
    {
      buf.Length == SIRC_BUF_LEN && bufptr <= SIRC_BUF_LEN
    }

    // What has been received of the line that is not finished.
    function Pending(): string
      requires Valid()
      reads this, buf
    {
      buf[..bufptr]
    }

    constructor ()
      ensures Valid() && Pending() == "" && fresh(buf)
    {
      buf := new char[SIRC_BUF_LEN](_ => '\0');
      bufptr := 0;
    }

    /** A byte arrives.  There has to be room for it; a line that is finished is
      * read as a C string. */
    method OnByte(byte: char) returns (line: Option<string>)
      requires Valid() && bufptr < SIRC_BUF_LEN
      modifies this`bufptr, buf
      ensures Valid()
      ensures var pending := old(Pending()) + [byte];
        if EndsLine(pending) then
          line == Some(CString(pending[..|pending| - 2], 0)) && Pending() == ""
        else
          line == None && Pending() == pending
    {
      ghost var pending := Pending() + [byte];
      buf[bufptr] := byte;
      bufptr := bufptr + 1;
      assert buf[..bufptr] == pending;
      if !(bufptr >= 2 && buf[bufptr - 2] == '\r' && buf[bufptr - 1] == '\n') {
        return None;
      }
      ghost var text := pending[..bufptr - 2];
      assert text == buf[..bufptr - 2];
      buf[bufptr - 2] := '\0';
      buf[bufptr - 1] := '\0';
      bufptr := bufptr - 2;
      CStringStops(buf[..], text, 0);
      line := Some(CString(buf[..], 0));
      bufptr := 0;
      forall i | 0 <= i < buf.Length {
        buf[i] := '\0';
      }
    }

    // Adds the line, if the byte finishes one.
    method Take(byte: char, lines: seq<string>, ghost f: Frames) returns (more: seq<string>)
      requires Valid() && bufptr < SIRC_BUF_LEN && lines == CStrings(f.lines) && Pending() == f.rest
      modifies this`bufptr, buf
      ensures Valid() && more == CStrings(Fed(f, byte).lines) && Pending() == Fed(f, byte).rest
    {
      var line := OnByte(byte);
      more := if line.Some? then lines + [line.value] else lines;
    }

    /** Byte by byte, the lines of a stream are those of splitting it at once, read
      * as C strings, and what is kept is the unfinished rest. */
    method Receive(bytes: string) returns (lines: seq<string>)
      requires Valid() && NoCrlf(Pending()) && Fits(Split(Pending() + bytes))
      modifies this`bufptr, buf
      ensures Valid() && lines == CStrings(Split(old(Pending()) + bytes).lines)
      ensures Pending() == Split(old(Pending()) + bytes).rest
    {
      lines := [];
      ghost var before := Pending();
      SplitNone(before);
      assert before + bytes[..0] == before;
      for n := 0 to |bytes|
        invariant Valid() && lines == CStrings(Split(before + bytes[..n]).lines)
        invariant Pending() == Split(before + bytes[..n]).rest
      {
        FitsSoFar(before, bytes, n);
        GrowsBy(before, bytes, n);
        lines := Take(bytes[n], lines, Split(before + bytes[..n]));
      }
      assert bytes[..|bytes|] == bytes;
    }
  }

  lemma {:induction false} CStringStops(s: string, t: string, i: nat)
    requires i <= |t| < |s| && s[..|t|] == t && s[|t|] == '\0'
    ensures CString(s, i) == CString(t, i)
    decreases |t| - i
  {
    if i < |t| {
      assert s[i] == t[i];
      assert s[..i] == t[..i];
      if s[i] != '\0' {
        CStringStops(s, t, i + 1);
      }
    }
  }

  lemma GrowsBy(before: string, bytes: string, n: nat)
    requires n < |bytes|
    ensures Split(before + bytes[..n + 1]) == Fed(Split(before + bytes[..n]), bytes[n])
  {
    assert before + bytes[..n + 1] == before + bytes[..n] + [bytes[n]];
    SplitGrows(before + bytes[..n], bytes[n]);
  }

  lemma {:induction false} FitsSoFar(before: string, bytes: string, n: nat)
    requires n < |bytes| && Fits(Split(before + bytes))
    ensures Fits(Split(before + bytes[..n])) && |Split(before + bytes[..n]).rest| < SIRC_BUF_LEN
    decreases |bytes| - n
  {
    GrowsBy(before, bytes, n);
    if n + 1 < |bytes| {
      FitsSoFar(before, bytes, n + 1);
    } else {
      assert bytes[..n + 1] == bytes;
    }
    FitsBefore(Split(before + bytes[..n]), bytes[n]);
  }
}
