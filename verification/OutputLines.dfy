/**
 The output of a weed mount process: lineWriter splits a stream that arrives in arbitrary pieces
 into lines, processOutput keeps the first and the last of them.
 */
module OutputLines {

  const OUTPUT_KEEP_LINES := 5
  const MAX_LINE_BYTES := 64 * 1024

  // ----- lines of a stream -----

  /** Without one trailing carriage return. */
  function TrimCR(s: string): string {
    if s != "" && s[|s| - 1] == '\r' then s[..|s| - 1] else s
  }

  /** One carriage return at the end goes, and nothing else. */
  lemma TrimsOneCarriageReturn(s: string)
    ensures TrimCR(s + "\r") == s
    ensures (s == "" || s[|s| - 1] != '\r') ==> TrimCR(s) == s
  {
    assert (s + "\r")[..|s|] == s;
  }

  function TrimAll(lines: seq<string>): (r: seq<string>)
    ensures |r| == |lines| && forall i | 0 <= i < |lines| :: r[i] == TrimCR(lines[i])
  {
    seq(|lines|, i requires 0 <= i < |lines| => TrimCR(lines[i]))
  }

  /**
   A stream read up to some point: its lines so far, each without the newline that ended it,
   what follows the last newline, and whether some line reached the length limit.
   */
  datatype Split = Split(lines: seq<string>, rest: string, overlong: bool)

  /** Reads more of a stream, one byte at a time, after a rest without newline. */
  function Scan(rest: string, more: string): Split {
    if more == "" then Split([], rest, false)
    else
      var before, c := Scan(rest, more[..|more| - 1]), more[|more| - 1];
      if c == '\n' then
        Split(before.lines + [before.rest], "", before.overlong || |before.rest| >= MAX_LINE_BYTES)
      else
        before.(rest := before.rest + [c])
  }

  /** What a flush of the buffer emits. */
  function FlushedLines(buf: string): seq<string> {
    if buf == "" then [] else [TrimCR(buf)]
  }

  /** The lines of a whole stream: each with one trailing carriage return trimmed. */
  function LinesOf(stream: string): seq<string> {
    TrimAll(Scan("", stream).lines) + FlushedLines(Scan("", stream).rest)
  }

  /** The lines put together again, each ended by a newline. */
  function Unlines(lines: seq<string>): string {
    if lines == [] then "" else Unlines(lines[..|lines| - 1]) + lines[|lines| - 1] + "\n"
  }

  /** Scanning is the one way to take a stream apart at its newlines. */
  lemma {:induction false} ScanTakesApart(stream: string)
    ensures stream == Unlines(Scan("", stream).lines) + Scan("", stream).rest
    ensures '\n' !in Scan("", stream).rest && forall line | line in Scan("", stream).lines :: '\n' !in line
  {
    if stream != "" {
      var front, c := stream[..|stream| - 1], stream[|stream| - 1];
      ScanTakesApart(front);
      var before := Scan("", front);
      assert stream == front + [c];
      if c == '\n' {
        assert (before.lines + [before.rest])[..|before.lines|] == before.lines;
      }
    }
  }

  lemma {:induction false} ScanAppend(rest: string, a: string, b: string)
    ensures var x, y := Scan(rest, a), Scan(Scan(rest, a).rest, b);
            Scan(rest, a + b) == Split(x.lines + y.lines, y.rest, x.overlong || y.overlong)
    decreases |b|
  {
    if b == "" {
      assert a + b == a;
    } else {
      var b' := b[..|b| - 1];
      ScanAppend(rest, a, b');
      assert (a + b)[..|a + b| - 1] == a + b';
    }
  }

  lemma {:induction false} ScanWithoutNewline(rest: string, more: string)
    requires '\n' !in more
    ensures Scan(rest, more) == Split([], rest + more, false)
  {
    if more != "" {
      ScanWithoutNewline(rest, more[..|more| - 1]);
    }
  }

  lemma {:induction false} RestHasNoNewline(rest: string, more: string)
    requires '\n' !in rest
    ensures '\n' !in Scan(rest, more).rest
  {
    if more != "" {
      RestHasNoNewline(rest, more[..|more| - 1]);
    }
  }

  lemma ScanLine(rest: string, line: string, more: string)
    requires '\n' !in line
    ensures Scan(rest, line + ['\n'] + more).lines == [rest + line] + Scan("", more).lines
    ensures Scan(rest, line + ['\n'] + more).rest == Scan("", more).rest
  {
    ScanWithoutNewline(rest, line);
    assert (line + ['\n'])[..|line|] == line;
    ScanAppend(rest, line + ['\n'], more);
  }

  // ----- the memory of lines -----

  /** What summary reports: no line, the head, head and tail, or both with the lines between omitted. */
  datatype Summary = NoOutput | Kept(lines: seq<string>) | Elided(head: seq<string>, omitted: nat, tail: seq<string>)

  function Min(a: nat, b: nat): nat {
    if a < b then a else b
  }

  class ProcessOutput {
    var head: seq<string>
    var tail: seq<string>
    var lines: nat
    ghost var all: seq<string>

    /** head and tail are the first and the last lines ever added, without overlap. */
    ghost predicate Valid()
      reads this
    {
      && lines == |all|
      && head == all[..Min(lines, OUTPUT_KEEP_LINES)]
      && tail == all[lines - Min(lines - |head|, OUTPUT_KEEP_LINES)..]
    }

    constructor ()
      ensures Valid() && all == []
    {
      head, tail, lines, all := [], [], 0, [];
    }

    method Add(line: string)
      requires Valid()
      modifies this
      ensures Valid() && all == old(all) + [line]
    {
      lines := lines + 1;
      all := all + [line];
      if |head| < OUTPUT_KEEP_LINES {
        head := head + [line];
        return;
      }
      tail := tail + [line];
      if |tail| > OUTPUT_KEEP_LINES {
        tail := tail[1..];
      }
    }

    /** Nothing is lost up to ten lines; beyond, exactly the lines between are counted as omitted. */
    method Summarize() returns (s: Summary)
      requires Valid()
      ensures s == (if all == [] then NoOutput
                    else if |all| <= 2 * OUTPUT_KEEP_LINES then Kept(all)
                    else Elided(all[..OUTPUT_KEEP_LINES], |all| - 2 * OUTPUT_KEEP_LINES, all[|all| - OUTPUT_KEEP_LINES..]))
    {
      if lines == 0 {
        return NoOutput;
      }
      if |tail| == 0 {
        return Kept(head);
      }
      var omitted := lines - |head| - |tail|;
      if omitted > 0 {
        return Elided(head, omitted, tail);
      }
      assert all == head + tail;
      return Kept(head + tail);
    }
  }

  // ----- the splitter -----

  /** The lines one Write emits. */
  function WrittenLines(buf: string, p: string): seq<string> {
    var s := Scan(buf, p);
    TrimAll(s.lines) + if |s.rest| >= MAX_LINE_BYTES then [s.rest] else []
  }

  /** The buffer one Write leaves. */
  function NextBuffer(buf: string, p: string): string {
    var s := Scan(buf, p);
    if |s.rest| >= MAX_LINE_BYTES then "" else s.rest
  }

  /** bytes.IndexByte of a newline; the length when there is none. */
  method IndexOfNewline(s: string) returns (i: nat)
    ensures i <= |s| && '\n' !in s[..i] && (i < |s| ==> s[i] == '\n')
  {
    i := 0;
    while i < |s| && s[i] != '\n'
      invariant i <= |s| && '\n' !in s[..i]
    {
      i := i + 1;
    }
  }

  /** The lines that are complete in a buffer. */
  function CompleteLines(buf: string): seq<string> {
    TrimAll(Scan("", buf).lines)
  }

  lemma BufferThenMore(buf: string, p: string)
    requires '\n' !in buf
    ensures Scan("", buf + p).lines == Scan(buf, p).lines && Scan("", buf + p).rest == Scan(buf, p).rest
    ensures '\n' !in Scan(buf, p).rest
  {
    ScanWithoutNewline("", buf);
    assert "" + buf == buf;
    ScanAppend("", buf, p);
    RestHasNoNewline(buf, p);
  }

  lemma TakeLine(buf: string, i: nat, emitted: seq<string>)
    requires i < |buf| && buf[i] == '\n' && '\n' !in buf[..i]
    ensures Scan("", buf).rest == Scan("", buf[i + 1..]).rest
    ensures emitted + CompleteLines(buf) == emitted + [TrimCR(buf[..i])] + CompleteLines(buf[i + 1..])
  {
    var line, more := buf[..i], buf[i + 1..];
    assert buf == line + ['\n'] + more;
    ScanLine("", line, more);
    TrimFirst("" + line, Scan("", more).lines);
    assert "" + line == line;
    AddAssociates(emitted, [TrimCR(line)], CompleteLines(more));
  }

  lemma TrimFirst(line: string, lines: seq<string>)
    ensures TrimAll([line] + lines) == [TrimCR(line)] + TrimAll(lines)
  {
  }

  lemma AddAssociates(a: seq<string>, b: seq<string>, c: seq<string>)
    ensures a + (b + c) == a + b + c
  {
  }

  lemma NoLineLeft(buf: string)
    requires '\n' !in buf[..|buf|]
    ensures CompleteLines(buf) == [] && Scan("", buf).rest == buf
  {
    assert buf[..|buf|] == buf && "" + buf == buf;
    ScanWithoutNewline("", buf);
  }

  lemma AppendLast(before: seq<string>, lines: seq<string>, complete: seq<string>, rest: string)
    requires complete + [] == before + lines
    ensures complete == before + (lines + []) && complete + [rest] == before + (lines + [rest])
  {
    assert complete == before + lines && lines + [] == lines;
    AddAssociates(before, lines, [rest]);
  }

  class LineWriter {
    const output: ProcessOutput
    var buf: string

    /** The buffer holds no newline and less than the limit. */
    predicate Valid()
      reads this
    {
      '\n' !in buf && |buf| < MAX_LINE_BYTES
    }

    constructor (output: ProcessOutput)
      ensures Valid() && this.output == output && buf == ""
    {
      this.output, buf := output, "";
    }

    method Write(p: string)
      requires Valid() && output.Valid()
      modifies this, output
      ensures Valid() && output.Valid()
      ensures output.all == old(output.all) + WrittenLines(old(buf), p)
      ensures buf == NextBuffer(old(buf), p)
    {
      ghost var before, scan := output.all, Scan(buf, p);
      BufferThenMore(buf, p);
      buf := buf + p;
      while true
        invariant output.Valid() && scan.rest == Scan("", buf).rest
        invariant output.all + CompleteLines(buf) == before + TrimAll(scan.lines)
        decreases |buf|
      {
        var i := IndexOfNewline(buf);
        if i == |buf| {
          NoLineLeft(buf);
          ghost var complete := output.all;
          if |buf| >= MAX_LINE_BYTES {
            output.Add(buf);
            buf := "";
          }
          AppendLast(before, TrimAll(scan.lines), complete, scan.rest);
          return;
        }
        TakeLine(buf, i, output.all);
        output.Add(TrimCR(buf[..i]));
        buf := buf[i + 1..];
      }
    }

    method Flush()
      requires Valid() && output.Valid()
      modifies this, output
      ensures Valid() && output.Valid() && output.all == old(output.all) + FlushedLines(old(buf)) && buf == ""
    {
      if |buf| > 0 {
        output.Add(TrimCR(buf));
        buf := "";
      }
    }
  }

  // ----- streams cut into writes -----

  function Concat(chunks: seq<string>): string {
    if chunks == [] then "" else chunks[0] + Concat(chunks[1..])
  }

  /** The lines emitted by writing the chunks one after the other and then flushing. */
  function Emitted(buf: string, chunks: seq<string>): seq<string>
    decreases |chunks|
  {
    if chunks == [] then FlushedLines(buf)
    else WrittenLines(buf, chunks[0]) + Emitted(NextBuffer(buf, chunks[0]), chunks[1..])
  }

  /** A last piece without newline that is emitted the same in one piece or flushed. */
  predicate EndFits(rest: string) {
    |rest| < MAX_LINE_BYTES || (|rest| == MAX_LINE_BYTES && TrimCR(rest) == rest)
  }

  /** Every line is shorter than the limit; the last piece may just reach it. */
  predicate Fits(stream: string) {
    !Scan("", stream).overlong && EndFits(Scan("", stream).rest)
  }

  /** A rest at the limit grows until a newline makes the line overlong. */
  lemma {:induction false} FullRestGrows(rest: string, more: string)
    requires |rest| >= MAX_LINE_BYTES && !Scan(rest, more).overlong
    ensures Scan(rest, more) == Split([], rest + more, false)
  {
    if more != "" {
      FullRestGrows(rest, more[..|more| - 1]);
    }
  }

  /** Nothing is emitted for empty writes to an empty buffer. */
  lemma {:induction false} EmptyWrites(chunks: seq<string>)
    requires Concat(chunks) == ""
    ensures Emitted("", chunks) == []
  {
    if chunks != [] {
      EmptyWrites(chunks[1..]);
    }
  }

  /** However a stream that fits is cut into writes, its lines come out. */
  lemma {:induction false} FittingStreamsSplit(buf: string, chunks: seq<string>)
    requires |buf| < MAX_LINE_BYTES
    requires var s := Scan(buf, Concat(chunks)); !s.overlong && EndFits(s.rest)
    ensures var s := Scan(buf, Concat(chunks)); Emitted(buf, chunks) == TrimAll(s.lines) + FlushedLines(s.rest)
    decreases |chunks|
  {
    if chunks != [] {
      var more := Concat(chunks[1..]);
      ScanAppend(buf, chunks[0], more);
      var x := Scan(buf, chunks[0]);
      var y := Scan(x.rest, more);
      assert TrimAll(x.lines + y.lines) == TrimAll(x.lines) + TrimAll(y.lines);
      if |x.rest| >= MAX_LINE_BYTES {
        FullRestGrows(x.rest, more);
        assert more == "" && x.rest + more == x.rest;
        EmptyWrites(chunks[1..]);
      } else {
        FittingStreamsSplit(x.rest, chunks[1..]);
      }
    }
  }

  // ----- streams that do not fit -----

  lemma EmittedTwo(a: string, b: string)
    ensures Concat([a, b]) == a + b
    ensures Emitted("", [a, b]) ==
            WrittenLines("", a) + (WrittenLines(NextBuffer("", a), b) + FlushedLines(NextBuffer(NextBuffer("", a), b)))
  {
    assert [a, b][1..] == [b] && [b][1..] == [];
    var buf := NextBuffer("", a);
    assert Emitted(NextBuffer(buf, b), []) == FlushedLines(NextBuffer(buf, b));
    assert Emitted(buf, [b]) == WrittenLines(buf, b) + FlushedLines(NextBuffer(buf, b));
    assert Concat([]) == "" && Concat([b]) == b;
  }

  /** Cut where the rest has reached the limit, one line more comes out unless nothing follows. */
  lemma EmittedAfterFullRest(a: string, b: string)
    requires |Scan("", a).rest| >= MAX_LINE_BYTES
    ensures |Emitted("", [a, b])| == |Scan("", a).lines| + 1 + |LinesOf(b)|
    ensures Emitted("", [a, b])[|Scan("", a).lines|] == Scan("", a).rest
  {
    EmittedTwo(a, b);
  }

  /** Where the first overlong line ends. */
  lemma {:induction false} OverlongCut(stream: string) returns (k: nat)
    requires Scan("", stream).overlong
    ensures k < |stream| && stream[k] == '\n' && |Scan("", stream[..k]).rest| >= MAX_LINE_BYTES
  {
    var front := stream[..|stream| - 1];
    if Scan("", front).overlong {
      k := OverlongCut(front);
      assert stream[..k] == front[..k];
    } else {
      k := |stream| - 1;
    }
  }

  /** Where the last piece reaches the limit. */
  lemma {:induction false} EndCut(stream: string) returns (k: nat)
    requires |Scan("", stream).rest| >= MAX_LINE_BYTES
    ensures k <= |stream| && Scan("", stream[..k]).lines == Scan("", stream).lines
    ensures |Scan("", stream[..k]).rest| == MAX_LINE_BYTES
    ensures Scan("", stream).rest == Scan("", stream[..k]).rest + stream[k..]
    ensures '\n' !in stream[k..]
  {
    var rest := Scan("", stream).rest;
    if |rest| == MAX_LINE_BYTES {
      k := |stream|;
      assert stream[..k] == stream;
    } else {
      var front := stream[..|stream| - 1];
      k := EndCut(front);
      assert stream[..k] == front[..k] && stream[k..] == front[k..] + [stream[|stream| - 1]];
    }
  }

  /** A stream that does not fit has a cut into two writes that emits other lines. */
  lemma UnfitStreamsMisSplit(stream: string) returns (k: nat)
    requires !Fits(stream)
    ensures k <= |stream| && Emitted("", [stream[..k], stream[k..]]) != LinesOf(stream)
  {
    if Scan("", stream).overlong {
      k := OverlongCut(stream);
      var a, b, more := stream[..k], stream[k..], stream[k + 1..];
      EmittedAfterFullRest(a, b);
      ScanAppend("", a, b);
      assert stream == a + b && b == "" + ['\n'] + more;
      ScanLine("", "", more);
      ScanLine(Scan("", a).rest, "", more);
      assert |LinesOf(stream)| + 1 == |Emitted("", [a, b])|;
    } else {
      k := EndCut(stream);
      var a, b := stream[..k], stream[k..];
      EmittedAfterFullRest(a, b);
      ScanWithoutNewline("", b);
      assert "" + b == b && |LinesOf(b)| == (if b == "" then 0 else 1);
      if b == "" {
        assert LinesOf(stream)[|Scan("", a).lines|] == TrimCR(Scan("", stream).rest);
      }
    }
  }

  /**
   When the cutting of a stream does not matter: its lines come out for every way of cutting it
   into writes if and only if it fits.
   */
  lemma CuttingIsIrrelevantIffFits(stream: string)
    ensures (forall chunks | Concat(chunks) == stream :: Emitted("", chunks) == LinesOf(stream)) <==> Fits(stream)
  {
    if Fits(stream) {
      forall chunks | Concat(chunks) == stream
        ensures Emitted("", chunks) == LinesOf(stream)
      {
        FittingStreamsSplit("", chunks);
      }
    } else {
      var k := UnfitStreamsMisSplit(stream);
      EmittedTwo(stream[..k], stream[k..]);
      assert stream[..k] + stream[k..] == stream;
    }
  }
}
