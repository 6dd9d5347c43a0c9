/**
 * The NDJSON line splitter, written twice: once for the host and once for the agent. However the
 * byte stream is cut into pushes, both emit the same lines.
 */
module Framing {
  import opened Domain
  import opened LogFile
  import opened Reassembler

  // ---- what a byte stream means --------------------------------------------------------------

  /** The bytes after the last LF: a line that is not complete yet. */
  function Residual(text: Bytes): Bytes {
    SplitAtLF(text)[|SplitAtLF(text)| - 1]
  }

  /** Empty and over-long lines are dropped. */
  function Kept(lines: seq<Bytes>, max: nat): seq<Bytes> {
    if lines == [] then []
    else
      var line := lines[|lines| - 1];
      Kept(lines[..|lines| - 1], max) + (if 0 < |line| <= max then [line] else [])
  }

  function Overlong(lines: seq<Bytes>, max: nat): nat {
    if lines == [] then 0
    else Overlong(lines[..|lines| - 1], max) + (if |lines[|lines| - 1]| > max then 1 else 0)
  }

  /** What a splitter must have done with `text`, whichever way it arrived. */
  ghost predicate Splits(text: Bytes, max: nat, emitted: seq<Bytes>, overflows: nat, buf: Bytes, discarding: bool) {
    && emitted == Kept(ReadLines(text), max)
    && overflows == Overlong(ReadLines(text), max) + (if |Residual(text)| > max then 1 else 0)
    && discarding == (|Residual(text)| > max)
    && buf == (if discarding then [] else Residual(text))
  }

  ghost predicate AllPlain(lines: seq<Bytes>) {
    forall i :: 0 <= i < |lines| ==> NoLF(lines[i])
  }

  lemma PiecesOf(text: Bytes)
    ensures SplitAtLF(text) == ReadLines(text) + [Residual(text)]
  {
  }

  /** A byte that is not LF lengthens the residual; LF turns it into a line. */
  lemma OneByteMore(text: Bytes, c: Byte)
    ensures if c == LF then ReadLines(text + [c]) == ReadLines(text) + [Residual(text)] && Residual(text + [c]) == []
            else ReadLines(text + [c]) == ReadLines(text) && Residual(text + [c]) == Residual(text) + [c]
  {
    assert (text + [c])[..|text|] == text;
    PiecesOf(text);
    PiecesOf(text + [c]);
    var pieces := SplitAtLF(text);
    assert SplitAtLF(text + [c]) == if c == LF then pieces + [[]] else Extend(pieces, [c]);
    assert pieces + [[]] == (ReadLines(text) + [Residual(text)]) + [[]];
    assert Extend(pieces, [c]) == ReadLines(text) + [Residual(text) + [c]];
  }

  /** Splitting loses nothing: the lines, terminated, and the residual are the text again. */
  lemma {:induction false} PiecesRebuildText(text: Bytes)
    ensures FileText(ReadLines(text)) + Residual(text) == text
    ensures AllPlain(ReadLines(text)) && NoLF(Residual(text))
  {
    if text != [] {
      var init, c := text[..|text| - 1], text[|text| - 1];
      assert text == init + [c];
      PiecesRebuildText(init);
      OneByteMore(init, c);
      FileTextAppend(ReadLines(init), Residual(init));
      hide ReadLines, Residual, FileText;
      assert FileText(ReadLines(init)) + (Residual(init) + [LF]) == init + [LF];
      assert FileText(ReadLines(init)) + (Residual(init) + [c]) == init + [c];
    }
  }

  /** Conversely, terminated lines followed by an unterminated rest split into just those. */
  lemma TextSplitsBack(lines: seq<Bytes>, rest: Bytes)
    requires AllPlain(lines) && NoLF(rest)
    ensures ReadLines(FileText(lines) + rest) == lines && Residual(FileText(lines) + rest) == rest
  {
    SplitFileText(lines);
    SplitAppendPlain(FileText(lines), rest);
    var text := FileText(lines) + rest;
    assert SplitAtLF([]) == [[]];
    hide SplitAtLF, FileText, NoLF;
    assert SplitAtLF(text) == lines + [rest] by {
      assert (lines + [[]])[..|lines|] == lines && [] + rest == rest;
    }
    assert (lines + [rest])[..|lines|] == lines;
    if text == [] {
      assert |lines + [rest]| == 1;
    }
  }

  function FirstLF(s: Bytes): (i: int)
    ensures -1 <= i < |s|
    ensures i == -1 <==> NoLF(s)
    ensures i >= 0 ==> s[i] == LF && NoLF(s[..i])
  {
    if s == [] then -1
    else if s[0] == LF then 0
    else
      var i := FirstLF(s[1..]);
      assert s == [s[0]] + s[1..];
      if i == -1 then -1
      else
        assert s[..i + 1] == [s[0]] + s[1..][..i];
        i + 1
  }

  // ---- the loop both splitters share ---------------------------------------------------------

  /**
   * In the middle of a push: `taken` are the lines cut off so far, `held` the part of the current
   * line that was thrown away because the line is already too long.
   */
  ghost predicate Midway(text: Bytes, max: nat, taken: seq<Bytes>, held: Bytes, buf: Bytes, discarding: bool,
                         emitted: seq<Bytes>, overflows: nat) {
    && text == FileText(taken) + (held + buf)
    && AllPlain(taken) && NoLF(held)
    && (if discarding then |held| > max else held == [])
    && emitted == Kept(taken, max)
    && overflows == Overlong(taken, max) + (if discarding then 1 else 0)
  }

  lemma StartPush(
      text: Bytes, max: nat, emitted: seq<Bytes>, overflows: nat, buf: Bytes, discarding: bool, chunk: Bytes)
    requires Splits(text, max, emitted, overflows, buf, discarding)
    ensures Midway(text + chunk, max, ReadLines(text), if discarding then Residual(text) else [],
                   buf + chunk, discarding, emitted, overflows)
  {
    PiecesRebuildText(text);
    hide ReadLines, Residual, FileText, Kept, Overlong;
    var held := if discarding then Residual(text) else [];
    assert held + (buf + chunk) == Residual(text) + chunk;
    assert FileText(ReadLines(text)) + (Residual(text) + chunk) == text + chunk;
  }

  /** One turn of the loop: the line up to the first LF is dropped, reported or emitted. */
  lemma TakeLine(text: Bytes, max: nat, taken: seq<Bytes>, held: Bytes, buf: Bytes, discarding: bool,
                 emitted: seq<Bytes>, overflows: nat, nl: nat)
    requires Midway(text, max, taken, held, buf, discarding, emitted, overflows)
    requires nl < |buf| && buf[nl] == LF && NoLF(buf[..nl])
    ensures Midway(text, max, taken + [held + buf[..nl]], [], buf[nl + 1..], false,
                   if !discarding && 0 < nl <= max then emitted + [buf[..nl]] else emitted,
                   if !discarding && nl > max then overflows + 1 else overflows)
  {
    var line := held + buf[..nl];
    FileTextAppend(taken, line);
    assert (taken + [line])[..|taken|] == taken;
    assert held + buf == line + [LF] + buf[nl + 1..];
    assert !discarding ==> line == buf[..nl];
    assert text == FileText(taken + [line]) + ([] + buf[nl + 1..]);
  }

  /** No LF is left: what remains is the residual, kept unless it is over the cap already. */
  lemma EndPush(text: Bytes, max: nat, taken: seq<Bytes>, held: Bytes, buf: Bytes, discarding: bool,
                emitted: seq<Bytes>, overflows: nat)
    requires Midway(text, max, taken, held, buf, discarding, emitted, overflows) && NoLF(buf)
    ensures var over := discarding || |buf| > max;
            Splits(text, max, emitted, if !discarding && over then overflows + 1 else overflows,
                   if over then [] else buf, over)
  {
    TextSplitsBack(taken, held + buf);
    assert held == [] ==> held + buf == buf;
  }

  // ---- the host's splitter -------------------------------------------------------------------

  class HostSplitter {
    const max: nat
    var buf: Bytes
    var discarding: bool
    /** What the callbacks have been told: the lines, and the size of each over-long one. */
    var emitted: seq<Bytes>
    var overflows: seq<nat>
    /** Everything pushed since the last reset, the lines it gave, and how often it overflowed. */
    ghost var text: Bytes
    ghost var lines: seq<Bytes>
    ghost var reports: nat
    /** What had been emitted and reported before the last reset. */
    ghost var emittedBefore: seq<Bytes>
    ghost var reportsBefore: nat

    ghost predicate Valid()
      reads this
    {
      Splits(text, max, lines, reports, buf, discarding) && |buf| <= max && Tallied()
    }

    constructor (max: nat)
      ensures Valid() && this.max == max && text == []
      ensures emitted == [] && emittedBefore == [] && overflows == [] && reportsBefore == 0
    {
      this.max := max;
      buf, discarding, emitted, overflows := [], false, [], [];
      text, lines, reports, emittedBefore, reportsBefore := [], [], 0, [], 0;
    }

    /** The callbacks since the last reset are accounted for. */
    ghost predicate Tallied()
      reads this`emitted, this`overflows, this`lines, this`reports, this`emittedBefore, this`reportsBefore
    {
      && emitted == emittedBefore + lines && |overflows| == reportsBefore + reports
      && forall i :: 0 <= i < |overflows| ==> overflows[i] > max
    }

    method Report(droppedBytes: nat)
      requires droppedBytes > max && Tallied()
      modifies this`overflows, this`reports
      ensures Tallied() && old(overflows) <= overflows && reports == old(reports) + 1
    {
      overflows, reports := overflows + [droppedBytes], reports + 1;
    }

    method Deliver(line: Bytes)
      requires Tallied()
      modifies this`emitted, this`lines
      ensures Tallied() && lines == old(lines) + [line]
    {
      emitted, lines := emitted + [line], lines + [line];
    }

    /** A line is complete: delivered, reported, or the end of one that was reported already. */
    method Complete(line: Bytes)
      requires Tallied()
      modifies this`discarding, this`emitted, this`overflows, this`lines, this`reports
      ensures Tallied() && !discarding && old(overflows) <= overflows
      ensures lines == if !old(discarding) && 0 < |line| <= max then old(lines) + [line] else old(lines)
      ensures reports == if !old(discarding) && |line| > max then old(reports) + 1 else old(reports)
    {
      hide Tallied;
      if discarding {
        discarding := false;
      } else if |line| > max {
        Report(|line|);
      } else if |line| > 0 {
        Deliver(line);
      }
    }

    /** Feeds one chunk; afterwards everything pushed so far has been split, whatever the cuts. */
    method Push(chunk: Bytes)
      requires Valid()
      modifies this`buf, this`discarding, this`emitted, this`overflows, this`text, this`lines, this`reports
      ensures Valid() && text == old(text) + chunk
      ensures old(lines) <= lines && old(overflows) <= overflows
    {
      hide Midway, Splits, ReadLines, Residual, Tallied;
      StartPush(text, max, lines, reports, buf, discarding, chunk);
      ghost var taken, held := ReadLines(text), if discarding then Residual(text) else [];
      buf, text := buf + chunk, text + chunk;
      while FirstLF(buf) != -1
        invariant text == old(text) + chunk && old(lines) <= lines && old(overflows) <= overflows && Tallied()
        invariant Midway(text, max, taken, held, buf, discarding, lines, reports)
        decreases |buf|
      {
        var nl := FirstLF(buf);
        TakeLine(text, max, taken, held, buf, discarding, lines, reports, nl);
        taken, held := taken + [held + buf[..nl]], [];
        var line := buf[..nl];
        buf := buf[nl + 1..];
        Complete(line);
      }
      EndPush(text, max, taken, held, buf, discarding, lines, reports);
      if discarding {
        buf := [];
      } else if |buf| > max {
        Report(|buf|);
        buf, discarding := [], true;
      }
    }

    /** Forgets the incomplete line: the stream starts over. */
    method Reset()
      requires Valid()
      modifies this`buf, this`discarding, this`text, this`lines, this`reports, this`emittedBefore, this`reportsBefore
      ensures Valid() && text == [] && emittedBefore == emitted && reportsBefore == |overflows| && buf == []
    {
      buf, discarding := [], false;
      text, lines, reports, emittedBefore, reportsBefore := [], [], 0, emitted, |overflows|;
    }
  }

  // ---- the agent's splitter ------------------------------------------------------------------

  class AgentSplitter {
    var buf: Bytes
    var discarding: bool
    var droppedOverlongLines: nat
    ghost var text: Bytes
    ghost var emitted: seq<Bytes>

    ghost predicate Valid()
      reads this
    {
      Splits(text, MAX_LINE_BYTES, emitted, droppedOverlongLines, buf, discarding) && |buf| <= MAX_LINE_BYTES
    }

    constructor ()
      ensures Valid() && text == [] && emitted == []
    {
      buf, discarding, droppedOverlongLines, text, emitted := [], false, 0, [], [];
    }

    /** Feeds one chunk and returns the lines it completed. */
    method Push(chunk: Bytes) returns (lines: seq<Bytes>)
      requires Valid()
      modifies this
      ensures Valid() && text == old(text) + chunk && emitted == old(emitted) + lines
    {
      hide Midway, Splits, ReadLines, Residual;
      StartPush(text, MAX_LINE_BYTES, emitted, droppedOverlongLines, buf, discarding, chunk);
      ghost var taken, held := ReadLines(text), if discarding then Residual(text) else [];
      buf, text := buf + chunk, text + chunk;
      lines := [];
      while FirstLF(buf) != -1
        invariant text == old(text) + chunk && emitted == old(emitted) + lines
        invariant Midway(text, MAX_LINE_BYTES, taken, held, buf, discarding, emitted, droppedOverlongLines)
        decreases |buf|
      {
        var nl := FirstLF(buf);
        TakeLine(text, MAX_LINE_BYTES, taken, held, buf, discarding, emitted, droppedOverlongLines, nl);
        taken, held := taken + [held + buf[..nl]], [];
        var line := buf[..nl];
        buf := buf[nl + 1..];
        if discarding {
          discarding := false;
        } else if |line| > MAX_LINE_BYTES {
          droppedOverlongLines := droppedOverlongLines + 1;
        } else if line != [] {
          lines, emitted := lines + [line], emitted + [line];
        }
      }
      EndPush(text, MAX_LINE_BYTES, taken, held, buf, discarding, emitted, droppedOverlongLines);
      if discarding {
        buf := [];
      } else if |buf| > MAX_LINE_BYTES {
        droppedOverlongLines := droppedOverlongLines + 1;
        buf, discarding := [], true;
      }
    }
  }

  // ---- any two cuttings, either splitter -----------------------------------------------------

  method HostLines(cuts: seq<Bytes>, max: nat)
    returns (lines: seq<Bytes>, overflows: nat, buffered: Bytes, discarding: bool)
    ensures Splits(Flatten(cuts), max, lines, overflows, buffered, discarding)
  {
    var s := new HostSplitter(max);
    for i := 0 to |cuts|
      invariant fresh(s) && s.Valid() && s.max == max && s.text == Flatten(cuts[..i])
      invariant s.emittedBefore == [] && s.reportsBefore == 0
    {
      assert cuts[..i + 1][..i] == cuts[..i];
      s.Push(cuts[i]);
    }
    assert cuts[..|cuts|] == cuts;
    lines, overflows, buffered, discarding := s.emitted, |s.overflows|, s.buf, s.discarding;
  }

  method AgentLines(cuts: seq<Bytes>) returns (lines: seq<Bytes>, dropped: nat, buffered: Bytes, discarding: bool)
    ensures Splits(Flatten(cuts), MAX_LINE_BYTES, lines, dropped, buffered, discarding)
  {
    var s := new AgentSplitter();
    lines := [];
    for i := 0 to |cuts|
      invariant fresh(s) && s.Valid() && s.text == Flatten(cuts[..i]) && s.emitted == lines
    {
      assert cuts[..i + 1][..i] == cuts[..i];
      var more := s.Push(cuts[i]);
      lines := lines + more;
    }
    assert cuts[..|cuts|] == cuts;
    dropped, buffered, discarding := s.droppedOverlongLines, s.buf, s.discarding;
  }

  /** The same stream, cut differently, gives both sides the same lines, reports and leftovers. */
  method SplittersAgree(hostCuts: seq<Bytes>, agentCuts: seq<Bytes>)
    returns (hostLines: seq<Bytes>, agentLines: seq<Bytes>, hostOverflows: nat, agentOverflows: nat)
    requires Flatten(hostCuts) == Flatten(agentCuts)
    ensures hostLines == agentLines && hostOverflows == agentOverflows
    ensures hostLines == Kept(ReadLines(Flatten(hostCuts)), MAX_LINE_BYTES)
  {
    var b0, b1, d0, d1;
    hostLines, hostOverflows, b0, d0 := HostLines(hostCuts, MAX_LINE_BYTES);
    agentLines, agentOverflows, b1, d1 := AgentLines(agentCuts);
    assert b0 == b1 && d0 == d1;
  }

  lemma {:induction false} NothingDropped(lines: seq<Bytes>, max: nat)
    requires forall i :: 0 <= i < |lines| ==> 0 < |lines[i]| <= max
    ensures Kept(lines, max) == lines && Overlong(lines, max) == 0
  {
    if lines != [] {
      NothingDropped(lines[..|lines| - 1], max);
    }
  }

  /** Lines that were written one after another, each within the cap, all arrive and nothing else. */
  lemma WrittenLinesArrive(
      lines: seq<Bytes>, max: nat, emitted: seq<Bytes>, overflows: nat, buf: Bytes, discarding: bool)
    requires AllPlain(lines) && forall i :: 0 <= i < |lines| ==> 0 < |lines[i]| <= max
    requires Splits(FileText(lines), max, emitted, overflows, buf, discarding)
    ensures emitted == lines && overflows == 0 && buf == [] && !discarding
  {
    TextSplitsBack(lines, []);
    assert FileText(lines) + [] == FileText(lines);
    NothingDropped(lines, max);
  }
}
