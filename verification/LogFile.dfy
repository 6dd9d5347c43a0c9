/**
 * The log as bytes on disk. Each line is followed by LF, which is its commit marker; what follows
 * the last LF never became durable and is cut off when the store opens.
 */
module LogFile {
  import opened Domain

  const LF: Byte := 0x0a

  ghost predicate NoLF(s: Bytes) {
    LF !in s
  }

  /** What appending these lines one after another leaves in the file. */
  function FileText(lines: seq<Bytes>): Bytes {
    if lines == [] then [] else FileText(lines[..|lines| - 1]) + lines[|lines| - 1] + [LF]
  }

  /** How many bytes survive the torn-line repair: everything up to and including the last LF. */
  function CommittedLength(raw: Bytes): (n: nat)
    ensures n <= |raw|
    ensures n == 0 || raw[n - 1] == LF
    ensures NoLF(raw[n..])
  {
    if raw == [] then 0
    else if raw[|raw| - 1] == LF then |raw|
    else
      var n := CommittedLength(raw[..|raw| - 1]);
      assert raw[n..] == raw[..|raw| - 1][n..] + [raw[|raw| - 1]];
      n
  }

  function Repaired(raw: Bytes): Bytes {
    raw[..CommittedLength(raw)]
  }

  /** Repairs the file as opening the store does: truncate only when the last byte is not LF. */
  method RepairTornLine(raw: Bytes) returns (repaired: Bytes, torn: bool)
    ensures repaired == Repaired(raw)
    ensures torn <==> CommittedLength(raw) < |raw|
  {
    repaired, torn := raw, false;
    if |raw| > 0 && raw[|raw| - 1] != LF {
      var cut := |raw| - 1;
      while cut >= 0 && raw[cut] != LF
        invariant -1 <= cut < |raw|
        invariant CommittedLength(raw[..cut + 1]) == CommittedLength(raw)
      {
        assert raw[..cut + 1][..cut] == raw[..cut];
        cut := cut - 1;
      }
      repaired, torn := raw[..cut + 1], true;
    }
  }

  /** The file split at LF; the empty piece after the final terminator is dropped. */
  function ReadLines(text: Bytes): seq<Bytes>
  {
    if text == [] then [] else SplitAtLF(text)[..|SplitAtLF(text)| - 1]
  }

  /** Extends the piece still being read. */
  function Extend(pieces: seq<Bytes>, more: Bytes): seq<Bytes>
    requires |pieces| > 0
  {
    pieces[..|pieces| - 1] + [pieces[|pieces| - 1] + more]
  }

  function SplitAtLF(text: Bytes): (pieces: seq<Bytes>)
    ensures |pieces| > 0
  {
    if text == [] then [[]]
    else
      var before := SplitAtLF(text[..|text| - 1]);
      var c := text[|text| - 1];
      if c == LF then before + [[]] else Extend(before, [c])
  }

  lemma ExtendTwice(pieces: seq<Bytes>, a: Bytes, b: Bytes)
    requires |pieces| > 0
    ensures Extend(Extend(pieces, a), b) == Extend(pieces, a + b)
  {
    assert pieces[|pieces| - 1] + a + b == pieces[|pieces| - 1] + (a + b);
  }

  lemma {:induction false} SplitAppendPlain(text: Bytes, plain: Bytes)
    requires NoLF(plain)
    ensures SplitAtLF(text + plain) == Extend(SplitAtLF(text), plain)
  {
    var pieces := SplitAtLF(text);
    if plain == [] {
      assert text + plain == text;
      assert pieces[|pieces| - 1] + plain == pieces[|pieces| - 1];
    } else {
      var init, c := plain[..|plain| - 1], plain[|plain| - 1];
      SplitAppendPlain(text, init);
      SplitAppendByte(text + init, c);
      hide SplitAtLF, Extend, NoLF;
      ExtendTwice(pieces, init, [c]);
      assert plain == init + [c];
      assert text + plain == text + init + [c];
    }
  }

  lemma SplitAppendByte(text: Bytes, c: Byte)
    requires c != LF
    ensures SplitAtLF(text + [c]) == Extend(SplitAtLF(text), [c])
  {
    assert (text + [c])[..|text|] == text;
  }

  lemma SplitAppendLF(text: Bytes)
    ensures SplitAtLF(text + [LF]) == SplitAtLF(text) + [[]]
  {
    assert (text + [LF])[..|text|] == text;
  }

  lemma {:induction false} SplitFileText(lines: seq<Bytes>)
    requires forall i :: 0 <= i < |lines| ==> NoLF(lines[i])
    ensures SplitAtLF(FileText(lines)) == lines + [[]]
  {
    if lines != [] {
      var init, line := lines[..|lines| - 1], lines[|lines| - 1];
      SplitFileText(init);
      SplitAppendPlain(FileText(init), line);
      SplitAppendLF(FileText(init) + line);
      hide SplitAtLF;
      assert (init + [[]])[..|init|] == init && [] + line == line;
      assert lines == init + [line];
    }
  }

  /** An undamaged file reads back as the lines that were appended to it. */
  lemma FileTextReadsBack(lines: seq<Bytes>)
    requires forall i :: 0 <= i < |lines| ==> NoLF(lines[i])
    ensures ReadLines(FileText(lines)) == lines
  {
    SplitFileText(lines);
    assert (lines + [[]])[..|lines|] == lines;
  }

  lemma {:induction false} RepairDropsTail(committed: Bytes, tail: Bytes)
    requires committed == [] || committed[|committed| - 1] == LF
    requires NoLF(tail)
    ensures Repaired(committed + tail) == committed
  {
    var raw := committed + tail;
    if tail == [] {
      assert raw == committed;
    } else {
      RepairDropsTail(committed, tail[..|tail| - 1]);
      assert raw[..|raw| - 1] == committed + tail[..|tail| - 1];
      assert tail[|tail| - 1] in tail;
    }
  }

  lemma FileTextAppend(lines: seq<Bytes>, line: Bytes)
    ensures FileText(lines + [line]) == FileText(lines) + (line + [LF])
  {
    assert (lines + [line])[..|lines|] == lines;
  }

  /** Opening a file whose committed lines are followed by a torn tail gives the committed lines. */
  lemma TornFileReadsBack(lines: seq<Bytes>, tail: Bytes)
    requires forall i :: 0 <= i < |lines| ==> NoLF(lines[i])
    requires NoLF(tail)
    ensures ReadLines(Repaired(FileText(lines) + tail)) == lines
  {
    RepairDropsTail(FileText(lines), tail);
    FileTextReadsBack(lines);
  }

  lemma NothingHasNoLF()
    ensures NoLF([])
  {
  }

  lemma LandedLineReadsBack(lines: seq<Bytes>, line: Bytes)
    requires forall i :: 0 <= i < |lines| ==> NoLF(lines[i])
    requires NoLF(line)
    ensures ReadLines(Repaired(FileText(lines) + (line + [LF]))) == lines + [line]
  {
    FileTextAppend(lines, line);
    hide FileText, NoLF, Repaired, ReadLines;
    var all := lines + [line];
    assert NoLF([]) by {
      NothingHasNoLF();
    }
    assert forall i :: 0 <= i < |all| ==> NoLF(all[i]);
    TornFileReadsBack(all, []);
    assert FileText(all) + [] == FileText(all);
  }

  /** The part of a terminated line that reached the file before the crash. */
  function Written(line: Bytes, cut: nat): Bytes
    requires cut <= |line| + 1
  {
    (line + [LF])[..cut]
  }

  lemma WrittenIsTornOrWhole(line: Bytes, cut: nat)
    requires NoLF(line)
    requires cut <= |line| + 1
    ensures if cut == |line| + 1 then Written(line, cut) == line + [LF] else NoLF(Written(line, cut))
  {
    if cut <= |line| {
      assert Written(line, cut) == line[..cut];
    }
  }

  /**
   * Crash during an append. However many bytes of the new line (with its terminator) reached the
   * file, repairing and re-reading gives the old lines, plus the new line exactly when its
   * terminator landed.
   */
  lemma CrashedAppendReadsBack(lines: seq<Bytes>, line: Bytes, cut: nat)
    requires forall i :: 0 <= i < |lines| ==> NoLF(lines[i])
    requires NoLF(line)
    requires cut <= |line| + 1
    ensures ReadLines(Repaired(FileText(lines) + Written(line, cut)))
         == if cut == |line| + 1 then lines + [line] else lines
  {
    WrittenIsTornOrWhole(line, cut);
    if cut == |line| + 1 {
      LandedLineReadsBack(lines, line);
    } else {
      TornFileReadsBack(lines, Written(line, cut));
    }
  }
}
