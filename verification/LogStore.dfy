/** The append-only sealed log: sealing, reading back, opening, compacting. */
module LogStore {
  import opened Domain
  import opened Records
  import opened EventLog

  // ---- what the store writes -----------------------------------------------------------------

  function AadSeq(anchorSeq: int, lineIndex: int): int {
    if lineIndex == 0 then ANCHOR_AAD_SEQ else anchorSeq + lineIndex
  }

  /** The record at `lineIndex` of the generation that starts at `anchorSeq`. */
  function Seal(nonce: nat, lineIndex: int, anchorSeq: int, at: int, prev: Hash, body: Body): Line {
    Sealed(nonce, Aad(lineIndex, AadSeq(anchorSeq, lineIndex), KindOf(body)),
           Payload(anchorSeq + lineIndex, at, KindOf(body), prev, body))
  }

  /** Every line was sealed by the store, for its own place, on top of the lines below it. */
  ghost predicate SealedInOrder(lines: seq<Line>, anchorSeq: int) {
    lines == []
    || (var init, l := lines[..|lines| - 1], lines[|lines| - 1];
        && SealedInOrder(init, anchorSeq)
        && l.Sealed?
        && l == Seal(l.nonce, |init|, anchorSeq, l.payload.at, ChainTip(init), l.payload.body))
  }

  /** A whole generation: an anchor checkpoint, then anything. */
  ghost predicate Generation(lines: seq<Line>, anchorSeq: int) {
    lines != [] && SealedInOrder(lines, anchorSeq) && lines[0].Sealed? && lines[0].payload.body.Mark?
  }

  function EventOf(l: Line): StoreEvent {
    if l.Sealed? then StoreEvent(l.payload.seqNo, l.payload.at, l.payload.body)
    else StoreEvent(0, 0, Mark(0, 0))
  }

  function EventsOf(lines: seq<Line>): (events: seq<StoreEvent>)
    ensures |events| == |lines|
  {
    seq(|lines|, i requires 0 <= i < |lines| => EventOf(lines[i]))
  }

  lemma EventsOfAppend(lines: seq<Line>, l: Line)
    ensures EventsOf(lines + [l]) == EventsOf(lines) + [EventOf(l)]
  {
  }

  // ---- what the reader accepts ---------------------------------------------------------------

  /** The reader refuses a tab event whose tag is empty. */
  predicate Readable(b: Body) {
    (b.CreateTab? || b.DeleteTab?) ==> b.tag != ""
  }

  predicate AllReadable(events: seq<StoreEvent>) {
    forall i :: 0 <= i < |events| ==> Readable(events[i].body)
  }

  function ToStoreEvent(p: Payload): Result<StoreEvent> {
    if p.kind != KindOf(p.body) || !Readable(p.body) then Err(StoreCorrupt)
    else Ok(StoreEvent(p.seqNo, p.at, p.body))
  }

  /** One line as readAll checks it: authenticity, kind, number, chain link, shape. */
  function ReadLine(line: Line, lineIndex: int, anchorSeq: int, tip: Hash): Result<StoreEvent> {
    match OpenedAnyKind(line, lineIndex, AadSeq(anchorSeq, lineIndex))
    case Err(e) => Err(e)
    case Ok(found) =>
      if found.payload.kind != found.kind then Err(StoreCorrupt)
      else if found.payload.seqNo != anchorSeq + lineIndex then Err(StoreCorrupt)
      else if found.payload.prev != tip then Err(ChainBroken)
      else ToStoreEvent(found.payload)
  }

  /** What readAll yields: some events, then possibly one error, after which it stops. */
  datatype Reading = Reading(events: seq<StoreEvent>, failure: Option<ErrorCode>)

  function Read(lines: seq<Line>, anchorSeq: int): Reading {
    if lines == [] then Reading([], None)
    else
      var init := lines[..|lines| - 1];
      var below := Read(init, anchorSeq);
      if below.failure.Some? then below
      else match ReadLine(lines[|lines| - 1], |init|, anchorSeq, ChainTip(init))
           case Ok(e) => Reading(below.events + [e], None)
           case Err(e) => Reading(below.events, Some(e))
  }

  method ReadAll(lines: seq<Line>, anchorSeq: int) returns (r: Reading)
    ensures r == Read(lines, anchorSeq)
  {
    var events: seq<StoreEvent> := [];
    var expected := Genesis;
    for i := 0 to |lines|
      invariant Read(lines[..i], anchorSeq) == Reading(events, None)
      invariant expected == ChainTip(lines[..i])
    {
      assert lines[..i + 1][..i] == lines[..i];
      var line := lines[i];
      var found := OpenRecordAnyKind(line, i, if i == 0 then ANCHOR_AAD_SEQ else anchorSeq + i);
      var failure := None;
      if found.Err? {
        failure := Some(found.error);
      } else if found.value.payload.kind != found.value.kind {
        failure := Some(StoreCorrupt);
      } else if found.value.payload.seqNo != anchorSeq + i {
        failure := Some(StoreCorrupt);
      } else if found.value.payload.prev != expected {
        failure := Some(ChainBroken);
      } else {
        expected := Next(expected, line);
        var event := ToStoreEvent(found.value.payload);
        if event.Ok? {
          events := events + [event.value];
        } else {
          failure := Some(event.error);
        }
      }
      if failure.Some? {
        ReadStopsAtFailure(lines, i + 1, anchorSeq);
        return Reading(events, failure);
      }
    }
    assert lines[..|lines|] == lines;
    return Reading(events, None);
  }

  lemma {:induction false} ReadStopsAtFailure(lines: seq<Line>, n: nat, anchorSeq: int)
    requires n <= |lines| && Read(lines[..n], anchorSeq).failure.Some?
    ensures Read(lines, anchorSeq) == Read(lines[..n], anchorSeq)
  {
    if n == |lines| {
      assert lines[..n] == lines;
    } else {
      assert lines[..|lines| - 1][..n] == lines[..n];
      ReadStopsAtFailure(lines[..|lines| - 1], n, anchorSeq);
    }
  }

  lemma AllReadableAppend(lines: seq<Line>, l: Line)
    ensures AllReadable(EventsOf(lines + [l])) <==> AllReadable(EventsOf(lines)) && Readable(EventOf(l).body)
  {
    EventsOfAppend(lines, l);
    var events := EventsOf(lines + [l]);
    assert events[|lines|] == EventOf(l) && forall i :: 0 <= i < |lines| ==> events[i] == EventsOf(lines)[i];
  }

  /** The store's own lines read back, all of them, unless an empty tag was ever appended. */
  lemma {:induction false} SealedLinesReadBack(lines: seq<Line>, anchorSeq: int)
    requires SealedInOrder(lines, anchorSeq)
    ensures Read(lines, anchorSeq).failure.None? <==> AllReadable(EventsOf(lines))
    ensures AllReadable(EventsOf(lines)) ==> Read(lines, anchorSeq).events == EventsOf(lines)
    ensures forall i :: 0 <= i < |lines| ==> EventsOf(lines)[i].seqNo == anchorSeq + i
  {
    ReadAcceptsExactly(lines, anchorSeq);
    SealedNumbers(lines, anchorSeq);
    hide SealedInOrder, AllReadable, EventsOf;
    if Read(lines, anchorSeq).failure.None? {
      ReadsItsEvents(lines, anchorSeq);
    }
  }

  lemma {:induction false} SealedNumbers(lines: seq<Line>, anchorSeq: int)
    requires SealedInOrder(lines, anchorSeq)
    ensures forall i :: 0 <= i < |lines| ==> EventsOf(lines)[i].seqNo == anchorSeq + i
  {
    if lines != [] {
      var init, l := lines[..|lines| - 1], lines[|lines| - 1];
      SealedNumbers(init, anchorSeq);
      assert l.payload.seqNo == anchorSeq + |init|;
      assert lines == init + [l];
      EventsOfAppend(init, l);
      hide SealedInOrder;
    }
  }

  lemma {:induction false} ReadsItsEvents(lines: seq<Line>, anchorSeq: int)
    requires Read(lines, anchorSeq).failure.None?
    ensures Read(lines, anchorSeq).events == EventsOf(lines)
  {
    if lines != [] {
      hide EventsOf, ReadLine;
      var init, l := lines[..|lines| - 1], lines[|lines| - 1];
      ReadsItsEvents(init, anchorSeq);
      assert lines == init + [l];
      EventsOfAppend(init, l);
      LineAcceptedExactly(l, |init|, anchorSeq, ChainTip(init));
    } else {
      assert EventsOf(lines) == [];
    }
  }

  /** What the reader accepts is exactly what the store would have sealed, and can read. */
  lemma {:induction false} ReadAcceptsExactly(lines: seq<Line>, anchorSeq: int)
    ensures Read(lines, anchorSeq).failure.None? <==> SealedInOrder(lines, anchorSeq) && AllReadable(EventsOf(lines))
  {
    if lines != [] {
      hide AllReadable, EventsOf, Readable;
      var init, l := lines[..|lines| - 1], lines[|lines| - 1];
      ReadAcceptsExactly(init, anchorSeq);
      assert lines == init + [l];
      AllReadableAppend(init, l);
      LineAcceptedExactly(l, |init|, anchorSeq, ChainTip(init));
    } else {
      assert EventsOf(lines) == [];
    }
  }

  lemma LineAcceptedExactly(l: Line, lineIndex: int, anchorSeq: int, tip: Hash)
    ensures ReadLine(l, lineIndex, anchorSeq, tip).Ok? <==>
              && l.Sealed? && l == Seal(l.nonce, lineIndex, anchorSeq, l.payload.at, tip, l.payload.body)
              && Readable(l.payload.body)
    ensures ReadLine(l, lineIndex, anchorSeq, tip).Ok? ==> ReadLine(l, lineIndex, anchorSeq, tip).value == EventOf(l)
  {
  }

  // ---- the in-memory counters ----------------------------------------------------------------

  datatype StoreState = StoreState(log: seq<Line>, anchorSeq: int, lineCount: int, tipHash: Hash)

  /** The counters describe the file. */
  ghost predicate Consistent(s: StoreState) {
    && Generation(s.log, s.anchorSeq)
    && s.lineCount == |s.log|
    && s.tipHash == ChainTip(s.log)
  }

  function MaxSeq(s: StoreState): int {
    s.anchorSeq + s.lineCount - 1
  }

  function SealNext(s: StoreState, body: Body, at: int, nonce: nat): Line {
    Seal(nonce, s.lineCount, s.anchorSeq, at, s.tipHash, body)
  }

  function Appended(s: StoreState, line: Line): StoreState {
    s.(log := s.log + [line], lineCount := s.lineCount + 1, tipHash := Next(s.tipHash, line))
  }

  /** Opening a file that has at least one complete line. */
  function Reopened(lines: seq<Line>): Result<StoreState>
    requires lines != []
  {
    match OpenRecord(lines[0], Aad(0, ANCHOR_AAD_SEQ, Checkpoint))
    case Err(e) => Err(e)
    case Ok(payload) =>
      if payload.kind != Checkpoint then Err(StoreCorrupt)
      else Ok(StoreState(lines, payload.seqNo, |lines|, ChainTip(lines)))
  }

  /** A brand new log: the anchor checkpoint of generation 1. */
  function FirstGeneration(at: int, nonce: nat): StoreState {
    Appended(StoreState([], 1, 0, Genesis), Seal(nonce, 0, 1, at, Genesis, Mark(0, 0)))
  }

  lemma FirstGenerationConsistent(at: int, nonce: nat)
    ensures Consistent(FirstGeneration(at, nonce))
    ensures EventsOf(FirstGeneration(at, nonce).log) == [StoreEvent(1, at, Mark(0, 0))]
  {
    var l := Seal(nonce, 0, 1, at, Genesis, Mark(0, 0));
    var log := FirstGeneration(at, nonce).log;
    assert log == [l] && log[..0] == [];
    assert SealedInOrder([], 1) && ChainTip([]) == Genesis;
  }

  lemma {:induction false} AnchorNamesTheGeneration(lines: seq<Line>, anchorSeq: int)
    requires lines != [] && SealedInOrder(lines, anchorSeq)
    ensures lines[0].Sealed? && lines[0].payload.seqNo == anchorSeq
    ensures lines[0].aad == Aad(0, ANCHOR_AAD_SEQ, KindOf(lines[0].payload.body))
    ensures lines[0].payload.kind == KindOf(lines[0].payload.body)
  {
    var init := lines[..|lines| - 1];
    if init != [] {
      AnchorNamesTheGeneration(init, anchorSeq);
      assert init[0] == lines[0];
    }
  }

  /** Quit and relaunch: the counters are rebuilt exactly. */
  lemma ReopenRestoresCounters(s: StoreState)
    requires Consistent(s)
    ensures Reopened(s.log) == Ok(s)
  {
    AnchorNamesTheGeneration(s.log, s.anchorSeq);
  }

  lemma AppendKeepsConsistent(s: StoreState, body: Body, at: int, nonce: nat)
    requires Consistent(s)
    ensures var line := SealNext(s, body, at, nonce);
            && Consistent(Appended(s, line))
            && EventsOf(Appended(s, line).log) == EventsOf(s.log) + [StoreEvent(MaxSeq(s) + 1, at, body)]
  {
    var line := SealNext(s, body, at, nonce);
    var log := s.log + [line];
    assert log[..|log| - 1] == s.log;
    EventsOfAppend(s.log, line);
  }

  /** An input that shows it: a log that reads back, and the same log after an empty tag was appended. */
  lemma EmptyTagBreaksTheLog(s: StoreState, at: int, nonce: nat)
    requires Consistent(s) && AllReadable(EventsOf(s.log))
    ensures Read(s.log, s.anchorSeq) == Reading(EventsOf(s.log), None)
    ensures var broken := Appended(s, SealNext(s, CreateTab(""), at, nonce));
            && Consistent(broken) && Reopened(broken.log) == Ok(broken)
            && Read(broken.log, broken.anchorSeq) == Reading(EventsOf(s.log), Some(StoreCorrupt))
  {
    SealedLinesReadBack(s.log, s.anchorSeq);
    var line := SealNext(s, CreateTab(""), at, nonce);
    AppendKeepsConsistent(s, CreateTab(""), at, nonce);
    ReopenRestoresCounters(Appended(s, line));
    assert (s.log + [line])[..|s.log|] == s.log;
  }

  // ---- a stale memory ------------------------------------------------------------------------

  /**
   * How a compaction ends: with an error before the rename; with an error after it, when the
   * directory cannot be synced and the counters are left as they were; or with the new counters.
   */
  datatype CompactFate = Errs | RenamesUnsynced | Switches

  /** The first number of whatever generation the file holds. */
  function FirstSeq(lines: seq<Line>): int {
    if lines != [] && lines[0].Sealed? then lines[0].payload.seqNo else 0
  }

  lemma {:induction false} SealedPrefix(lines: seq<Line>, anchorSeq: int, n: nat)
    requires SealedInOrder(lines, anchorSeq) && n <= |lines|
    ensures SealedInOrder(lines[..n], anchorSeq)
  {
    if n == |lines| {
      assert lines[..n] == lines;
    } else {
      assert lines[..|lines| - 1][..n] == lines[..n];
      SealedPrefix(lines[..|lines| - 1], anchorSeq, n);
    }
  }

  /** The file has one line more than the counters know of: its append landed, but reported an error. */
  ghost predicate OneAhead(s: StoreState, lines: seq<Line>) {
    && Consistent(s) && Generation(lines, s.anchorSeq)
    && |lines| == |s.log| + 1 && lines[..|s.log|] == s.log
  }

  /**
   * An append wrote its line and then reported an error, so the counters did not move. The file has
   * one event more than the callers know of, reads back, and a relaunch takes the event over.
   */
  lemma UnreportedAppend(s: StoreState, body: Body, at: int, nonce: nat)
    requires Consistent(s)
    ensures var line := SealNext(s, body, at, nonce);
            && OneAhead(s, s.log + [line])
            && Reopened(s.log + [line]) == Ok(Appended(s, line)) && Consistent(Appended(s, line))
            && (Read(s.log + [line], s.anchorSeq).failure.None? <==>
                  AllReadable(EventsOf(s.log) + [StoreEvent(MaxSeq(s) + 1, at, body)]))
  {
    var line := SealNext(s, body, at, nonce);
    AppendKeepsConsistent(s, body, at, nonce);
    ReopenRestoresCounters(Appended(s, line));
    SealedLinesReadBack(s.log + [line], s.anchorSeq);
  }

  /** The next append takes the same place in the chain: no reader and no compaction gets past it. */
  lemma AppendAfterUnreported(s: StoreState, lines: seq<Line>, body: Body, at: int, nonce: nat)
    requires OneAhead(s, lines)
    ensures var all := lines + [SealNext(s, body, at, nonce)];
            && !SealedInOrder(all, s.anchorSeq) && Fold(all, s.anchorSeq).Err?
            && Read(all, s.anchorSeq).failure.Some?
  {
    var all := lines + [SealNext(s, body, at, nonce)];
    assert all[..|all| - 1] == lines && all[|lines|].aad.lineIndex == |s.log|;
    ReadAcceptsExactly(all, s.anchorSeq);
    if Fold(all, s.anchorSeq).Ok? {
      FoldChecksTheChain(all, s.anchorSeq, |lines|);
    }
  }

  /** Memory and file are a generation apart: the file cannot be read. */
  lemma StaleReadFails(s: StoreState, lines: seq<Line>)
    requires Consistent(s) && Generation(lines, MaxSeq(s) + 1)
    ensures Read(lines, s.anchorSeq).failure.Some?
  {
    AnchorNamesTheGeneration(lines, MaxSeq(s) + 1);
    ReadAcceptsExactly(lines, s.anchorSeq);
    if SealedInOrder(lines, s.anchorSeq) {
      AnchorNamesTheGeneration(lines, s.anchorSeq);
    }
  }

  /** A record sealed from stale counters fits neither of the two generations. */
  lemma StaleAppendFitsNowhere(s: StoreState, lines: seq<Line>, body: Body, at: int, nonce: nat)
    requires Consistent(s) && Generation(lines, MaxSeq(s) + 1)
    ensures var all := lines + [SealNext(s, body, at, nonce)];
            && !SealedInOrder(all, MaxSeq(s) + 1)
            && Fold(all, MaxSeq(s) + 1).Err? && Fold(all, s.anchorSeq).Err?
  {
    var line := SealNext(s, body, at, nonce);
    var all := lines + [line];
    assert all[..|lines|] == lines && all[|lines|] == line;
    if |lines| > 1 {
      StaleFoldFails(s, lines);
      FoldStopsAtFailure(all, |lines|, s.anchorSeq);
    } else {
      StaleAppendOnAnchor(s, lines, body, at, nonce);
    }
  }

  /** Compaction does not get past the first record of a generation that memory does not know. */
  lemma StaleFoldFails(s: StoreState, lines: seq<Line>)
    requires Consistent(s) && Generation(lines, MaxSeq(s) + 1) && |lines| > 1
    ensures Fold(lines, s.anchorSeq).Err?
  {
    SealedPrefix(lines, MaxSeq(s) + 1, 2);
    var two := lines[..2];
    assert two[..1] == [two[0]];
    FoldStopsAtFailure(lines, 2, s.anchorSeq);
  }

  lemma StaleAppendOnAnchor(s: StoreState, lines: seq<Line>, body: Body, at: int, nonce: nat)
    requires Consistent(s) && Generation(lines, MaxSeq(s) + 1) && |lines| == 1
    ensures Fold(lines + [SealNext(s, body, at, nonce)], s.anchorSeq).Err?
  {
    var all := lines + [SealNext(s, body, at, nonce)];
    assert all[..1] == lines && lines[..0] == [];
    AnchorNamesTheGeneration(lines, MaxSeq(s) + 1);
    AnchorNamesTheGeneration(s.log, s.anchorSeq);
    if s.tipHash == ChainTip(lines) {
      ChainTipInjective(s.log, lines);
    }
  }

  // ---- a compacted generation ----------------------------------------------------------------

  datatype Stamp = Stamp(at: int, nonce: nat)

  function SealAll(bodies: seq<Body>, anchorSeq: int, stamps: nat -> Stamp): (lines: seq<Line>)
    ensures |lines| == |bodies|
  {
    if bodies == [] then []
    else
      var init := SealAll(bodies[..|bodies| - 1], anchorSeq, stamps);
      var stamp := stamps(|init|);
      init + [Seal(stamp.nonce, |init|, anchorSeq, stamp.at, ChainTip(init), bodies[|bodies| - 1])]
  }

  lemma {:induction false} SealAllInOrder(bodies: seq<Body>, anchorSeq: int, stamps: nat -> Stamp)
    ensures SealedInOrder(SealAll(bodies, anchorSeq, stamps), anchorSeq)
    ensures Numbered(EventsOf(SealAll(bodies, anchorSeq, stamps)), bodies, anchorSeq)
  {
    if bodies != [] {
      var init := bodies[..|bodies| - 1];
      SealAllInOrder(init, anchorSeq, stamps);
      var lines := SealAll(bodies, anchorSeq, stamps);
      assert lines[..|lines| - 1] == SealAll(init, anchorSeq, stamps);
      EventsOfAppend(lines[..|lines| - 1], lines[|lines| - 1]);
      assert lines == lines[..|lines| - 1] + [lines[|lines| - 1]];
    }
  }

  lemma SealAllAppend(bodies: seq<Body>, body: Body, anchorSeq: int, stamps: nat -> Stamp)
    ensures var init := SealAll(bodies, anchorSeq, stamps);
            SealAll(bodies + [body], anchorSeq, stamps)
            == init + [Seal(stamps(|init|).nonce, |init|, anchorSeq, stamps(|init|).at, ChainTip(init), body)]
  {
    assert (bodies + [body])[..|bodies|] == bodies;
  }

  /** One line as compaction checks it: it trusts the kind and the number it authenticated. */
  function FoldLine(line: Line, lineIndex: int, anchorSeq: int, tip: Hash): Result<StoreEvent> {
    match OpenedAnyKind(line, lineIndex, AadSeq(anchorSeq, lineIndex))
    case Err(e) => Err(e)
    case Ok(found) => if found.payload.prev != tip then Err(ChainBroken) else ToStoreEvent(found.payload)
  }

  function Fold(lines: seq<Line>, anchorSeq: int): Result<Live> {
    if lines == [] then Ok(NOTHING_LIVE)
    else
      var init := lines[..|lines| - 1];
      match Fold(init, anchorSeq)
      case Err(e) => Err(e)
      case Ok(live) =>
        match FoldLine(lines[|lines| - 1], |init|, anchorSeq, ChainTip(init))
        case Err(e) => Err(e)
        case Ok(event) => Ok(Absorb(live, event))
  }

  lemma {:induction false} FoldStopsAtFailure(lines: seq<Line>, n: nat, anchorSeq: int)
    requires n <= |lines| && Fold(lines[..n], anchorSeq).Err?
    ensures Fold(lines, anchorSeq) == Fold(lines[..n], anchorSeq)
  {
    if n == |lines| {
      assert lines[..n] == lines;
    } else {
      assert lines[..|lines| - 1][..n] == lines[..n];
      FoldStopsAtFailure(lines[..|lines| - 1], n, anchorSeq);
    }
  }

  lemma {:induction false} FoldOfSealedLines(lines: seq<Line>, anchorSeq: int)
    requires SealedInOrder(lines, anchorSeq)
    ensures Fold(lines, anchorSeq)
         == if AllReadable(EventsOf(lines)) then Ok(Collapse(EventsOf(lines))) else Err(StoreCorrupt)
  {
    if lines != [] {
      var init, l := lines[..|lines| - 1], lines[|lines| - 1];
      FoldOfSealedLines(init, anchorSeq);
      assert lines == init + [l];
      EventsOfAppend(init, l);
      var events := EventsOf(lines);
      assert events[..|init|] == EventsOf(init) && events[|init|] == EventOf(l);
    }
  }

  /** Whatever folds without error folds to the live state of its own events. */
  lemma {:induction false} FoldIsCollapse(lines: seq<Line>, anchorSeq: int)
    requires Fold(lines, anchorSeq).Ok?
    ensures Fold(lines, anchorSeq).value == Collapse(EventsOf(lines))
  {
    if lines != [] {
      var init, l := lines[..|lines| - 1], lines[|lines| - 1];
      FoldIsCollapse(init, anchorSeq);
      assert lines == init + [l];
      EventsOfAppend(init, l);
      var events := EventsOf(lines);
      assert events[..|init|] == EventsOf(init) && events[|init|] == EventOf(l);
    }
  }

  /** Compaction never launders a spliced log: what it folds is linked line by line. */
  lemma {:induction false} FoldChecksTheChain(lines: seq<Line>, anchorSeq: int, i: nat)
    requires Fold(lines, anchorSeq).Ok? && i < |lines|
    ensures lines[i].Sealed? && lines[i].payload.prev == ChainTip(lines[..i])
    ensures lines[i].aad.lineIndex == i
  {
    if i < |lines| - 1 {
      FoldChecksTheChain(lines[..|lines| - 1], anchorSeq, i);
      assert lines[..|lines| - 1][..i] == lines[..i];
    }
  }

  /** Replays a log to the items and tabs that compaction will carry over. */
  method FoldLines(lines: seq<Line>, anchorSeq: int) returns (r: Result<Live>)
    ensures r == Fold(lines, anchorSeq)
  {
    var live := NOTHING_LIVE;
    var expected := Genesis;
    for i := 0 to |lines|
      invariant Fold(lines[..i], anchorSeq) == Ok(live)
      invariant expected == ChainTip(lines[..i])
    {
      assert lines[..i + 1][..i] == lines[..i];
      var found := OpenRecordAnyKind(lines[i], i, if i == 0 then ANCHOR_AAD_SEQ else anchorSeq + i);
      var event := Err(StoreDecrypt);
      if found.Ok? {
        event := if found.value.payload.prev != expected then Err(ChainBroken) else ToStoreEvent(found.value.payload);
      }
      if event.Err? {
        FoldStopsAtFailure(lines, i + 1, anchorSeq);
        return Err(event.error);
      }
      expected := Next(expected, lines[i]);
      live := Absorb(live, event.value);
    }
    assert lines[..|lines|] == lines;
    return Ok(live);
  }
}
