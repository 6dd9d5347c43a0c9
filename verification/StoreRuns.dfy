/**
 * Whole runs of the store: appends that land, fail, land unreported or crash, compactions that rename,
 * sync or do neither, relaunches, and an adversary who later presents any sequence of lines the store ever sealed.
 */
module StoreRuns {
  import opened Domain
  import opened Sorting
  import opened Records
  import opened EventLog
  import opened LogStore

  /**
   * How one append ends: as asked; with an error and nothing written; with an error although the line
   * was written; or in a crash, after which the store is reopened before anything else happens.
   */
  datatype AppendFate = Lands | Fails | LandsUnreported | CrashesTorn | CrashesLanded

  datatype Step =
    | Append(body: Body, at: int, nonce: nat, fate: AppendFate)
    | Compact(requested: set<ItemId>, tabOrder: seq<string>, stamps: nat -> Stamp, end: CompactFate)
    | Relaunch

  /** A line, and the lines that the store's counters stood for when it sealed it. */
  datatype Sealing = Sealing(below: seq<Line>, line: Line, anchorSeq: int)

  datatype Machine = Machine(
    disk: seq<Line>,             // the log file
    store: StoreState,           // the counters, and the lines they stand for
    committed: seq<StoreEvent>,  // what the log should say, kept without reading it
    returned: seq<int>,          // the seqs handed back to callers, in order
    sealings: set<Sealing>)      // every line ever sealed

  function NewMachine(at: int, nonce: nat): Machine {
    var s := FirstGeneration(at, nonce);
    Machine(s.log, s, [StoreEvent(1, at, Mark(0, 0))], [], {Sealing([], s.log[0], 1)})
  }

  function CompactionBodies(
      history: seq<StoreEvent>, requested: set<ItemId>, tabOrder: seq<string>, maxSeq: int): seq<Body>
    requires forall id :: id in Kept(Collapse(history).order, requested) ==> id in Collapse(history).rows
  {
    var c := Collapse(history);
    GenerationBodies(c, Kept(c.order, requested), tabOrder, maxSeq)
  }

  lemma KeptIdsHaveRows(history: seq<StoreEvent>, requested: set<ItemId>)
    ensures forall id :: id in Kept(Collapse(history).order, requested) ==> id in Collapse(history).rows
  {
    CollapseMatchesReplay(history);
  }

  /** The next generation, made of what the file says and numbered from the counters. */
  function CompactedLines(m: Machine, requested: set<ItemId>, tabOrder: seq<string>, stamps: nat -> Stamp): seq<Line> {
    KeptIdsHaveRows(EventsOf(m.disk), requested);
    SealAll(CompactionBodies(EventsOf(m.disk), requested, tabOrder, MaxSeq(m.store)), MaxSeq(m.store) + 1, stamps)
  }

  function SealingsOf(lines: seq<Line>, anchorSeq: int): set<Sealing> {
    set i | 0 <= i < |lines| :: Sealing(lines[..i], lines[i], anchorSeq)
  }

  function Do(m: Machine, step: Step): Machine {
    match step
    case Append(body, at, nonce, fate) =>
      var line := SealNext(m.store, body, at, nonce);
      var attempted := Attempted(m, line);
      (match fate
       case Lands => Landed(attempted, line).(returned := m.returned + [MaxSeq(m.store) + 1])
       case Fails => attempted
       case LandsUnreported => Landed(attempted, line).(store := m.store)
       case CrashesTorn => Reboot(attempted)
       case CrashesLanded => Reboot(Landed(attempted, line)))
    case Compact(requested, tabOrder, stamps, end) =>
      if !MayCompact(m, tabOrder) then m
      else
        var lines := CompactedLines(m, requested, tabOrder, stamps);
        var base := MaxSeq(m.store) + 1;
        var attempted := m.(sealings := m.sealings + SealingsOf(lines, base));
        (match end
         case Errs => attempted
         case RenamesUnsynced => attempted.(disk := lines, committed := EventsOf(lines))
         case Switches =>
           attempted.(disk := lines, store := StoreState(lines, base, |lines|, ChainTip(lines)),
                      committed := EventsOf(lines)))
    case Relaunch => Reboot(m)
  }

  function Attempted(m: Machine, line: Line): Machine {
    m.(sealings := m.sealings + {Sealing(m.store.log, line, m.store.anchorSeq)})
  }

  function Landed(m: Machine, line: Line): Machine {
    m.(disk := m.disk + [line], store := Appended(m.store, line), committed := m.committed + [EventOf(line)])
  }

  /**
   * The file folds without error, and the loop over the explicit tabs visits each of them once, in
   * some order.
   */
  predicate MayCompact(m: Machine, tabOrder: seq<string>) {
    && Fold(m.disk, m.store.anchorSeq).Ok?
    && Distinct(tabOrder)
    && (set t | t in tabOrder) == Fold(m.disk, m.store.anchorSeq).value.tabs
  }

  /** Memory is lost; the counters come from the file. */
  function Reboot(m: Machine): Machine {
    if m.disk == [] then m
    else match Reopened(m.disk)
         case Ok(s) => m.(store := s)
         case Err(_) => m
  }

  /** The machine after some steps. */
  function After(m: Machine, steps: seq<Step>): Machine {
    if steps == [] then m else Do(After(m, steps[..|steps| - 1]), steps[|steps| - 1])
  }

  predicate Reachable(m: Machine, steps: seq<Step>, at: int, nonce: nat) {
    m == After(NewMachine(at, nonce), steps)
  }

  // ---- what every step keeps -----------------------------------------------------------------

  ghost predicate Ascends(xs: seq<int>) {
    forall i, j :: 0 <= i < j < |xs| ==> xs[i] < xs[j]
  }

  /** A sealed line is linked to the lines it was sealed on, and numbered after them. */
  ghost predicate LinkedSealing(s: Sealing) {
    && s.line.Sealed? && s.line.payload.prev == ChainTip(s.below)
    && s.line.payload.seqNo == s.anchorSeq + |s.below|
  }

  ghost predicate GenuineSealing(s: Sealing) {
    Generation(s.below + [s.line], s.anchorSeq)
  }

  /** The counters describe some lines, though perhaps not those of the file. */
  ghost predicate Counted(s: StoreState) {
    s.log != [] && s.lineCount == |s.log| && s.tipHash == ChainTip(s.log)
  }

  /** The file starts with an anchor that opens. */
  ghost predicate Anchored(lines: seq<Line>) {
    lines != [] && Reopened(lines).Ok?
  }

  /** Memory and file agree. */
  ghost predicate Fresh(m: Machine) {
    m.disk == m.store.log && Consistent(m.store)
  }

  /** The file has one line more than memory knows of. */
  ghost predicate Behind(m: Machine) {
    OneAhead(m.store, m.disk)
  }

  /** The file is the generation after the one that memory stands for. */
  ghost predicate Stale(m: Machine) {
    Consistent(m.store) && Generation(m.disk, MaxSeq(m.store) + 1)
  }

  /** The file holds a line that does not belong to its generation; no reader and no compaction gets past it. */
  ghost predicate Broken(m: Machine) {
    && !SealedInOrder(m.disk, FirstSeq(m.disk))
    && Fold(m.disk, FirstSeq(m.disk)).Err? && Fold(m.disk, m.store.anchorSeq).Err?
  }

  ghost predicate NumbersAscend(m: Machine) {
    && Ascends(m.returned)
    && (forall i :: 0 <= i < |m.returned| ==> m.returned[i] <= MaxSeq(m.store))
    && MaxSeq(m.store) <= FirstSeq(m.disk) + |m.disk| - 1
  }

  ghost predicate SealingsSound(m: Machine) {
    && (forall s :: s in m.sealings ==> LinkedSealing(s))
    && (!Broken(m) ==> forall s :: s in m.sealings ==> GenuineSealing(s))
    && (!Broken(m) ==> SealingsOf(m.disk, FirstSeq(m.disk)) <= m.sealings)
  }

  ghost predicate Sound(m: Machine) {
    && Anchored(m.disk) && Counted(m.store)
    && (Fresh(m) || Behind(m) || Stale(m) || Broken(m))
    && m.committed == EventsOf(m.disk)
    && NumbersAscend(m)
    && SealingsSound(m)
  }

  /** Memory stands to the file as it did. */
  ghost predicate SameMode(m: Machine, a: Machine) {
    (Fresh(m) <==> Fresh(a)) && (Behind(m) <==> Behind(a)) && (Stale(m) <==> Stale(a)) && (Broken(m) <==> Broken(a))
  }

  lemma FreshIsSealed(m: Machine)
    requires Fresh(m)
    ensures SealedInOrder(m.disk, FirstSeq(m.disk)) && FirstSeq(m.disk) == m.store.anchorSeq
    ensures Anchored(m.disk) && Counted(m.store) && !Behind(m) && !Stale(m) && !Broken(m)
  {
    AnchorNamesTheGeneration(m.disk, m.store.anchorSeq);
    ReopenRestoresCounters(m.store);
    if Stale(m) {
      AnchorNamesTheGeneration(m.disk, MaxSeq(m.store) + 1);
    }
  }

  lemma BehindIsSealed(m: Machine)
    requires Behind(m)
    ensures SealedInOrder(m.disk, FirstSeq(m.disk)) && FirstSeq(m.disk) == m.store.anchorSeq
    ensures Anchored(m.disk) && Counted(m.store) && !Fresh(m) && !Stale(m) && !Broken(m)
  {
    AnchorNamesTheGeneration(m.disk, m.store.anchorSeq);
    ReopenRestoresCounters(StoreState(m.disk, m.store.anchorSeq, |m.disk|, ChainTip(m.disk)));
    if Stale(m) {
      AnchorNamesTheGeneration(m.disk, MaxSeq(m.store) + 1);
    }
  }

  lemma StaleIsSealed(m: Machine)
    requires Stale(m)
    ensures SealedInOrder(m.disk, FirstSeq(m.disk)) && FirstSeq(m.disk) == MaxSeq(m.store) + 1
    ensures Anchored(m.disk) && Counted(m.store) && !Fresh(m) && !Behind(m) && !Broken(m)
  {
    AnchorNamesTheGeneration(m.disk, MaxSeq(m.store) + 1);
    if Fresh(m) {
      FreshIsSealed(m);
    }
    if Behind(m) {
      BehindIsSealed(m);
    }
  }

  lemma NewMachineSound(at: int, nonce: nat)
    ensures Sound(NewMachine(at, nonce)) && Fresh(NewMachine(at, nonce))
  {
    FirstGenerationConsistent(at, nonce);
    var m := NewMachine(at, nonce);
    assert [] + [m.store.log[0]] == m.store.log;
    assert m.store.log[..0] == [];
    FreshIsSealed(m);
  }

  lemma PrefixIsGeneration(lines: seq<Line>, anchorSeq: int, n: nat)
    requires Generation(lines, anchorSeq) && 0 < n <= |lines|
    ensures Generation(lines[..n], anchorSeq)
    decreases |lines|
  {
    if n == |lines| {
      assert lines[..n] == lines;
    } else {
      var init := lines[..|lines| - 1];
      assert init[0] == lines[0];
      PrefixIsGeneration(init, anchorSeq, n);
      assert init[..n] == lines[..n];
    }
  }

  lemma GenerationSealingsGenuine(lines: seq<Line>, anchorSeq: int)
    requires Generation(lines, anchorSeq)
    ensures forall s :: s in SealingsOf(lines, anchorSeq) ==> GenuineSealing(s)
  {
    forall i | 0 <= i < |lines|
      ensures GenuineSealing(Sealing(lines[..i], lines[i], anchorSeq))
    {
      PrefixIsGeneration(lines, anchorSeq, i + 1);
      assert lines[..i] + [lines[i]] == lines[..i + 1];
    }
  }

  lemma SealingsOfAppend(lines: seq<Line>, line: Line, anchorSeq: int)
    ensures SealingsOf(lines + [line], anchorSeq) == SealingsOf(lines, anchorSeq) + {Sealing(lines, line, anchorSeq)}
  {
    var all := lines + [line];
    assert all[..|lines|] == lines && all[|lines|] == line;
    forall i | 0 <= i < |lines|
      ensures all[..i] == lines[..i] && all[i] == lines[i]
    {
    }
    forall s
      ensures s in SealingsOf(all, anchorSeq) <==> s in SealingsOf(lines, anchorSeq) + {Sealing(lines, line, anchorSeq)}
    {
      if s in SealingsOf(all, anchorSeq) {
        var i :| 0 <= i < |all| && s == Sealing(all[..i], all[i], anchorSeq);
        if i < |lines| {
          assert s == Sealing(lines[..i], lines[i], anchorSeq);
        }
      }
      if s in SealingsOf(lines, anchorSeq) {
        var i :| 0 <= i < |lines| && s == Sealing(lines[..i], lines[i], anchorSeq);
        assert s == Sealing(all[..i], all[i], anchorSeq);
      }
      if s == Sealing(lines, line, anchorSeq) {
        assert s == Sealing(all[..|lines|], all[|lines|], anchorSeq);
      }
    }
  }

  // ---- one step ------------------------------------------------------------------------------

  lemma ReopenedFile(m: Machine)
    requires Anchored(m.disk)
    ensures var r := Reboot(m);
            && r.disk == m.disk && r.store.log == m.disk && Counted(r.store)
            && r.store.anchorSeq == FirstSeq(m.disk) && MaxSeq(r.store) == FirstSeq(m.disk) + |m.disk| - 1
            && r == m.(store := r.store)
  {
  }

  lemma UnbrokenIsSealed(m: Machine)
    requires Fresh(m) || Behind(m) || Stale(m)
    ensures SealedInOrder(m.disk, FirstSeq(m.disk)) && Generation(m.disk, FirstSeq(m.disk))
  {
    if Fresh(m) {
      FreshIsSealed(m);
    } else if Behind(m) {
      BehindIsSealed(m);
    } else {
      StaleIsSealed(m);
    }
  }

  /** A relaunch leads to a fresh state, unless the file is broken. */
  lemma RebootSound(m: Machine)
    requires Sound(m)
    ensures Sound(Reboot(m)) && (if Broken(m) then Broken(Reboot(m)) else Fresh(Reboot(m)))
  {
    ReopenedFile(m);
    var r := Reboot(m);
    if !Broken(m) {
      UnbrokenIsSealed(m);
      assert Generation(m.disk, FirstSeq(m.disk));
      FreshIsSealed(r);
    }
  }

  lemma SealNextLinks(s: StoreState, body: Body, at: int, nonce: nat)
    requires Counted(s)
    ensures LinkedSealing(Sealing(s.log, SealNext(s, body, at, nonce), s.anchorSeq))
    ensures Consistent(s) ==> GenuineSealing(Sealing(s.log, SealNext(s, body, at, nonce), s.anchorSeq))
  {
    if Consistent(s) {
      AppendKeepsConsistent(s, body, at, nonce);
    }
  }

  lemma AttemptSound(m: Machine, body: Body, at: int, nonce: nat)
    requires Sound(m)
    ensures var a := Attempted(m, SealNext(m.store, body, at, nonce));
            Sound(a) && SameMode(m, a)
  {
    hide Generation, SealedInOrder, Fold, Consistent, SealingsOf, Reopened;
    SealNextLinks(m.store, body, at, nonce);
  }

  lemma FirstSeqStays(lines: seq<Line>, line: Line)
    requires lines != []
    ensures FirstSeq(lines + [line]) == FirstSeq(lines) && (Anchored(lines) <==> Anchored(lines + [line]))
  {
  }

  /** Where a line that landed leads. */
  lemma LandedMode(m: Machine, body: Body, at: int, nonce: nat)
    requires Sound(m)
    ensures var b := Landed(m, SealNext(m.store, body, at, nonce));
            if Fresh(m) then Fresh(b) else Broken(b)
  {
    hide SealedInOrder, Fold, NumbersAscend, SealingsSound;
    var line := SealNext(m.store, body, at, nonce);
    FirstSeqStays(m.disk, line);
    if Fresh(m) {
      AppendKeepsConsistent(m.store, body, at, nonce);
    } else if Behind(m) {
      BehindIsSealed(m);
      AppendAfterUnreported(m.store, m.disk, body, at, nonce);
    } else if Stale(m) {
      StaleIsSealed(m);
      StaleAppendFitsNowhere(m.store, m.disk, body, at, nonce);
    } else {
      StaysBroken(m.disk, line, FirstSeq(m.disk));
      StaysBroken(m.disk, line, m.store.anchorSeq);
    }
  }

  lemma StaysBroken(lines: seq<Line>, line: Line, anchorSeq: int)
    ensures !SealedInOrder(lines, anchorSeq) ==> !SealedInOrder(lines + [line], anchorSeq)
    ensures Fold(lines, anchorSeq).Err? ==> Fold(lines + [line], anchorSeq).Err?
  {
    assert (lines + [line])[..|lines|] == lines;
  }

  lemma LandedSound(m: Machine, body: Body, at: int, nonce: nat)
    requires Sound(m)
    ensures var line := SealNext(m.store, body, at, nonce);
            Sound(Landed(Attempted(m, line), line))
  {
    var line := SealNext(m.store, body, at, nonce);
    var a := Attempted(m, line);
    var b := Landed(a, line);
    AttemptSound(m, body, at, nonce);
    LandedMode(a, body, at, nonce);
    FirstSeqStays(m.disk, line);
    EventsOfAppend(m.disk, line);
    assert b.store.log[..|b.store.log| - 1] == m.store.log;
    if Fresh(a) {
      FreshIsSealed(a);
      FreshIsSealed(b);
      SealingsOfAppend(m.disk, line, FirstSeq(m.disk));
    }
  }

  /** The seq handed back is above all before it, and the machine stays sound. */
  lemma ReturnedSound(m: Machine, body: Body, at: int, nonce: nat)
    requires Sound(m)
    ensures Sound(Do(m, Append(body, at, nonce, Lands)))
  {
    hide Fresh, Behind, Stale, Broken, SealingsSound, Anchored;
    var line := SealNext(m.store, body, at, nonce);
    LandedSound(m, body, at, nonce);
    var b := Landed(Attempted(m, line), line);
    assert MaxSeq(b.store) == MaxSeq(m.store) + 1;
    ReturningKeeps(b, b.(returned := m.returned + [MaxSeq(m.store) + 1]));
    assert Do(m, Append(body, at, nonce, Lands)) == b.(returned := m.returned + [MaxSeq(m.store) + 1]);
  }

  lemma ReturningKeeps(b: Machine, c: Machine)
    requires Sound(b) && c == b.(returned := c.returned) && NumbersAscend(c)
    ensures Sound(c)
  {
    hide Generation, SealedInOrder, Fold, OneAhead, Consistent, SealingsOf, Reopened;
    assert SameMode(b, c);
  }

  /** The line of an append is in the file, but the caller was told otherwise. */
  function Unreported(m: Machine, line: Line): Machine {
    Landed(Attempted(m, line), line).(store := m.store)
  }

  lemma UnreportedMode(m: Machine, body: Body, at: int, nonce: nat)
    requires Sound(m)
    ensures var c := Unreported(m, SealNext(m.store, body, at, nonce));
            if Fresh(m) then Behind(c) else Broken(c)
  {
    hide SealedInOrder, Fold, NumbersAscend, SealingsSound, Generation;
    if Fresh(m) {
      UnreportedAppend(m.store, body, at, nonce);
    } else {
      AttemptSound(m, body, at, nonce);
      LandedMode(Attempted(m, SealNext(m.store, body, at, nonce)), body, at, nonce);
    }
  }

  lemma UnreportedSound(m: Machine, body: Body, at: int, nonce: nat)
    requires Sound(m)
    ensures Sound(Unreported(m, SealNext(m.store, body, at, nonce)))
  {
    var line := SealNext(m.store, body, at, nonce);
    var b, c := Landed(Attempted(m, line), line), Unreported(m, line);
    LandedSound(m, body, at, nonce);
    UnreportedMode(m, body, at, nonce);
    hide SealedInOrder, Fold, Generation, GenuineSealing, LinkedSealing, SealingsOf;
    AttemptSound(m, body, at, nonce);
    LandedMode(Attempted(m, line), body, at, nonce);
    ModesExclude(b);
    ModesExclude(c);
    ModesExclude(m);
    FirstSeqStays(m.disk, line);
    hide OneAhead, Consistent, Reopened;
  }

  lemma AppendSound(m: Machine, step: Step)
    requires Sound(m) && step.Append?
    ensures Sound(Do(m, step))
  {
    var line := SealNext(m.store, step.body, step.at, step.nonce);
    match step.fate
    case Lands => ReturnedSound(m, step.body, step.at, step.nonce);
    case Fails => AttemptSound(m, step.body, step.at, step.nonce);
    case LandsUnreported => UnreportedSound(m, step.body, step.at, step.nonce);
    case CrashesTorn =>
      AttemptSound(m, step.body, step.at, step.nonce);
      RebootSound(Attempted(m, line));
    case CrashesLanded =>
      LandedSound(m, step.body, step.at, step.nonce);
      RebootSound(Landed(Attempted(m, line), line));
  }

  lemma CompactedLinesAreGeneration(m: Machine, requested: set<ItemId>, tabOrder: seq<string>, stamps: nat -> Stamp)
    ensures var lines, base := CompactedLines(m, requested, tabOrder, stamps), MaxSeq(m.store) + 1;
            Generation(lines, base) && forall s :: s in SealingsOf(lines, base) ==> GenuineSealing(s)
  {
    hide SealedInOrder, Collapse, Kept, GenuineSealing, SealAll;
    var base := MaxSeq(m.store) + 1;
    var lines := CompactedLines(m, requested, tabOrder, stamps);
    KeptIdsHaveRows(EventsOf(m.disk), requested);
    var bodies := CompactionBodies(EventsOf(m.disk), requested, tabOrder, MaxSeq(m.store));
    SealAllInOrder(bodies, base, stamps);
    assert EventsOf(lines)[0].body == bodies[0];
    AnchorNamesTheGeneration(lines, base);
    GenerationSealingsGenuine(lines, base);
  }

  lemma GenuineIsLinked(s: Sealing)
    requires GenuineSealing(s)
    ensures LinkedSealing(s)
  {
    var all := s.below + [s.line];
    assert all[..|all| - 1] == s.below;
  }

  /** What a broken file does not allow. */
  lemma CompactOnlyUnbroken(m: Machine, tabOrder: seq<string>)
    requires Sound(m) && MayCompact(m, tabOrder)
    ensures !Broken(m) && Consistent(m.store)
  {
  }

  /** The compaction gets as far as its rename. */
  predicate Renames(m: Machine, step: Step) {
    step.Compact? && !step.end.Errs? && MayCompact(m, step.tabOrder)
  }

  function WithSealings(m: Machine, lines: seq<Line>): Machine {
    m.(sealings := m.sealings + SealingsOf(lines, MaxSeq(m.store) + 1))
  }

  lemma SealedGenerationSound(m: Machine, lines: seq<Line>)
    requires Sound(m) && Generation(lines, MaxSeq(m.store) + 1)
    ensures var a := WithSealings(m, lines);
            Sound(a) && SameMode(m, a)
  {
    hide Generation, SealedInOrder, Fold, OneAhead, Consistent;
    var base := MaxSeq(m.store) + 1;
    GenerationSealingsGenuine(lines, base);
    hide GenuineSealing, LinkedSealing;
    forall s | s in SealingsOf(lines, base)
      ensures LinkedSealing(s)
    {
      GenuineIsLinked(s);
    }
  }

  /** The file is replaced by a generation whose lines are all known. */
  lemma ReplacedSound(a: Machine, r: Machine)
    requires Sound(a) && !Broken(a) && r == a.(disk := r.disk, store := r.store, committed := EventsOf(r.disk))
    requires SealingsOf(r.disk, FirstSeq(r.disk)) <= a.sealings && Anchored(r.disk) && Counted(r.store)
    requires (Fresh(r) || Stale(r)) && MaxSeq(a.store) <= MaxSeq(r.store) <= FirstSeq(r.disk) + |r.disk| - 1
    ensures Sound(r)
  {
    hide Fresh, Stale, Broken, GenuineSealing, LinkedSealing, SealingsOf, Anchored, Counted;
  }

  lemma RenamedSound(m: Machine, lines: seq<Line>)
    requires Sound(m) && !Broken(m) && Consistent(m.store) && Generation(lines, MaxSeq(m.store) + 1)
    ensures Sound(Renamed(m, lines)) && Stale(Renamed(m, lines))
  {
    hide Sound, Broken, Fresh, Stale, Generation, SealedInOrder, SealingsOf, Anchored, Counted, Consistent;
    SealedGenerationSound(m, lines);
    RenamedIsStale(m, lines);
    StaleIsSealed(Renamed(m, lines));
    ReplacedSound(WithSealings(m, lines), Renamed(m, lines));
  }

  function Renamed(m: Machine, lines: seq<Line>): Machine {
    WithSealings(m, lines).(disk := lines, committed := EventsOf(lines))
  }

  lemma RenamedIsStale(m: Machine, lines: seq<Line>)
    requires Consistent(m.store) && Generation(lines, MaxSeq(m.store) + 1)
    ensures Stale(Renamed(m, lines)) && lines != []
  {
  }

  lemma SwitchedSound(m: Machine, lines: seq<Line>)
    requires Sound(m) && !Broken(m) && Generation(lines, MaxSeq(m.store) + 1)
    ensures var r := Switched(m, lines); Sound(r) && Fresh(r)
  {
    hide Sound, Broken, Fresh, Stale, Generation, SealedInOrder, SealingsOf, Anchored, Counted;
    SealedGenerationSound(m, lines);
    SwitchedIsFresh(m, lines);
    FreshIsSealed(Switched(m, lines));
    CountersBelow(m);
    ReplacedSound(WithSealings(m, lines), Switched(m, lines));
  }

  lemma SwitchedIsFresh(m: Machine, lines: seq<Line>)
    requires Generation(lines, MaxSeq(m.store) + 1)
    ensures Fresh(Switched(m, lines))
  {
  }

  lemma CountersBelow(m: Machine)
    requires Sound(m)
    ensures m.store.lineCount > 0
  {
  }

  function Switched(m: Machine, lines: seq<Line>): Machine {
    WithSealings(m, lines).(disk := lines, committed := EventsOf(lines),
                            store := StoreState(lines, MaxSeq(m.store) + 1, |lines|, ChainTip(lines)))
  }

  lemma CompactSound(m: Machine, step: Step)
    requires Sound(m) && step.Compact?
    ensures Sound(Do(m, step))
    ensures Renames(m, step) ==> !Broken(m)
    ensures Renames(m, step) ==> if step.end.Switches? then Fresh(Do(m, step)) else Stale(Do(m, step))
    ensures !Renames(m, step) ==> SameMode(m, Do(m, step))
  {
    if MayCompact(m, step.tabOrder) {
      CompactOnlyUnbroken(m, step.tabOrder);
      CompactedLinesAreGeneration(m, step.requested, step.tabOrder, step.stamps);
      var lines := CompactedLines(m, step.requested, step.tabOrder, step.stamps);
      hide Sound, Fresh, Stale, Broken, MayCompact, CompactedLines, Generation, SealingsOf;
      match step.end
      case Errs => SealedGenerationSound(m, lines);
      case RenamesUnsynced => RenamedSound(m, lines);
      case Switches => SwitchedSound(m, lines);
    }
  }

  lemma StepSound(m: Machine, step: Step)
    requires Sound(m)
    ensures Sound(Do(m, step))
  {
    match step
    case Append(_, _, _, _) => AppendSound(m, step);
    case Compact(_, _, _, _) => CompactSound(m, step);
    case Relaunch => RebootSound(m);
  }

  lemma {:induction false} RunsAreSound(m: Machine, steps: seq<Step>, at: int, nonce: nat)
    requires Reachable(m, steps, at, nonce)
    ensures Sound(m)
  {
    NewMachineSound(at, nonce);
    RunStaysSound(NewMachine(at, nonce), steps);
  }

  lemma {:induction false} RunStaysSound(m: Machine, steps: seq<Step>)
    requires Sound(m)
    ensures Sound(After(m, steps))
  {
    if steps != [] {
      RunStaysSound(m, steps[..|steps| - 1]);
      StepSound(After(m, steps[..|steps| - 1]), steps[|steps| - 1]);
    }
  }

  // ---- reading back --------------------------------------------------------------------------

  /** Reading the file now, with the counters as they are. */
  function ReadNow(m: Machine): Reading {
    Read(m.disk, m.store.anchorSeq)
  }

  lemma UnsealedIsUnreadable(m: Machine, anchorSeq: int)
    requires Broken(m) && Anchored(m.disk)
    ensures Read(m.disk, anchorSeq).failure.Some?
  {
    ReadAcceptsExactly(m.disk, anchorSeq);
    if SealedInOrder(m.disk, anchorSeq) {
      AnchorNamesTheGeneration(m.disk, anchorSeq);
    }
  }

  lemma KnownGeneration(m: Machine)
    requires Fresh(m) || Behind(m)
    ensures SealedInOrder(m.disk, m.store.anchorSeq)
  {
  }

  lemma ReadsBackIfFresh(m: Machine)
    requires Sound(m)
    ensures ReadNow(m).failure.None? <==> (Fresh(m) || Behind(m)) && AllReadable(m.committed)
    ensures ReadNow(m).failure.None? ==> ReadNow(m).events == m.committed
    ensures Fresh(m) || Behind(m) ==>
              forall i :: 0 <= i < |m.committed| ==> m.committed[i].seqNo == m.store.anchorSeq + i
  {
    hide Read, AllReadable, EventsOf, Fold, NumbersAscend, SealingsSound, Reopened, SealedInOrder;
    if Fresh(m) || Behind(m) {
      UnbrokenIsSealed(m);
      KnownGeneration(m);
      hide Fresh, Behind, Stale, Broken;
      SealedLinesReadBack(m.disk, m.store.anchorSeq);
    } else if Stale(m) {
      StaleReadFails(m.store, m.disk);
    } else {
      hide Fresh, Behind, Stale, Broken;
      UnsealedIsUnreadable(m, m.store.anchorSeq);
    }
  }

  // ---- how memory stands to the file ---------------------------------------------------------

  /** In step, one line behind, one generation behind, or the file is damaged. */
  datatype Mode = InStep | LineBehind | GenerationBehind | Damaged

  ghost predicate InMode(m: Machine, mode: Mode) {
    match mode
    case InStep => Fresh(m)
    case LineBehind => Behind(m)
    case GenerationBehind => Stale(m)
    case Damaged => Broken(m)
  }

  /** A line of this append reaches the file. */
  predicate Landing(step: Step) {
    step.Append? && (step.fate.Lands? || step.fate.LandsUnreported? || step.fate.CrashesLanded?)
  }

  /** This step makes the store read its counters from the file. */
  predicate Rereads(step: Step) {
    step.Relaunch? || (step.Append? && step.fate.CrashesTorn?)
  }

  /**
   * What a step does to the agreement of memory and file. Only an error that came too late parts
   * them: an append that landed unreported, or a compaction that renamed but could not sync. Then
   * rereading the file, or a compaction that goes through, brings them together again, unless an
   * append lands first; that damages the file for good.
   */
  function NextMode(mode: Mode, m: Machine, step: Step): Mode {
    if mode.Damaged? || (!mode.InStep? && Landing(step)) then Damaged
    else if Rereads(step) || (Renames(m, step) && step.end.Switches?) then InStep
    else if Renames(m, step) then GenerationBehind
    else if step.Append? && step.fate.LandsUnreported? then LineBehind
    else mode
  }

  function ModeAfter(mode: Mode, m: Machine, steps: seq<Step>): Mode {
    if steps == [] then mode
    else
      var init, last := steps[..|steps| - 1], steps[|steps| - 1];
      NextMode(ModeAfter(mode, m, init), After(m, init), last)
  }

  predicate ReadableMode(mode: Mode) {
    mode.InStep? || mode.LineBehind?
  }

  lemma ModesExclude(m: Machine)
    ensures forall a, b :: InMode(m, a) && InMode(m, b) ==> a == b
    ensures !(Fresh(m) && Behind(m)) && !(Fresh(m) && Stale(m)) && !(Fresh(m) && Broken(m))
    ensures !(Behind(m) && Stale(m)) && !(Behind(m) && Broken(m)) && !(Stale(m) && Broken(m))
  {
    if Fresh(m) {
      FreshIsSealed(m);
    }
    if Behind(m) {
      BehindIsSealed(m);
    }
    if Stale(m) {
      StaleIsSealed(m);
    }
  }

  /** Every step's effect on the agreement of memory and file, exactly. */
  lemma ModesMove(m: Machine, step: Step, mode: Mode)
    requires Sound(m) && InMode(m, mode)
    ensures InMode(Do(m, step), NextMode(mode, m, step))
  {
    hide Sound, Fresh, Behind, Stale, Broken, MayCompact;
    ModesExclude(m);
    match step
    case Append(_, _, _, _) => AppendMoves(m, step, mode);
    case Compact(_, _, _, _) => CompactSound(m, step);
    case Relaunch => RebootSound(m);
  }

  lemma AppendMoves(m: Machine, step: Step, mode: Mode)
    requires Sound(m) && InMode(m, mode) && step.Append?
    ensures InMode(Do(m, step), NextMode(mode, m, step))
  {
    hide Sound, Fresh, Behind, Stale, Broken;
    var line := SealNext(m.store, step.body, step.at, step.nonce);
    var a := Attempted(m, line);
    AttemptSound(m, step.body, step.at, step.nonce);
    ModesExclude(m);
    ModesExclude(a);
    match step.fate
    case Fails =>
    case LandsUnreported => UnreportedMode(m, step.body, step.at, step.nonce);
    case CrashesTorn => RebootSound(a);
    case Lands =>
      LandedMode(a, step.body, step.at, step.nonce);
      var b := Landed(a, line);
      ReturningKeepsMode(b, b.(returned := m.returned + [MaxSeq(m.store) + 1]));
    case CrashesLanded =>
      LandedMode(a, step.body, step.at, step.nonce);
      LandedSound(m, step.body, step.at, step.nonce);
      ModesExclude(Landed(a, line));
      RebootSound(Landed(a, line));
  }

  lemma ReturningKeepsMode(b: Machine, c: Machine)
    requires c == b.(returned := c.returned)
    ensures SameMode(b, c)
  {
  }

  lemma {:induction false} ModesFollow(m: Machine, steps: seq<Step>, mode: Mode)
    requires Sound(m) && InMode(m, mode)
    ensures Sound(After(m, steps)) && InMode(After(m, steps), ModeAfter(mode, m, steps))
  {
    hide Sound, InMode, NextMode, Do;
    if steps != [] {
      var init, last := steps[..|steps| - 1], steps[|steps| - 1];
      ModesFollow(m, init, mode);
      StepSound(After(m, init), last);
      ModesMove(After(m, init), last, ModeAfter(mode, m, init));
    }
  }

  /**
   * Honest logs read back. After any run, readAll yields every committed event in order, numbered
   * from the anchor without a gap, if and only if the steps left the store in a mode that reads and
   * no tab event with an empty tag was committed; otherwise it reports an error. After a relaunch the
   * same holds unless the file is damaged. The seqs handed to callers have only ever gone up.
   */
  lemma HonestLogsReadBack(m: Machine, steps: seq<Step>, at: int, nonce: nat)
    requires Reachable(m, steps, at, nonce)
    ensures var mode := ModeAfter(InStep, NewMachine(at, nonce), steps);
            && InMode(m, mode)
            && (ReadNow(m).failure.None? <==> ReadableMode(mode) && AllReadable(m.committed))
            && (ReadNow(m).failure.None? ==> ReadNow(m).events == m.committed)
            && (ReadableMode(mode) ==>
                  forall i :: 0 <= i < |m.committed| ==> m.committed[i].seqNo == m.store.anchorSeq + i)
            && (mode.InStep? ==> Reopened(m.disk) == Ok(m.store))
    ensures var mode, r := ModeAfter(InStep, NewMachine(at, nonce), steps), Do(m, Relaunch);
            && r.committed == m.committed
            && (ReadNow(r).failure.None? <==> !mode.Damaged? && AllReadable(m.committed))
            && (ReadNow(r).failure.None? ==> ReadNow(r).events == m.committed)
    ensures Ascends(m.returned)
  {
    NewMachineSound(at, nonce);
    ModesFollow(NewMachine(at, nonce), steps, InStep);
    hide ModeAfter, Ascends;
    RunsAreSound(m, steps, at, nonce);
    ReadsInMode(m, ModeAfter(InStep, NewMachine(at, nonce), steps));
  }

  lemma ReadsInMode(m: Machine, mode: Mode)
    requires Sound(m) && InMode(m, mode)
    ensures ReadNow(m).failure.None? <==> ReadableMode(mode) && AllReadable(m.committed)
    ensures ReadNow(m).failure.None? ==> ReadNow(m).events == m.committed
    ensures ReadableMode(mode) ==>
              forall i :: 0 <= i < |m.committed| ==> m.committed[i].seqNo == m.store.anchorSeq + i
    ensures mode.InStep? ==> Reopened(m.disk) == Ok(m.store)
    ensures var r := Do(m, Relaunch);
            && r.committed == m.committed
            && (ReadNow(r).failure.None? <==> !mode.Damaged? && AllReadable(m.committed))
            && (ReadNow(r).failure.None? ==> ReadNow(r).events == m.committed)
    ensures Ascends(m.returned)
  {
    ModesExclude(m);
    ReadsBackIfFresh(m);
    RebootSound(m);
    ReopenedFile(m);
    ReadsBackIfFresh(Reboot(m));
    ModesExclude(Reboot(m));
    hide Stale, Broken, Behind, SealingsSound, Read;
    if Fresh(m) {
      ReopenRestoresCounters(m.store);
    }
  }

  // ---- errors that came too late -------------------------------------------------------------

  /**
   * Something reported an error and yet changed the file: a compaction that renamed, or an append that
   * landed. Whatever follows, compactions included, the store reads back, with nothing lost, if and
   * only if what followed left it in a mode that reads.
   */
  lemma LateErrorReadsBackIff(m: Machine, step: Step, more: seq<Step>)
    requires Sound(m) && Fresh(m)
    requires AllReadable(After(Do(m, step), more).committed)
    ensures var after, mode := After(Do(m, step), more), ModeAfter(NextMode(InStep, m, step), Do(m, step), more);
            && (ReadNow(after).failure.None? <==> ReadableMode(mode))
            && (ReadableMode(mode) ==> ReadNow(after).events == after.committed)
            && (ReadNow(Do(after, Relaunch)).failure.None? <==> !mode.Damaged?)
  {
    hide Sound, Fresh, Behind, Stale, Broken, Do, ReadNow;
    StepSound(m, step);
    ModesMove(m, step, InStep);
    ModesFollow(Do(m, step), more, NextMode(InStep, m, step));
    ReadsInMode(After(Do(m, step), more), ModeAfter(NextMode(InStep, m, step), Do(m, step), more));
  }

  /** Among these steps the store rereads the file before any append lands. */
  ghost predicate RereadsFirst(steps: seq<Step>) {
    exists k :: RereadsAt(steps, k)
  }

  ghost predicate RereadsAt(steps: seq<Step>, k: int) {
    0 <= k < |steps| && Rereads(steps[k]) && forall j :: 0 <= j < k ==> !Landing(steps[j])
  }

  ghost predicate NothingLanded(steps: seq<Step>) {
    forall j :: 0 <= j < |steps| ==> !Landing(steps[j])
  }

  /** Neither compactions nor unreported appends among these steps. */
  ghost predicate Plain(steps: seq<Step>) {
    forall k :: 0 <= k < |steps| ==>
      !steps[k].Compact? && !(steps[k].Append? && steps[k].fate.LandsUnreported?)
  }

  lemma {:induction false} AfterUnsynced(m: Machine, steps: seq<Step>)
    requires Plain(steps)
    ensures ModeAfter(GenerationBehind, m, steps)
         == if RereadsFirst(steps) then InStep else if NothingLanded(steps) then GenerationBehind else Damaged
  {
    hide Do, Rereads, Landing, MayCompact;
    if steps != [] {
      var init, last := steps[..|steps| - 1], steps[|steps| - 1];
      AfterUnsynced(m, init);
      RereadsFirstNext(init, last);
      RereadsIsNotLanding(last);
      assert steps == init + [last];
      hide RereadsFirst, NothingLanded;
    }
  }

  lemma RereadsIsNotLanding(step: Step)
    ensures !(Rereads(step) && Landing(step))
  {
  }

  lemma RereadsFirstNext(init: seq<Step>, last: Step)
    ensures RereadsFirst(init + [last]) <==> RereadsFirst(init) || (NothingLanded(init) && Rereads(last))
    ensures NothingLanded(init + [last]) <==> NothingLanded(init) && !Landing(last)
  {
    var all := init + [last];
    assert forall j :: 0 <= j < |init| ==> all[j] == init[j];
    assert all[|init|] == last;
    if RereadsFirst(init) {
      var k :| RereadsAt(init, k);
      assert RereadsAt(all, k);
    }
    if NothingLanded(init) && Rereads(last) {
      assert RereadsAt(all, |init|);
    }
    if RereadsFirst(all) {
      var k :| RereadsAt(all, k);
      if k < |init| {
        assert RereadsAt(init, k);
      }
    }
  }

  /**
   * The compaction's rename landed but its directory sync failed, so the error left the counters
   * as they were. Among the appends and relaunches that follow, the store reads back, with nothing
   * lost, if and only if it is reopened before the next append lands; otherwise not even a relaunch
   * helps.
   */
  lemma UnsyncedCompactionReadsBackIff(m: Machine, step: Step, more: seq<Step>)
    requires Sound(m) && Fresh(m) && Renames(m, step) && step.end.RenamesUnsynced? && Plain(more)
    requires AllReadable(After(Do(m, step), more).committed)
    ensures var after := After(Do(m, step), more);
            && (ReadNow(after).failure.None? <==> RereadsFirst(more))
            && (RereadsFirst(more) ==> ReadNow(after).events == after.committed)
            && (!RereadsFirst(more) && !NothingLanded(more) ==> ReadNow(Do(after, Relaunch)).failure.Some?)
  {
    hide Sound, Fresh, Do, ReadNow, RereadsFirst, NothingLanded, Plain;
    LateErrorReadsBackIff(m, step, more);
    AfterUnsynced(Do(m, step), more);
  }

  /** A new store may be compacted, to an anchor alone. */
  lemma NewMachineCompacts(at: int, nonce: nat, stamps: nat -> Stamp)
    ensures var m := NewMachine(at, nonce);
            && MayCompact(m, [])
            && CompactedLines(m, {}, [], stamps) == [Seal(stamps(0).nonce, 0, 2, stamps(0).at, Genesis, Mark(1, 0))]
  {
    var m := NewMachine(at, nonce);
    FirstGenerationConsistent(at, nonce);
    FoldOfSealedLines(m.disk, 1);
    assert [StoreEvent(1, at, Mark(0, 0))][..0] == [];
    assert Collapse(EventsOf(m.disk)) == NOTHING_LIVE;
    KeptIdsHaveRows(EventsOf(m.disk), {});
    var bodies := CompactionBodies(EventsOf(m.disk), {}, [], 1);
    assert bodies == [Mark(1, 0)] && bodies[..0] == [];
  }

  /**
   * A run that shows it: an empty store is compacted without the sync. An append that lands next
   * makes the log unreadable, also for a relaunch; a relaunch instead of the append reads it back.
   */
  lemma AppendAfterUnsyncedCompaction(at: int, nonce: nat, stamps: nat -> Stamp)
    ensures var m, compact := NewMachine(at, nonce), Compact({}, [], stamps, RenamesUnsynced);
            var append := Append(UpdateItem("x", ItemPatch(at, None, None, None, None)), at, nonce, Lands);
            && Sound(m) && Fresh(m) && Renames(m, compact) && ReadNow(m).failure.None?
            && ReadNow(After(Do(m, compact), [append])).failure.Some?
            && ReadNow(Do(After(Do(m, compact), [append]), Relaunch)).failure.Some?
            && ReadNow(After(Do(m, compact), [Relaunch])).failure.None?
  {
    var m, compact := NewMachine(at, nonce), Compact({}, [], stamps, RenamesUnsynced);
    var append := Append(UpdateItem("x", ItemPatch(at, None, None, None, None)), at, nonce, Lands);
    NewMachineSound(at, nonce);
    LeftByCompaction(at, nonce, stamps, append);
    hide Sound, Fresh, MayCompact, CompactedLines, ReadNow, After, Do, NewMachine;
    ReadsBackIfFresh(m);
    LandingDamages(m, compact, append);
    RelaunchMends(m, compact);
  }

  lemma AfterOne(m: Machine, step: Step)
    ensures After(m, [step]) == Do(m, step)
  {
    assert [step][..0] == [] && After(m, []) == m;
  }

  lemma LandingDamages(m: Machine, step: Step, append: Step)
    requires Sound(m) && Fresh(m) && Renames(m, step) && step.end.RenamesUnsynced?
    requires append.Append? && append.fate.Lands? && AllReadable(Do(Do(m, step), append).committed)
    ensures ReadNow(After(Do(m, step), [append])).failure.Some?
    ensures ReadNow(Do(After(Do(m, step), [append]), Relaunch)).failure.Some?
  {
    hide Sound, Fresh, MayCompact, ReadNow, After, Do;
    AfterOne(Do(m, step), append);
    LandsAtOnce(append);
    UnsyncedCompactionReadsBackIff(m, step, [append]);
  }

  lemma RelaunchMends(m: Machine, step: Step)
    requires Sound(m) && Fresh(m) && Renames(m, step) && step.end.RenamesUnsynced?
    requires AllReadable(Do(Do(m, step), Relaunch).committed)
    ensures ReadNow(After(Do(m, step), [Relaunch])).failure.None?
  {
    hide Sound, Fresh, MayCompact, ReadNow, After, Do;
    AfterOne(Do(m, step), Relaunch);
    RereadsAtOnce([Relaunch]);
    UnsyncedCompactionReadsBackIff(m, step, [Relaunch]);
  }

  lemma LeftByCompaction(at: int, nonce: nat, stamps: nat -> Stamp, append: Step)
    requires append.Append? && Readable(append.body) && append.fate.Lands?
    ensures var m, compact := NewMachine(at, nonce), Compact({}, [], stamps, RenamesUnsynced);
            && Renames(m, compact) && AllReadable(m.committed)
            && AllReadable(Do(Do(m, compact), append).committed)
            && AllReadable(Do(Do(m, compact), Relaunch).committed)
  {
    hide MayCompact, Reopened, ChainTip, Readable;
    var m, compact := NewMachine(at, nonce), Compact({}, [], stamps, RenamesUnsynced);
    NewMachineCompacts(at, nonce, stamps);
    var left := Do(m, compact);
    assert left.committed == [StoreEvent(2, stamps(0).at, Mark(1, 0))];
    AnchorIsReadable(1, 0);
    AnchorIsReadable(0, 0);
    var line := SealNext(left.store, append.body, append.at, append.nonce);
    assert Do(left, append).committed == left.committed + [EventOf(line)];
    assert Do(left, Relaunch).committed == left.committed;
  }

  lemma AnchorIsReadable(maxSeq: int, count: nat)
    ensures Readable(Mark(maxSeq, count))
  {
  }

  lemma LandsAtOnce(append: Step)
    requires Landing(append)
    ensures !RereadsFirst([append]) && !NothingLanded([append])
  {
    assert [append][0] == append;
  }

  lemma RereadsAtOnce(steps: seq<Step>)
    requires RereadsAt(steps, 0)
    ensures RereadsFirst(steps)
  {
  }

  /** A compaction that gets as far as its rename keeps the meaning of the log it replaces. */
  lemma CompactionStepKeepsMeaning(m: Machine, steps: seq<Step>, at: int, nonce: nat, step: Step)
    requires Reachable(m, steps, at, nonce) && Renames(m, step)
    ensures var after := Do(m, step).committed;
            && Replay(after).items == Restrict(Replay(m.committed).items, step.requested)
            && Replay(after).tabs == Replay(m.committed).tabs
  {
    RunsAreSound(m, steps, at, nonce);
    RenameWritesCompaction(m, step);
    CompactionPreservesMeaning(m.committed, step.requested, step.tabOrder, MaxSeq(m.store) + 1, Do(m, step).committed);
  }

  lemma RenameWritesCompaction(m: Machine, step: Step)
    requires Sound(m) && Renames(m, step)
    ensures IsCompactionOf(Do(m, step).committed, m.committed, step.requested, step.tabOrder, MaxSeq(m.store) + 1)
  {
    hide Replay, Fold, Kept, GenerationBodies, Numbered, Anchored, SealingsSound, Fresh, Stale, Broken;
    FoldIsCollapse(m.disk, m.store.anchorSeq);
    KeptIdsHaveRows(m.committed, step.requested);
    var base := MaxSeq(m.store) + 1;
    SealAllInOrder(CompactionBodies(m.committed, step.requested, step.tabOrder, base - 1), base, step.stamps);
    assert forall t :: t in step.tabOrder <==> t in (set x | x in step.tabOrder);
  }

  // ---- splice evidence -----------------------------------------------------------------------

  /** Opening this file and reading all of it reports no error. */
  predicate Accepted(lines: seq<Line>) {
    lines != [] && Reopened(lines).Ok? && Read(lines, Reopened(lines).value.anchorSeq).failure.None?
  }

  /** What opens and reads without error is exactly a readable generation. */
  lemma AcceptedIsGeneration(lines: seq<Line>)
    ensures Accepted(lines) <==> Generation(lines, FirstSeq(lines)) && AllReadable(EventsOf(lines))
  {
    hide Read, AllReadable, EventsOf;
    if lines != [] {
      ReadAcceptsExactly(lines, FirstSeq(lines));
      if SealedInOrder(lines, FirstSeq(lines)) {
        AnchorNamesTheGeneration(lines, FirstSeq(lines));
      }
    }
  }

  lemma SealingFacts(m: Machine, s: Sealing)
    requires Sound(m) && s in m.sealings
    ensures LinkedSealing(s) && (!Broken(m) ==> GenuineSealing(s))
  {
    hide LinkedSealing, GenuineSealing, Broken;
  }

  lemma LastOfGeneration(lines: seq<Line>, anchorSeq: int)
    requires Generation(lines, anchorSeq)
    ensures var l := lines[|lines| - 1];
            l.Sealed? && l.payload.prev == ChainTip(lines[..|lines| - 1]) && l.payload.seqNo == anchorSeq + |lines| - 1
    ensures FirstSeq(lines) == anchorSeq
  {
    AnchorNamesTheGeneration(lines, anchorSeq);
  }

  /**
   * Splice evidence. Take any file whose last line the store sealed at some time. Opening and
   * reading it reports no error exactly when it is the lines that the store's counters stood for
   * then, followed by that line, all in order and readable.
   */
  lemma SpliceEvidence(m: Machine, steps: seq<Step>, at: int, nonce: nat, lines: seq<Line>, last: Sealing)
    requires Reachable(m, steps, at, nonce)
    requires last in m.sealings && lines != [] && lines[|lines| - 1] == last.line
    ensures Accepted(lines) <==>
              lines == last.below + [last.line] && Generation(lines, last.anchorSeq) && AllReadable(EventsOf(lines))
    ensures !Broken(m) ==> Generation(last.below + [last.line], last.anchorSeq)
  {
    hide Generation, SealedInOrder, After, NewMachine, AllReadable, Sound, Broken;
    hide Accepted, ChainTip, FirstSeq, EventsOf;
    RunsAreSound(m, steps, at, nonce);
    AcceptedIsGeneration(lines);
    SealingFacts(m, last);
    if Accepted(lines) {
      LastOfGeneration(lines, FirstSeq(lines));
      ChainTipInjective(lines[..|lines| - 1], last.below);
      assert lines == lines[..|lines| - 1] + [last.line];
    }
    if lines == last.below + [last.line] && Generation(lines, last.anchorSeq) {
      LastOfGeneration(lines, last.anchorSeq);
    }
  }

  /** What the chain cannot show: cutting lines off the end of the log leaves an acceptable file. */
  lemma TruncationIsAccepted(m: Machine, steps: seq<Step>, at: int, nonce: nat, n: nat)
    requires Reachable(m, steps, at, nonce) && AllReadable(m.committed) && 0 < n <= |m.disk|
    ensures Accepted(m.disk[..n]) <==> SealedInOrder(m.disk[..n], FirstSeq(m.disk))
    ensures !Broken(m) ==> Accepted(m.disk[..n])
  {
    RunsAreSound(m, steps, at, nonce);
    TruncatedFile(m, n);
  }

  lemma TruncatedFile(m: Machine, n: nat)
    requires Sound(m) && AllReadable(m.committed) && 0 < n <= |m.disk|
    ensures Accepted(m.disk[..n]) <==> SealedInOrder(m.disk[..n], FirstSeq(m.disk))
    ensures !Broken(m) ==> Accepted(m.disk[..n])
  {
    var cut := m.disk[..n];
    assert forall i :: 0 <= i < n ==> EventsOf(cut)[i] == m.committed[i];
    ReadAcceptsExactly(cut, FirstSeq(m.disk));
    if !Broken(m) {
      UnbrokenIsSealed(m);
      SealedPrefix(m.disk, FirstSeq(m.disk), n);
    }
  }
}
