/**
 * The store object: its log file, its blob directory and its counters. `disks` is a ghost record of
 * every durable state the disk has passed through, so a crash may leave any one of them behind.
 */
module StoreObject {
  import opened Domain
  import opened Sorting
  import opened Records
  import opened EventLog
  import opened LogStore

  datatype Disk = Disk(events: seq<StoreEvent>, blobs: set<BlobId>)

  function RefsOf(items: map<ItemId, Item>): set<BlobId> {
    set id, b | id in items && b in BlobIds(items[id]) :: b
  }

  /**
   * How a write to the blob directory ends: as asked; with an error and nothing done; or done, but
   * with an error because the directory could not be synced.
   */
  datatype BlobFate = Synced | Failed | Unsynced

  /** How a write of one line ends: as asked; with an error and nothing written; or written, but with an error. */
  datatype LineFate = Written | Unwritten | Unreported

  /** No item the log brings back refers to a blob that is gone. */
  ghost predicate NoDangling(d: Disk) {
    RefsOf(Replay(d.events).items) <= d.blobs
  }

  class Store {
    var log: seq<Line>
    var anchorSeq: int
    var lineCount: nat
    var tipHash: Hash
    var blobs: set<BlobId>
    ghost var disks: seq<Disk>

    ghost function State(): StoreState
      reads this
    {
      StoreState(log, anchorSeq, lineCount, tipHash)
    }

    ghost function Events(): seq<StoreEvent>
      reads this
    {
      EventsOf(log)
    }

    ghost predicate Valid()
      reads this
    {
      && Consistent(State())
      && disks != []
      && disks[|disks| - 1] == Disk(Events(), blobs)
    }

    /** The counters agree with the number of the last record. */
    lemma NextSeq()
      requires Valid()
      ensures Events() != [] && Events()[|Events()| - 1].seqNo == MaxSeq(State()) && Events()[0].seqNo == anchorSeq
    {
      SealedLinesReadBack(log, anchorSeq);
    }

    /** A store on an empty directory: it writes the first anchor. */
    constructor Create(at: int, nonce: nat)
      ensures Valid() && Events() == [StoreEvent(1, at, Mark(0, 0))]
      ensures blobs == {} && disks == [Disk(Events(), {})]
    {
      var first := FirstGeneration(at, nonce);
      FirstGenerationConsistent(at, nonce);
      log, anchorSeq, lineCount, tipHash := first.log, first.anchorSeq, first.lineCount, first.tipHash;
      blobs := {};
      disks := [Disk(EventsOf(first.log), {})];
    }

    /** Attaches counters to a file that is already there. */
    constructor Attach(s: StoreState, blobs: set<BlobId>)
      requires s.lineCount >= 0
      ensures State() == s && this.blobs == blobs
      ensures disks == [Disk(EventsOf(s.log), blobs)]
    {
      log, anchorSeq, lineCount, tipHash := s.log, s.anchorSeq, s.lineCount, s.tipHash;
      this.blobs := blobs;
      disks := [Disk(EventsOf(s.log), blobs)];
    }

    /** Opens whatever complete lines are on disk, after the torn tail was cut off. */
    static method Open(lines: seq<Line>, blobs: set<BlobId>, at: int, nonce: nat, anchorLands: bool)
      returns (r: Result<Store>)
      ensures lines == [] ==> (r.Ok? <==> anchorLands)
      ensures lines == [] && anchorLands ==>
                fresh(r.value) && r.value.Valid() && r.value.State() == FirstGeneration(at, nonce)
      ensures lines != [] && Reopened(lines).Ok? ==>
                && r.Ok? && fresh(r.value) && r.value.State() == Reopened(lines).value && r.value.blobs == blobs
                && r.value.disks == [Disk(EventsOf(lines), blobs)]
      ensures lines != [] && Reopened(lines).Err? ==> r == Err(Reopened(lines).error)
      ensures (exists a :: Generation(lines, a)) ==> r.Ok? && r.value.Valid() && r.value.Events() == EventsOf(lines)
    {
      if lines == [] {
        if !anchorLands {
          return Err(StoreIo);
        }
        FirstGenerationConsistent(at, nonce);
        var made := new Store.Attach(FirstGeneration(at, nonce), blobs);
        return Ok(made);
      }
      var anchor := OpenRecord(lines[0], Aad(0, ANCHOR_AAD_SEQ, Checkpoint));
      if anchor.Err? {
        GenerationsReopen(lines);
        return Err(anchor.error);
      }
      if anchor.value.kind != Checkpoint {
        GenerationsReopen(lines);
        return Err(StoreCorrupt);
      }
      var tip := ComputeChainTip(lines);
      var found := new Store.Attach(StoreState(lines, anchor.value.seqNo, |lines|, tip), blobs);
      GenerationsReopen(lines);
      return Ok(found);
    }

    method NextLine(body: Body, at: int, nonce: nat) returns (line: Line)
      ensures line == SealNext(State(), body, at, nonce)
    {
      var lineIndex, seqNo := lineCount, anchorSeq + lineCount - 1 + 1;
      line := Sealed(nonce, Aad(lineIndex, if lineIndex == 0 then ANCHOR_AAD_SEQ else seqNo, KindOf(body)),
                     Payload(seqNo, at, KindOf(body), tipHash, body));
    }

    /** Seals one record onto the tip; `fate` is what becomes of its line. */
    method SealAndAppend(body: Body, at: int, nonce: nat, fate: LineFate) returns (r: Result<StoreEvent>)
      requires Valid()
      modifies this
      ensures blobs == old(blobs)
      ensures r == if fate.Written? then Ok(StoreEvent(old(MaxSeq(State())) + 1, at, body)) else Err(StoreIo)
      ensures fate.Written? ==>
                && Valid() && State() == old(Appended(State(), SealNext(State(), body, at, nonce)))
                && Events() == old(Events()) + [r.value] && disks == old(disks) + [Disk(Events(), blobs)]
      ensures fate.Unwritten? ==> Valid() && State() == old(State()) && disks == old(disks)
      ensures fate.Unreported? ==> LineAhead(old(State()), StoreEvent(old(MaxSeq(State())) + 1, at, body))
                                       && disks == old(disks) + [Disk(Events(), blobs)]
    {
      hide Consistent, OneAhead, AllReadable, Read, Reopened, EventsOf, SealNext;
      AppendKeepsConsistent(State(), body, at, nonce);
      UnreportedAppend(State(), body, at, nonce);
      var seqNo := anchorSeq + lineCount - 1 + 1;
      var line := NextLine(body, at, nonce);
      if fate.Unwritten? {
        return Err(StoreIo);
      }
      log := log + [line];
      if fate.Unreported? {
        disks := disks + [Disk(Events(), blobs)];
        return Err(StoreIo);
      }
      tipHash := Next(tipHash, line);
      lineCount := lineCount + 1;
      disks := disks + [Disk(Events(), blobs)];
      return Ok(StoreEvent(seqNo, at, body));
    }

    /** The counters are those of `before`, and the file has one more line, holding `event`. */
    ghost predicate LineAhead(before: StoreState, event: StoreEvent)
      reads this
    {
      State() == before.(log := log) && OneAhead(before, log) && Events() == EventsOf(before.log) + [event]
    }

    /** Refuses an item whose blobs are not on disk yet; otherwise appends. */
    method AppendEvent(body: Body, at: int, nonce: nat, fate: LineFate) returns (r: Result<StoreEvent>)
      requires Valid() && !body.Mark?
      modifies this
      ensures blobs == old(blobs)
      ensures body.AddItem? && !(BlobIds(body.item) <= blobs) ==>
                r == Err(BlobMissing) && Valid() && State() == old(State()) && disks == old(disks)
      ensures !(body.AddItem? && !(BlobIds(body.item) <= blobs)) ==>
                && r == (if fate.Written? then Ok(StoreEvent(old(MaxSeq(State())) + 1, at, body)) else Err(StoreIo))
                && (fate.Unreported? ==>
                      LineAhead(old(State()), StoreEvent(old(MaxSeq(State())) + 1, at, body)))
      ensures r.Ok? ==> Valid() && Events() == old(Events()) + [r.value] && anchorSeq == old(anchorSeq)
      ensures r.Ok? ==> disks == old(disks) + [Disk(Events(), blobs)]
      ensures r.Err? && !fate.Unreported? ==> Valid() && State() == old(State()) && disks == old(disks)
    {
      if body.AddItem? && !(BlobIds(body.item) <= blobs) {
        return Err(BlobMissing);
      }
      r := SealAndAppend(body, at, nonce, fate);
    }

    method PlaceCheckpoint(liveItemCount: int, at: int, nonce: nat, fate: LineFate) returns (r: Result<StoreEvent>)
      requires Valid()
      modifies this
      ensures blobs == old(blobs)
      ensures var event := StoreEvent(old(MaxSeq(State())) + 1, at, Mark(old(MaxSeq(State())), liveItemCount));
              && r == (if fate.Written? then Ok(event) else Err(StoreIo))
              && (fate.Unreported? ==> LineAhead(old(State()), event))
      ensures r.Ok? ==>
                && Valid() && Events() == old(Events()) + [r.value]
                && disks == old(disks) + [Disk(Events(), blobs)]
      ensures fate.Unwritten? ==> Valid() && State() == old(State()) && disks == old(disks)
    {
      r := SealAndAppend(Mark(anchorSeq + lineCount - 1, liveItemCount), at, nonce, fate);
    }

    /** Content addressed: a blob that is already there is not written again. */
    method PutBlob(bytes: Bytes, fate: BlobFate) returns (r: Result<BlobId>)
      requires Valid()
      modifies this`blobs, this`disks
      ensures Valid()
      ensures r == if HashOf(bytes) in old(blobs) || fate.Synced? then Ok(HashOf(bytes)) else Err(StoreIo)
      ensures blobs == if fate.Failed? then old(blobs) else old(blobs) + {HashOf(bytes)}
      ensures disks == old(disks) || disks == old(disks) + [Disk(Events(), blobs)]
    {
      var id := HashOf(bytes);
      if id in blobs {
        assert blobs == blobs + {id};
        return Ok(id);
      }
      if fate.Failed? {
        return Err(StoreIo);
      }
      blobs := blobs + {id};
      disks := disks + [Disk(Events(), blobs)];
      return if fate.Synced? then Ok(id) else Err(StoreIo);
    }

    method GetBlob(id: BlobId) returns (r: Result<Bytes>)
      requires Valid()
      ensures r == if id in blobs then Ok(id.bytes) else Err(BlobMissing)
    {
      if id !in blobs {
        return Err(BlobMissing);
      }
      return Ok(id.bytes);
    }

    method DeleteBlob(id: BlobId, fate: BlobFate) returns (r: Result<bool>)
      requires Valid()
      modifies this`blobs, this`disks
      ensures Valid()
      ensures r == if id !in old(blobs) then Ok(false) else if fate.Synced? then Ok(true) else Err(StoreIo)
      ensures blobs == if fate.Failed? then old(blobs) else old(blobs) - {id}
      ensures disks == old(disks) || disks == old(disks) + [Disk(Events(), blobs)]
    {
      if id !in blobs {
        assert blobs == blobs - {id};
        return Ok(false);
      }
      if fate.Failed? {
        return Err(StoreIo);
      }
      blobs := blobs - {id};
      disks := disks + [Disk(Events(), blobs)];
      return if fate.Synced? then Ok(true) else Err(StoreIo);
    }

    /** Replays the log to what is live, refusing one that does not read back. */
    method FoldLog() returns (r: Result<Live>)
      requires Valid()
      ensures r == if AllReadable(Events()) then Ok(Collapse(Events())) else Err(StoreCorrupt)
    {
      FoldOfSealedLines(log, anchorSeq);
      r := FoldLines(log, anchorSeq);
    }

    /** Builds the next generation in memory, and the set of blobs it will need. */
    method Prepare(live: Live, requested: set<ItemId>, base: int, stamps: nat -> Stamp)
      returns (lines: seq<Line>, tip: Hash, keepFiles: set<BlobId>, tabOrder: seq<string>)
      requires NoDangling(Disk(Events(), blobs)) && live == Collapse(Events())
      ensures Generation(lines, base) && tip == ChainTip(lines)
      ensures IsCompactionOf(EventsOf(lines), Events(), requested, tabOrder, base)
      ensures keepFiles == RefsOf(Replay(EventsOf(lines)).items) && keepFiles <= blobs
    {
      CollapseMatchesReplay(Events());
      var kept := Kept(live.order, requested);
      lines, tip, tabOrder := BuildGeneration(live, kept, base, stamps);
      keepFiles := set id, b | id in kept && b in BlobIds(live.rows[id]) :: b;
      NewGenerationIsSafe(Disk(Events(), blobs), requested, tabOrder, base, stamps, lines, keepFiles);
    }

    /**
     * Rewrites the log as one new generation holding the requested live items and every explicit
     * tab, then unlinks the blobs nothing in it refers to. `bad` are the blobs whose unlink fails.
     * When only the directory sync fails, the new generation is in place but the counters are not.
     */
    method Compact(requested: set<ItemId>, stamps: nat -> Stamp, end: CompactFate, bad: set<BlobId>)
      returns (r: Result<()>, ghost tabOrder: seq<string>)
      requires Valid() && NoDangling(Disk(Events(), blobs))
      modifies this
      ensures !AllReadable(old(Events())) || end.Errs? ==>
                && r == Err(if AllReadable(old(Events())) then StoreIo else StoreCorrupt)
                && Valid() && State() == old(State()) && blobs == old(blobs) && disks == old(disks)
      ensures AllReadable(old(Events())) && !end.Errs? ==>
                && IsCompactionOf(Events(), old(Events()), requested, tabOrder, old(MaxSeq(State())) + 1)
                && RefsOf(Replay(Events()).items) <= blobs <= old(blobs)
      ensures AllReadable(old(Events())) && end.Switches? ==>
                && Valid() && old(blobs) * bad <= blobs
                && r == if (old(blobs) - RefsOf(Replay(Events()).items)) !! bad then Ok(()) else Err(StoreIo)
      ensures AllReadable(old(Events())) && end.RenamesUnsynced? ==>
                r == Err(StoreIo) && blobs == old(blobs) && LeftBehind(old(State()))
      ensures r.Ok? ==> blobs == RefsOf(Replay(Events()).items)
      ensures old(disks) <= disks
      ensures forall i :: |old(disks)| <= i < |disks| ==> NoDangling(disks[i])
    {
      hide IsCompactionOf, Generation, Replay, Read, NoDangling, LeftBehind;
      tabOrder := [];
      var folded := FoldLog();
      if folded.Err? {
        return Err(folded.error), tabOrder;
      }
      var base := anchorSeq + lineCount - 1 + 1;
      var lines, tip, keepFiles, visited := Prepare(folded.value, requested, base, stamps);
      tabOrder := visited;
      match end
      case Errs =>
        r := Err(StoreIo);
      case RenamesUnsynced =>
        r := Err(StoreIo);
        Replace(lines, keepFiles);
      case Switches =>
        r := SwitchTo(lines, tip, base, keepFiles, bad);
    }

    /** The counters are those of `before`, and the file is the generation after it: it cannot be read. */
    ghost predicate LeftBehind(before: StoreState)
      reads this
    {
      && State() == before.(log := log)
      && Generation(log, MaxSeq(before) + 1)
      && Read(log, anchorSeq).failure.Some?
      && disks != [] && disks[|disks| - 1] == Disk(Events(), blobs)
    }

    /** The rename alone. */
    method Replace(lines: seq<Line>, keepFiles: set<BlobId>)
      requires Valid() && Generation(lines, MaxSeq(State()) + 1)
      requires keepFiles <= blobs && keepFiles == RefsOf(Replay(EventsOf(lines)).items)
      modifies this`log, this`disks
      ensures log == lines && LeftBehind(old(State()))
      ensures old(disks) <= disks
      ensures forall i :: |old(disks)| <= i < |disks| ==> NoDangling(disks[i])
    {
      StaleReadFails(State(), lines);
      log := lines;
      disks := disks + [Disk(Events(), blobs)];
    }

    /** The rename, after which the new generation is the log; only then the garbage collection. */
    method SwitchTo(lines: seq<Line>, tip: Hash, base: int, keepFiles: set<BlobId>, bad: set<BlobId>)
      returns (r: Result<()>)
      requires Valid() && Generation(lines, base) && tip == ChainTip(lines)
      requires keepFiles <= blobs && keepFiles == RefsOf(Replay(EventsOf(lines)).items)
      modifies this
      ensures Valid() && Events() == EventsOf(lines)
      ensures keepFiles <= blobs <= old(blobs) && old(blobs) * bad <= blobs
      ensures r == if (old(blobs) - keepFiles) !! bad then Ok(()) else Err(StoreIo)
      ensures r.Ok? ==> blobs == keepFiles
      ensures old(disks) <= disks
      ensures forall i :: |old(disks)| <= i < |disks| ==> NoDangling(disks[i])
    {
      log, anchorSeq, lineCount, tipHash := lines, base, |lines|, tip;
      disks := disks + [Disk(Events(), blobs)];
      r := CollectGarbage(keepFiles, bad);
    }

    /** Unlinks every blob outside `keep`; stops at the first one that will not go. */
    method CollectGarbage(keep: set<BlobId>, bad: set<BlobId>) returns (r: Result<()>)
      requires Valid() && keep <= blobs && keep == RefsOf(Replay(Events()).items)
      modifies this`blobs, this`disks
      ensures Valid() && keep <= blobs <= old(blobs) && old(blobs) * bad <= blobs
      ensures r == if (old(blobs) - keep) !! bad then Ok(()) else Err(StoreIo)
      ensures r.Ok? ==> blobs == keep
      ensures old(disks) <= disks
      ensures forall i :: |old(disks)| <= i < |disks| ==> NoDangling(disks[i])
    {
      var files := blobs;
      while files != {}
        invariant Valid() && keep <= blobs <= old(blobs) && blobs <= keep + files && old(blobs) * bad <= blobs
        invariant files <= old(blobs) && (old(blobs) - files - keep) !! bad
        invariant old(disks) <= disks
        invariant forall i :: |old(disks)| <= i < |disks| ==> NoDangling(disks[i])
        decreases files
      {
        var file :| file in files;
        files := files - {file};
        if file !in keep {
          if file in bad {
            return Err(StoreIo);
          }
          blobs := blobs - {file};
          disks := disks + [Disk(Events(), blobs)];
        }
      }
      return Ok(());
    }
  }

  lemma GenerationsReopen(lines: seq<Line>)
    requires lines != []
    ensures forall a :: Generation(lines, a) ==>
              Reopened(lines) == Ok(StoreState(lines, a, |lines|, ChainTip(lines)))
  {
    forall a | Generation(lines, a)
      ensures Reopened(lines) == Ok(StoreState(lines, a, |lines|, ChainTip(lines)))
    {
      ReopenRestoresCounters(StoreState(lines, a, |lines|, ChainTip(lines)));
    }
  }

  lemma GenerationStartsWithAnchor(lines: seq<Line>, bodies: seq<Body>, base: int)
    requires SealedInOrder(lines, base) && Numbered(EventsOf(lines), bodies, base)
    requires bodies != [] && bodies[0].Mark?
    ensures Generation(lines, base)
  {
    AnchorNamesTheGeneration(lines, base);
    assert EventsOf(lines)[0].body == bodies[0];
  }

  /** The records up to and including the first k kept items. */
  ghost function ItemBodies(live: Live, kept: seq<ItemId>, base: int, k: nat): seq<Body>
    requires k <= |kept| && forall id :: id in kept ==> id in live.rows
  {
    GenerationBodies(live, kept, [], base - 1)[..1 + k]
  }

  lemma SealItem(live: Live, kept: seq<ItemId>, base: int, stamps: nat -> Stamp, k: nat)
    requires k < |kept| && forall id :: id in kept ==> id in live.rows
    ensures var init := SealAll(ItemBodies(live, kept, base, k), base, stamps);
            var line := Seal(stamps(|init|).nonce, |init|, base, stamps(|init|).at, ChainTip(init),
                             AddItem(live.rows[kept[k]]));
            && SealAll(ItemBodies(live, kept, base, k + 1), base, stamps) == init + [line]
            && ChainTip(init + [line]) == Next(ChainTip(init), line)
  {
    var before, item := ItemBodies(live, kept, base, k), AddItem(live.rows[kept[k]]);
    assert ItemBodies(live, kept, base, k + 1) == before + [item];
    SealAllAppend(before, item, base, stamps);
    var init := SealAll(before, base, stamps);
    assert forall line :: (init + [line])[..|init|] == init;
  }

  lemma SealAnchor(live: Live, kept: seq<ItemId>, base: int, stamps: nat -> Stamp)
    requires forall id :: id in kept ==> id in live.rows
    ensures var line := Seal(stamps(0).nonce, 0, base, stamps(0).at, Genesis, Mark(base - 1, |kept|));
            SealAll(ItemBodies(live, kept, base, 0), base, stamps) == [line] && ChainTip([line]) == Next(Genesis, line)
  {
    SealAllAppend([], Mark(base - 1, |kept|), base, stamps);
    assert ItemBodies(live, kept, base, 0) == [] + [Mark(base - 1, |kept|)];
  }

  /** The anchor and one record per kept item. */
  method BuildItems(live: Live, kept: seq<ItemId>, base: int, stamps: nat -> Stamp)
    returns (lines: seq<Line>, tip: Hash)
    requires forall id :: id in kept ==> id in live.rows
    ensures lines == SealAll(GenerationBodies(live, kept, [], base - 1), base, stamps) && tip == ChainTip(lines)
  {
    SealAnchor(live, kept, base, stamps);
    lines := [Seal(stamps(0).nonce, 0, base, stamps(0).at, Genesis, Mark(base - 1, |kept|))];
    tip := Next(Genesis, lines[0]);
    assert ItemBodies(live, kept, base, |kept|) == GenerationBodies(live, kept, [], base - 1);
    hide GenerationBodies, ItemBodies, Seal, SealAll, ChainTip;
    for i := 0 to |kept|
      invariant lines == SealAll(ItemBodies(live, kept, base, i), base, stamps) && tip == ChainTip(lines)
    {
      SealItem(live, kept, base, stamps, i);
      var line := Seal(stamps(|lines|).nonce, |lines|, base, stamps(|lines|).at, tip, AddItem(live.rows[kept[i]]));
      lines, tip := lines + [line], Next(tip, line);
    }
  }

  /** Seals the new generation line by line: the anchor, the kept items, the tabs. */
  method BuildGeneration(live: Live, kept: seq<ItemId>, base: int, stamps: nat -> Stamp)
    returns (lines: seq<Line>, tip: Hash, visited: seq<string>)
    requires forall id :: id in kept ==> id in live.rows
    ensures Enumerates(visited, live.tabs)
    ensures lines == SealAll(GenerationBodies(live, kept, visited, base - 1), base, stamps) && tip == ChainTip(lines)
  {
    lines, tip := BuildItems(live, kept, base, stamps);
    visited := [];
    var rest := live.tabs;
    while rest != {}
      invariant rest <= live.tabs && Enumerates(visited, live.tabs - rest)
      invariant lines == SealAll(GenerationBodies(live, kept, visited, base - 1), base, stamps)
      invariant tip == ChainTip(lines)
      decreases rest
    {
      var tag :| tag in rest;
      VisitTab(visited, live.tabs, rest, tag);
      rest := rest - {tag};
      var line := Seal(stamps(|lines|).nonce, |lines|, base, stamps(|lines|).at, tip, CreateTab(tag));
      SealTab(live, kept, visited, tag, base, stamps);
      visited := visited + [tag];
      lines, tip := lines + [line], Next(tip, line);
    }
  }

  lemma VisitTab(visited: seq<string>, tabs: set<string>, rest: set<string>, tag: string)
    requires rest <= tabs && Enumerates(visited, tabs - rest) && tag in rest
    ensures Enumerates(visited + [tag], tabs - (rest - {tag}))
  {
  }

  lemma SealTab(live: Live, kept: seq<ItemId>, visited: seq<string>, tag: string, base: int, stamps: nat -> Stamp)
    requires forall id :: id in kept ==> id in live.rows
    ensures var init := SealAll(GenerationBodies(live, kept, visited, base - 1), base, stamps);
            var line := Seal(stamps(|init|).nonce, |init|, base, stamps(|init|).at, ChainTip(init), CreateTab(tag));
            && SealAll(GenerationBodies(live, kept, visited + [tag], base - 1), base, stamps) == init + [line]
            && ChainTip(init + [line]) == Next(ChainTip(init), line)
  {
    var bodies := GenerationBodies(live, kept, visited, base - 1);
    assert GenerationBodies(live, kept, visited + [tag], base - 1) == bodies + [CreateTab(tag)];
    SealAllAppend(bodies, CreateTab(tag), base, stamps);
    var all := SealAll(bodies + [CreateTab(tag)], base, stamps);
    assert all[..|all| - 1] == SealAll(bodies, base, stamps);
  }

  /** A new generation is well formed, a compaction of the old log, and refers to no lost blob. */
  lemma NewGenerationIsSafe(
      d: Disk, requested: set<ItemId>, visited: seq<string>, base: int, stamps: nat -> Stamp,
      lines: seq<Line>, keepFiles: set<BlobId>)
    requires NoDangling(d)
    requires Enumerates(visited, Collapse(d.events).tabs)
    requires forall id :: id in Kept(Collapse(d.events).order, requested) ==> id in Collapse(d.events).rows
    requires var c := Collapse(d.events);
             var kept := Kept(c.order, requested);
             && lines == SealAll(GenerationBodies(c, kept, visited, base - 1), base, stamps)
             && keepFiles == set id, b | id in kept && b in BlobIds(c.rows[id]) :: b
    ensures Generation(lines, base)
    ensures IsCompactionOf(EventsOf(lines), d.events, requested, visited, base)
    ensures keepFiles == RefsOf(Replay(EventsOf(lines)).items) && keepFiles <= d.blobs
  {
    var c := Collapse(d.events);
    var kept := Kept(c.order, requested);
    var bodies := GenerationBodies(c, kept, visited, base - 1);
    SealAllInOrder(bodies, base, stamps);
    GenerationStartsWithAnchor(lines, bodies, base);
    KeptIsReplayed(d.events, requested, visited, base, EventsOf(lines));
    KeepFilesAreRefs(c, kept, Replay(EventsOf(lines)).items);
  }

  lemma KeptIsReplayed(
      history: seq<StoreEvent>, requested: set<ItemId>, visited: seq<string>, base: int, events: seq<StoreEvent>)
    requires IsCompactionOf(events, history, requested, visited, base)
    ensures var v, c := Replay(events).items, Collapse(history);
            && Distinct(c.order)
            && (forall id :: id in v <==> id in Kept(c.order, requested))
            && (forall id :: id in v ==> id in c.rows && v[id] == WithDefaults(c.rows[id]))
    ensures RefsOf(Replay(events).items) <= RefsOf(Replay(history).items)
  {
    CompactionPreservesMeaning(history, requested, visited, base, events);
    CollapseMatchesReplay(history);
    assert forall id :: id in Replay(events).items ==> id in Defaulted(Collapse(history).rows);
  }

  lemma KeepFilesAreRefs(live: Live, kept: seq<ItemId>, items: map<ItemId, Item>)
    requires forall id :: id in kept ==> id in live.rows
    requires forall id :: id in kept <==> id in items
    requires forall id :: id in items ==> items[id] == WithDefaults(live.rows[id])
    ensures (set id, b | id in kept && b in BlobIds(live.rows[id]) :: b) == RefsOf(items)
  {
    forall id | id in items
      ensures BlobIds(items[id]) == BlobIds(live.rows[id])
    {
    }
  }
}
