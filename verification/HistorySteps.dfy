/**
 * What each call on History does to its memory, to the log and to the blobs, exactly, and what
 * follows over whole runs: the log only grows, and an edit stays until it is edited again.
 */
module HistorySteps {
  import opened Domain
  import opened Records
  import opened EventLog
  import opened LogStore
  import opened StoreObject
  import opened HistoryState
  import opened History
  import Retention

  /**
   * One call from outside. Operations that append wait while a replay is in flight, so a call made
   * then has no effect until after `EndLoad`.
   */
  datatype Op =
    | Ingest(candidate: Candidate, now: int, newId: ItemId, puts: nat -> BlobFate, io: Io)
    | Pin(id: ItemId, pinned: bool, io: Io)
    | Tag(id: ItemId, tag: string, tagged: bool, io: Io)
    | SetTitle(id: ItemId, title: Option<string>, rawLength: nat, io: Io)
    | AddTab(tag: string, now: int, io: Io)
    | RemoveTab(tag: string, io: Io)
    | Remove(id: ItemId, io: Io, bad: Faults)
    | EvictNow(now: int, ios: nat -> Io, bad: Faults)
    | EvictPreviews
    | StartLoad(damaged: Option<seq<Line>>)
    | EndLoad(bad: Faults)

  /** A replay in flight: whether its file will read, and the eviction epoch it started in. */
  datatype Replaying = Replaying(readable: bool, startedAtEpoch: nat)

  datatype World = World(
    mem: Memory,
    events: seq<StoreEvent>,
    blobs: set<BlobId>,
    replaying: Option<Replaying>,
    epoch: nat,
    limits: Retention.Limits)

  // ---- the steps -----------------------------------------------------------------------------

  /** One record is committed and memory follows it, or nothing happens. */
  function Commit(w: World, io: Io, body: Body, after: Memory): World {
    if !io.lands then w
    else w.(mem := after, events := w.events + [StoreEvent(NextNumber(w.events), io.at, body)])
  }

  function Updated(w: World, id: ItemId, patch: ItemPatch, io: Io): World
    requires id in w.mem.items
  {
    Commit(w, io, UpdateItem(id, patch), AfterUpdate(w.mem, id, patch))
  }

  /** The waiting blobs that nothing refers to are unlinked, as far as they go. */
  function Swept(w: World, bad: Faults): World {
    var free := Unreferenced(w.mem);
    w.(mem := w.mem.(pending := free * bad.All() * w.blobs), blobs := w.blobs - (free - bad.stuck))
  }

  function IngestEffect(w: World, c: Candidate, now: int, newId: ItemId, puts: nat -> BlobFate, io: Io): World {
    if c.skip || newId in w.mem.items then w
    else if c.contentHash in w.mem.byHash && w.mem.byHash[c.contentHash] in w.mem.items
    then Updated(w, w.mem.byHash[c.contentHash], ItemPatch(now, None, None, None, None), io)
    else
      var (blobs, written) := PutAll(w.blobs, CandidateBytes(c), puts);
      var it := NewItem(c, newId, now);
      if written then Commit(w.(blobs := blobs), io, AddItem(it), AfterAdd(w.mem, it, NextNumber(w.events)))
      else w.(blobs := blobs)
  }

  function PinEffect(w: World, id: ItemId, pinned: bool, io: Io): World {
    if id !in w.mem.items || (pinned && w.mem.items[id].secret) then w
    else Updated(w, id, ItemPatch(w.mem.items[id].updatedAt, None, Some(pinned), None, None), io)
  }

  function TagEffect(w: World, id: ItemId, tag: string, tagged: bool, io: Io): World {
    if id !in w.mem.items then w
    else match ApplyTag(TagsOf(w.mem.items[id]), tag, tagged)
         case Changed(tags) => Updated(w, id, ItemPatch(w.mem.items[id].updatedAt, None, None, Some(tags), None), io)
         case _ => w
  }

  function TitleEffect(w: World, id: ItemId, title: Option<string>, rawLength: nat, io: Io): World {
    if id !in w.mem.items || rawLength > TITLE_MAX_CHARS then w
    else if w.mem.previewsLoaded && title == TitleOf(w.mem.items[id]) then w
    else Updated(w, id, ItemPatch(w.mem.items[id].updatedAt, Some(title), None, None, None), io)
  }

  function AddTabEffect(w: World, tag: string, now: int, io: Io): World {
    var names := TabNames(w.mem, now);
    if tag == "" || tag in w.mem.tabs || (tag !in names && |names| >= TABS_MAX) then w
    else Commit(w, io, CreateTab(tag), AfterTabCreated(w.mem, tag))
  }

  function RemoveTabEffect(w: World, tag: string, io: Io): World {
    if tag == "" || (tag !in w.mem.tabs && Carriers(w.mem.items, tag) == {}) then w
    else Commit(w, io, DeleteTab(tag), AfterTabDeleted(w.mem, tag))
  }

  function RemoveEffect(w: World, id: ItemId, io: Io, bad: Faults): World {
    if id !in w.mem.items then Swept(w, bad)
    else if !io.lands then w
    else Swept(Commit(w, io, DeleteItem(id, ByUser), AfterDelete(w.mem, id)), bad)
  }

  /** The planned evictions up to the first that does not land, then the sweep. */
  ghost function EvictEffect(w: World, now: int, ios: nat -> Io, bad: Faults): World {
    var plan := PlanFor(w.mem.items, now, w.limits);
    var done := plan[..LandingPrefix(ios, |plan|)];
    Swept(w.(mem := AfterDeletes(w.mem, done), events := Deletions(w.events, done, ios)), bad)
  }

  function StartEffect(w: World, damaged: Option<seq<Line>>): World {
    var rejected :=
      damaged.Some? && w.events != [] && Read(damaged.value, w.events[0].seqNo).failure.Some?;
    if w.replaying.Some? then w else w.(replaying := Some(Replaying(!rejected, w.epoch)))
  }

  /** A readable file is published, showing previews if no eviction came in between, and swept. */
  ghost function EndEffect(w: World, bad: Faults): World {
    if w.replaying.None? then w
    else if !w.replaying.value.readable || !DistinctHashes(Replay(w.events).items) then w.(replaying := None)
    else
      var show := w.replaying.value.startedAtEpoch == w.epoch;
      Swept(w.(replaying := None, mem := Published(Replay(w.events), show, w.mem.pending)), bad)
  }

  ghost function Do(w: World, op: Op): World {
    match op
    case EvictPreviews => w.(mem := AfterPreviewEviction(w.mem), epoch := w.epoch + 1)
    case StartLoad(damaged) => StartEffect(w, damaged)
    case EndLoad(bad) => EndEffect(w, bad)
    case _ => if w.replaying.Some? then w else Mutated(w, op)
  }

  ghost function Mutated(w: World, op: Op): World {
    match op
    case Ingest(c, now, newId, puts, io) => IngestEffect(w, c, now, newId, puts, io)
    case Pin(id, pinned, io) => PinEffect(w, id, pinned, io)
    case Tag(id, tag, tagged, io) => TagEffect(w, id, tag, tagged, io)
    case SetTitle(id, title, rawLength, io) => TitleEffect(w, id, title, rawLength, io)
    case AddTab(tag, now, io) => AddTabEffect(w, tag, now, io)
    case RemoveTab(tag, io) => RemoveTabEffect(w, tag, io)
    case Remove(id, io, bad) => RemoveEffect(w, id, io, bad)
    case EvictNow(now, ios, bad) => EvictEffect(w, now, ios, bad)
    case _ => w
  }

  ghost function Played(w: World, ops: seq<Op>): World {
    if ops == [] then w else Do(Played(w, ops[..|ops| - 1]), ops[|ops| - 1])
  }

  lemma OneMorePlayed(w: World, ops: seq<Op>, op: Op)
    ensures Played(w, ops + [op]) == Do(Played(w, ops), op)
  {
    assert (ops + [op])[..|ops|] == ops;
  }

  // ---- the log only grows --------------------------------------------------------------------

  lemma {:induction false} DeletionsGrow(events: seq<StoreEvent>, plan: seq<Retention.Eviction>, ios: nat -> Io)
    ensures events <= Deletions(events, plan, ios)
  {
    if plan != [] {
      DeletionsGrow(events, plan[..|plan| - 1], ios);
    }
  }

  lemma StepGrows(w: World, op: Op)
    ensures w.events <= Do(w, op).events
  {
    hide Replay, PlanFor, AfterDeletes, PutAll, ApplyTag, TabNames, Carriers, Unreferenced, NewItem;
    if op.EvictNow? {
      var plan := PlanFor(w.mem.items, op.now, w.limits);
      DeletionsGrow(w.events, plan[..LandingPrefix(op.ios, |plan|)], op.ios);
    }
  }

  /** Every record committed by any call of a run is in the log at its end, in its place. */
  lemma {:induction false} RecordsStay(w: World, ops: seq<Op>, k: nat)
    requires k <= |ops|
    ensures Played(w, ops[..k]).events <= Played(w, ops).events
  {
    if k == |ops| {
      assert ops[..k] == ops;
    } else {
      hide Do;
      var init := ops[..|ops| - 1];
      assert init[..k] == ops[..k];
      RecordsStay(w, init, k);
      StepGrows(Played(w, init), ops[|ops| - 1]);
    }
  }

  // ---- memory follows the log ----------------------------------------------------------------

  lemma UpdatedAgrees(w: World, id: ItemId, patch: ItemPatch, io: Io)
    requires Agrees(w.mem, w.events) && id in w.mem.items
    ensures var x := Updated(w, id, patch, io); Agrees(x.mem, x.events)
  {
    UpdateAgrees(w.mem, w.events, StoreEvent(NextNumber(w.events), io.at, UpdateItem(id, patch)));
  }

  lemma SweptAgrees(w: World, bad: Faults)
    requires Agrees(w.mem, w.events)
    ensures Agrees(Swept(w, bad).mem, Swept(w, bad).events)
  {
  }

  lemma IngestAgrees(w: World, c: Candidate, now: int, newId: ItemId, puts: nat -> BlobFate, io: Io)
    requires Agrees(w.mem, w.events)
    ensures var x := IngestEffect(w, c, now, newId, puts, io); Agrees(x.mem, x.events)
  {
    hide Agrees, AfterUpdate, PutAll, AfterAdd, RefsFor, TotalBytes;
    if !c.skip && newId !in w.mem.items {
      if c.contentHash in w.mem.byHash && w.mem.byHash[c.contentHash] in w.mem.items {
        UpdatedAgrees(w, w.mem.byHash[c.contentHash], ItemPatch(now, None, None, None, None), io);
      } else {
        AddAgrees(w.mem, w.events, StoreEvent(NextNumber(w.events), io.at, AddItem(NewItem(c, newId, now))));
      }
    }
  }

  lemma {:induction false} DeletesAgree(w: World, plan: seq<Retention.Eviction>, ios: nat -> Io)
    requires Agrees(w.mem, w.events)
    ensures Agrees(AfterDeletes(w.mem, plan), Deletions(w.events, plan, ios))
  {
    if plan != [] {
      var n := |plan| - 1;
      DeletesAgree(w, plan[..n], ios);
      var m, events := AfterDeletes(w.mem, plan[..n]), Deletions(w.events, plan[..n], ios);
      var e := StoreEvent(NextNumber(events), ios(n).at, DeleteItem(plan[n].id, plan[n].reason));
      if plan[n].id in m.items {
        DeleteAgrees(m, events, e);
      } else {
        DeleteNothing(m, events, e);
      }
    }
  }

  lemma DeleteNothing(m: Memory, events: seq<StoreEvent>, e: StoreEvent)
    requires Agrees(m, events) && e.body.DeleteItem? && e.body.id !in m.items
    ensures Agrees(m, events + [e])
  {
    ReplayAppend(events, e);
    ReplayCoherent(events);
    var v := Replay(events);
    assert v.items - {e.body.id} == v.items && v.ord - {e.body.id} == v.ord;
  }

  lemma EvictAgrees(w: World, now: int, ios: nat -> Io, bad: Faults)
    requires Agrees(w.mem, w.events)
    ensures var x := EvictEffect(w, now, ios, bad); Agrees(x.mem, x.events)
  {
    hide PlanFor, Agrees, AfterDeletes, Deletions, LandingPrefix, Swept;
    var plan := PlanFor(w.mem.items, now, w.limits);
    var done := plan[..LandingPrefix(ios, |plan|)];
    DeletesAgree(w, done, ios);
    SweptAgrees(w.(mem := AfterDeletes(w.mem, done), events := Deletions(w.events, done, ios)), bad);
  }

  lemma RemoveAgrees(w: World, id: ItemId, io: Io, bad: Faults)
    requires Agrees(w.mem, w.events)
    ensures var x := RemoveEffect(w, id, io, bad); Agrees(x.mem, x.events)
  {
    hide Agrees, AfterDelete, Swept;
    SweptAgrees(w, bad);
    if id in w.mem.items && io.lands {
      DeleteAgrees(w.mem, w.events, StoreEvent(NextNumber(w.events), io.at, DeleteItem(id, ByUser)));
      SweptAgrees(Commit(w, io, DeleteItem(id, ByUser), AfterDelete(w.mem, id)), bad);
    }
  }

  lemma AddTabAgrees(w: World, tag: string, now: int, io: Io)
    requires Agrees(w.mem, w.events)
    ensures var x := AddTabEffect(w, tag, now, io); Agrees(x.mem, x.events)
  {
    hide Replay, TabNames;
    ReplayAppend(w.events, StoreEvent(NextNumber(w.events), io.at, CreateTab(tag)));
  }

  lemma RemoveTabAgrees(w: World, tag: string, io: Io)
    requires Agrees(w.mem, w.events)
    ensures var x := RemoveTabEffect(w, tag, io); Agrees(x.mem, x.events)
  {
    hide Agrees, AfterTabDeleted, Carriers;
    TabDeletedAgrees(w.mem, w.events, StoreEvent(NextNumber(w.events), io.at, DeleteTab(tag)));
  }

  lemma EndAgrees(w: World, bad: Faults)
    requires Agrees(w.mem, w.events)
    ensures Agrees(EndEffect(w, bad).mem, EndEffect(w, bad).events)
  {
    hide Replay, RefsOf, IndexByHash;
  }

  lemma LockAgrees(w: World)
    requires Agrees(w.mem, w.events)
    ensures Agrees(AfterPreviewEviction(w.mem), w.events)
  {
    hide Replay;
    var v := Replay(w.events);
    assert AfterPreviewEviction(w.mem).items == ShownAll(v.items, false);
  }

  /** Refinement, one call: memory that is the replay of the log stays so, scrubbed while locked. */
  lemma StepAgrees(w: World, op: Op)
    requires Agrees(w.mem, w.events)
    ensures Agrees(Do(w, op).mem, Do(w, op).events)
  {
    hide Agrees, Updated, IngestEffect, AddTabEffect, RemoveTabEffect, RemoveEffect, EvictEffect, EndEffect;
    hide ApplyTag, AfterPreviewEviction;
    match op
    case Ingest(c, now, newId, puts, io) => IngestAgrees(w, c, now, newId, puts, io);
    case Pin(id, pinned, io) =>
      if id in w.mem.items {
        UpdatedAgrees(w, id, ItemPatch(w.mem.items[id].updatedAt, None, Some(pinned), None, None), io);
      }
    case Tag(id, tag, tagged, io) =>
      if id in w.mem.items && ApplyTag(TagsOf(w.mem.items[id]), tag, tagged).Changed? {
        var tags := ApplyTag(TagsOf(w.mem.items[id]), tag, tagged).tags;
        UpdatedAgrees(w, id, ItemPatch(w.mem.items[id].updatedAt, None, None, Some(tags), None), io);
      }
    case SetTitle(id, title, rawLength, io) =>
      if id in w.mem.items {
        UpdatedAgrees(w, id, ItemPatch(w.mem.items[id].updatedAt, Some(title), None, None, None), io);
      }
    case AddTab(tag, now, io) => AddTabAgrees(w, tag, now, io);
    case RemoveTab(tag, io) => RemoveTabAgrees(w, tag, io);
    case Remove(id, io, bad) => RemoveAgrees(w, id, io, bad);
    case EvictNow(now, ios, bad) => EvictAgrees(w, now, ios, bad);
    case EvictPreviews => LockAgrees(w);
    case StartLoad(_) =>
    case EndLoad(bad) => EndAgrees(w, bad);
  }

  /** Refinement, any run of calls. */
  lemma {:induction false} RunAgrees(w: World, ops: seq<Op>)
    requires Agrees(w.mem, w.events)
    ensures Agrees(Played(w, ops).mem, Played(w, ops).events)
  {
    hide Agrees, Do;
    if ops != [] {
      RunAgrees(w, ops[..|ops| - 1]);
      StepAgrees(Played(w, ops[..|ops| - 1]), ops[|ops| - 1]);
    }
  }

  // ---- edits stay ----------------------------------------------------------------------------

  /** The item as the log has it, whether or not memory shows all of it. */
  ghost function Stored(w: World, id: ItemId): Option<Item> {
    if id in Replay(w.events).items then Some(Replay(w.events).items[id]) else None
  }

  /** What a call may be about: the item's title, pin, tags, or recording an item under its id. */
  predicate Retitles(op: Op, id: ItemId) {
    op.SetTitle? && op.id == id
  }

  predicate Repins(op: Op, id: ItemId) {
    op.Pin? && op.id == id
  }

  predicate Retags(op: Op, id: ItemId) {
    op.RemoveTab? || (op.Tag? && op.id == id)
  }

  predicate Recaptures(op: Op, id: ItemId) {
    op.Ingest? && op.newId == id
  }

  /** What one call leaves alone of an item: everything of it that the call is not about. */
  ghost predicate EditsKept(op: Op, id: ItemId, before: Option<Item>, after: Option<Item>) {
    after.Some? ==>
      && before.Some?
      && (Retitles(op, id) || TitleOf(after.value) == TitleOf(before.value))
      && (Repins(op, id) || after.value.pinned == before.value.pinned)
      && (Retags(op, id) || TagsOf(after.value) == TagsOf(before.value))
  }

  ghost predicate SameEdits(before: Option<Item>, after: Option<Item>) {
    after.Some? ==>
      && before.Some? && TitleOf(after.value) == TitleOf(before.value)
      && after.value.pinned == before.value.pinned && TagsOf(after.value) == TagsOf(before.value)
  }

  /** An update reaches one item, and of it what the patch names. */
  lemma UpdatedKeeps(w: World, target: ItemId, patch: ItemPatch, io: Io, id: ItemId)
    requires Agrees(w.mem, w.events) && target in w.mem.items
    ensures var before, after := Stored(w, id), Stored(Updated(w, target, patch, io), id);
            && (id != target ==> after == before)
            && (after.Some? <==> before.Some?)
            && (after.Some? ==>
                  && (patch.title.None? ==> TitleOf(after.value) == TitleOf(before.value))
                  && (patch.pinned.None? ==> after.value.pinned == before.value.pinned)
                  && (patch.tags.None? ==> TagsOf(after.value) == TagsOf(before.value)))
            && (id == target && io.lands && patch.title.Some? ==>
                  after.Some? && TitleOf(after.value) == patch.title.value)
            && (id == target && io.lands && patch.pinned.Some? ==>
                  after.Some? && after.value.pinned == patch.pinned.value)
            && (id == target && io.lands && patch.tags.Some? ==>
                  after.Some? && TagsOf(after.value) == patch.tags.value)
  {
    ItemsAreModern(w.mem, w.events, target);
    ReplayAppend(w.events, StoreEvent(NextNumber(w.events), io.at, UpdateItem(target, patch)));
    hide Replay, Agrees, AfterUpdate;
  }

  lemma IngestKeeps(w: World, c: Candidate, now: int, newId: ItemId, puts: nat -> BlobFate, io: Io, id: ItemId)
    requires Agrees(w.mem, w.events) && id != newId
    ensures SameEdits(Stored(w, id), Stored(IngestEffect(w, c, now, newId, puts, io), id))
  {
    hide Agrees, AfterUpdate, PutAll, AfterAdd, Replay, Updated;
    if !c.skip && newId !in w.mem.items {
      if c.contentHash in w.mem.byHash && w.mem.byHash[c.contentHash] in w.mem.items {
        UpdatedKeeps(w, w.mem.byHash[c.contentHash], ItemPatch(now, None, None, None, None), io, id);
      } else {
        ReplayAppend(w.events, StoreEvent(NextNumber(w.events), io.at, AddItem(NewItem(c, newId, now))));
      }
    }
  }

  lemma {:induction false} DeletionsKeep(
      w: World, plan: seq<Retention.Eviction>, ios: nat -> Io, id: ItemId)
    ensures var after := Replay(Deletions(w.events, plan, ios)).items;
            id in after ==> Stored(w, id) == Some(after[id])
  {
    if plan != [] {
      var n := |plan| - 1;
      DeletionsKeep(w, plan[..n], ios, id);
      var events := Deletions(w.events, plan[..n], ios);
      ReplayAppend(events, StoreEvent(NextNumber(events), ios(n).at, DeleteItem(plan[n].id, plan[n].reason)));
    }
  }

  lemma TabKeeps(w: World, body: Body, io: Io, after: Memory, id: ItemId)
    requires body.CreateTab? || body.DeleteTab?
    ensures var before, now := Stored(w, id), Stored(Commit(w, io, body, after), id);
            && (now.Some? <==> before.Some?)
            && (now.Some? ==>
                  && TitleOf(now.value) == TitleOf(before.value) && now.value.pinned == before.value.pinned
                  && (body.CreateTab? ==> TagsOf(now.value) == TagsOf(before.value)))
  {
    ReplayAppend(w.events, StoreEvent(NextNumber(w.events), io.at, body));
  }

  lemma RemoveKeeps(w: World, target: ItemId, io: Io, bad: Faults, id: ItemId)
    ensures SameEdits(Stored(w, id), Stored(RemoveEffect(w, target, io, bad), id))
  {
    hide Replay, AfterDelete;
    ReplayAppend(w.events, StoreEvent(NextNumber(w.events), io.at, DeleteItem(target, ByUser)));
  }

  /** One call: what it is not about stays as the log has it. */
  lemma StepKeepsEdits(w: World, op: Op, id: ItemId)
    requires Agrees(w.mem, w.events) && !Recaptures(op, id)
    ensures EditsKept(op, id, Stored(w, id), Stored(Do(w, op), id))
  {
    hide Agrees, Updated, IngestEffect, RemoveEffect, Stored, Commit;
    hide ApplyTag, AfterPreviewEviction, TabNames, Carriers, AfterTabCreated, AfterTabDeleted;
    match op
    case Ingest(c, now, newId, puts, io) => IngestKeeps(w, c, now, newId, puts, io, id);
    case Pin(target, pinned, io) =>
      if target in w.mem.items {
        UpdatedKeeps(w, target, ItemPatch(w.mem.items[target].updatedAt, None, Some(pinned), None, None), io, id);
      }
    case Tag(target, tag, tagged, io) =>
      if target in w.mem.items && ApplyTag(TagsOf(w.mem.items[target]), tag, tagged).Changed? {
        var tags := ApplyTag(TagsOf(w.mem.items[target]), tag, tagged).tags;
        UpdatedKeeps(w, target, ItemPatch(w.mem.items[target].updatedAt, None, None, Some(tags), None), io, id);
      }
    case SetTitle(target, title, rawLength, io) =>
      if target in w.mem.items {
        UpdatedKeeps(w, target, ItemPatch(w.mem.items[target].updatedAt, Some(title), None, None, None), io, id);
      }
    case AddTab(tag, now, io) => TabKeeps(w, CreateTab(tag), io, AfterTabCreated(w.mem, tag), id);
    case RemoveTab(tag, io) => TabKeeps(w, DeleteTab(tag), io, AfterTabDeleted(w.mem, tag), id);
    case Remove(target, io, bad) => RemoveKeeps(w, target, io, bad, id);
    case EvictNow(now, ios, bad) => EvictKeeps(w, now, ios, bad, id);
    case EvictPreviews => SameLogKeeps(w, Do(w, op), id);
    case StartLoad(_) => SameLogKeeps(w, Do(w, op), id);
    case EndLoad(_) => SameLogKeeps(w, Do(w, op), id);
  }

  lemma SameLogKeeps(w: World, x: World, id: ItemId)
    requires x.events == w.events
    ensures Stored(x, id) == Stored(w, id)
  {
  }

  lemma EvictKeeps(w: World, now: int, ios: nat -> Io, bad: Faults, id: ItemId)
    ensures SameEdits(Stored(w, id), Stored(EvictEffect(w, now, ios, bad), id))
  {
    hide PlanFor, AfterDeletes, Deletions, LandingPrefix, Replay;
    var plan := PlanFor(w.mem.items, now, w.limits);
    DeletionsKeep(w, plan[..LandingPrefix(ios, |plan|)], ios, id);
  }

  /** None of these calls records a capture under this id. */
  ghost predicate NeverRecaptured(ops: seq<Op>, id: ItemId) {
    forall j :: 0 <= j < |ops| ==> !Recaptures(ops[j], id)
  }

  /**
   * Over any run: an item that is live at the end was live all along, and of its title, pin and tags
   * the log says what it said at the start, unless a call was about them.
   */
  lemma {:induction false} EditsPersist(w: World, ops: seq<Op>, id: ItemId)
    requires Agrees(w.mem, w.events) && NeverRecaptured(ops, id)
    ensures var before, after := Stored(w, id), Stored(Played(w, ops), id);
            after.Some? ==>
              && before.Some?
              && ((forall j :: 0 <= j < |ops| ==> !Retitles(ops[j], id)) ==>
                    TitleOf(after.value) == TitleOf(before.value))
              && ((forall j :: 0 <= j < |ops| ==> !Repins(ops[j], id)) ==>
                    after.value.pinned == before.value.pinned)
              && ((forall j :: 0 <= j < |ops| ==> !Retags(ops[j], id)) ==>
                    TagsOf(after.value) == TagsOf(before.value))
  {
    hide Agrees, Do, Stored, Retitles, Repins, Retags, Recaptures, TitleOf, TagsOf;
    if ops != [] {
      var n := |ops| - 1;
      assert forall j :: 0 <= j < n ==> ops[..n][j] == ops[j];
      EditsPersist(w, ops[..n], id);
      RunAgrees(w, ops[..n]);
      StepKeepsEdits(Played(w, ops[..n]), ops[n], id);
    }
  }

  /** This call sets the title of a live item. */
  ghost predicate TitleGoesThrough(w: World, op: Op) {
    && op.SetTitle? && w.replaying.None? && op.id in w.mem.items && op.rawLength <= TITLE_MAX_CHARS
    && (op.io.lands || (w.mem.previewsLoaded && op.title == TitleOf(w.mem.items[op.id])))
  }

  lemma TitleIsStored(w: World, op: Op)
    requires Agrees(w.mem, w.events) && TitleGoesThrough(w, op)
    ensures Stored(Do(w, op), op.id).Some? && TitleOf(Stored(Do(w, op), op.id).value) == op.title
  {
    ItemsAreModern(w.mem, w.events, op.id);
    hide Agrees, Updated, Replay;
    UpdatedKeeps(w, op.id, ItemPatch(w.mem.items[op.id].updatedAt, Some(op.title), None, None, None), op.io, op.id);
  }

  /**
   * A title that was set, locked or not, is what the log says until another call sets it, whatever
   * else is called, evicted, loaded or fails meanwhile; and it is what memory shows whenever
   * previews show.
   */
  lemma TitlesPersist(w: World, ops: seq<Op>, k: nat)
    requires Agrees(w.mem, w.events) && k < |ops| && TitleGoesThrough(Played(w, ops[..k]), ops[k])
    requires NeverRecaptured(ops[k + 1..], ops[k].id)
    requires forall j :: k < j < |ops| ==> !Retitles(ops[j], ops[k].id)
    requires ops[k].id in Played(w, ops).mem.items
    ensures var x := Played(w, ops);
            && Stored(x, ops[k].id).Some? && TitleOf(Stored(x, ops[k].id).value) == ops[k].title
            && (x.mem.previewsLoaded ==> TitleOf(x.mem.items[ops[k].id]) == ops[k].title)
  {
    var w0, id, rest := Played(w, ops[..k]), ops[k].id, ops[k + 1..];
    hide Do, TitleGoesThrough, NeverRecaptured, TitleOf;
    RunAgrees(w, ops[..k]);
    TitleIsStored(w0, ops[k]);
    StepAgrees(w0, ops[k]);
    assert forall j :: 0 <= j < |rest| ==> !Retitles(rest[j], id);
    EditsPersist(Do(w0, ops[k]), rest, id);
    PlayedInTwo(w, ops, k);
    RunAgrees(w, ops);
    ItemsAreModern(Played(w, ops).mem, Played(w, ops).events, id);
  }

  lemma {:induction false} PlayedInTwo(w: World, ops: seq<Op>, k: nat)
    requires k < |ops|
    ensures Played(w, ops) == Played(Do(Played(w, ops[..k]), ops[k]), ops[k + 1..])
  {
    hide Do;
    var n := |ops| - 1;
    if k < n {
      PlayedInTwo(w, ops[..n], k);
      assert ops[..n][..k] == ops[..k] && ops[..n][k + 1..] == ops[k + 1..][..n - k - 1];
      assert ops[k + 1..][n - k - 1] == ops[n];
    }
  }
}
