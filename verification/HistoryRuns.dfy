/** History driven by arbitrary sequences of calls, locks, loads and relaunches. */
module HistoryRuns {
  import opened Domain
  import opened Records
  import opened EventLog
  import opened LogStore
  import opened StoreObject
  import opened SearchIndex
  import opened HistoryState
  import opened History
  import opened HistorySteps
  import Retention

  ghost function ReplayingOf(h: History): Option<Replaying>
    reads h
  {
    if h.loading.None? then None
    else
      var l := h.loading.value;
      Some(Replaying(Read(l.lines, l.anchorSeq).failure.None?, l.startedAtEpoch))
  }

  ghost function Now(h: History): World
    reads h, h.store
  {
    World(h.Mem(), h.store.Events(), h.store.blobs, ReplayingOf(h), h.evictionEpoch, h.limits)
  }

  /** Nothing waits to be deleted and nothing was orphaned. */
  ghost predicate Tidy(h: History)
    reads h
  {
    h.pendingBlobDeletes == {} && h.orphans == {}
  }

  /** No blob is left behind by this call: an ingest gets through, and unlinks succeed. */
  ghost predicate Clean(op: Op) {
    match op
    case Ingest(_, _, _, puts, io) => AllPut(puts) && io.lands
    case Remove(_, _, bad) => bad.All() == {}
    case EvictNow(_, _, bad) => bad.All() == {}
    case EndLoad(bad) => bad.All() == {}
    case _ => true
  }

  // ---- one call ------------------------------------------------------------------------------

  method DoIngest(h: History, op: Op)
    requires h.Valid() && h.loading.None? && op.Ingest?
    modifies h`items, h`ord, h`byHash, h`orphans, h.store, h.search
    ensures h.Valid() && Now(h) == old(Mutated(Now(h), op))
    ensures Clean(op) && old(Tidy(h)) ==> Tidy(h)
  {
    hide History.Valid, AllPut, PutAll, AfterAdd, AfterUpdate;
    h.NumbersNext();
    h.HashesPointAtItems();
    if op.newId !in h.items {
      var _ := h.Ingest(op.candidate, op.now, op.newId, op.puts, op.io);
    }
  }

  method DoEdit(h: History, op: Op)
    requires h.Valid() && h.loading.None? && (op.Pin? || op.Tag? || op.SetTitle?)
    modifies h`items, h.store, h.search
    ensures h.Valid() && Now(h) == old(Mutated(Now(h), op))
  {
    hide History.Valid, AfterUpdate, ApplyTag;
    h.NumbersNext();
    match op
    case Pin(id, pinned, io) => var _ := h.Pin(id, pinned, io);
    case Tag(id, tag, tagged, io) => var _ := h.Tag(id, tag, tagged, io);
    case SetTitle(id, title, rawLength, io) => var _ := h.SetTitle(id, title, rawLength, io);
  }

  method DoTab(h: History, op: Op)
    requires h.Valid() && h.loading.None? && (op.AddTab? || op.RemoveTab?)
    modifies h`explicitTabs, h`items, h.store, h.search
    ensures h.Valid() && Now(h) == old(Mutated(Now(h), op))
  {
    hide History.Valid, AfterTabDeleted, TabNames, Carriers;
    h.NumbersNext();
    match op
    case AddTab(tag, now, io) => var _ := h.AddTab(tag, now, io);
    case RemoveTab(tag, io) => var _ := h.RemoveTab(tag, io);
  }

  method DoDelete(h: History, op: Op)
    requires h.Valid() && h.loading.None? && (op.Remove? || op.EvictNow?)
    modifies h`items, h`ord, h`byHash, h`pendingBlobDeletes, h.store, h.search
    ensures h.Valid() && Now(h) == old(Mutated(Now(h), op))
    ensures Clean(op) && old(Tidy(h)) ==> Tidy(h)
  {
    hide History.Valid, AfterDelete, AfterDeletes, Deletions, PlanFor, LandingPrefix;
    h.NumbersNext();
    match op
    case Remove(id, io, bad) => var _ := h.Remove(id, io, bad);
    case EvictNow(now, ios, bad) => var _, _ := h.EvictNow(now, ios, bad);
  }

  method Mutate(h: History, op: Op)
    requires h.Valid() && h.loading.None?
    requires !op.EvictPreviews? && !op.StartLoad? && !op.EndLoad?
    modifies h`items, h`ord, h`byHash, h`explicitTabs, h`pendingBlobDeletes, h`orphans, h.store, h.search
    ensures h.Valid() && Now(h) == old(Mutated(Now(h), op))
    ensures Clean(op) && old(Tidy(h)) ==> Tidy(h)
  {
    hide History.Valid, Clean, Mutated;
    if op.Ingest? {
      DoIngest(h, op);
    } else if op.AddTab? || op.RemoveTab? {
      DoTab(h, op);
    } else if op.Remove? || op.EvictNow? {
      DoDelete(h, op);
    } else {
      DoEdit(h, op);
    }
  }

  method Lock(h: History)
    requires h.Valid()
    modifies h`items, h`previewsLoaded, h`evictionEpoch, h.search
    ensures h.Valid() && Now(h) == old(Do(Now(h), EvictPreviews))
  {
    hide Sound, Healthy, Read;
    h.ValidIsAttached();
    h.EvictPreviewCache();
  }

  /** Starts a replay of the log, or of what a damaged disk returns instead of it. */
  method Start(h: History, damaged: Option<seq<Line>>)
    requires h.Valid()
    modifies h`loading
    ensures h.Valid() && Now(h) == old(Do(Now(h), StartLoad(damaged)))
  {
    hide History.Valid, History.Attached, Read, Replay, DistinctHashes;
    h.LogReads();
    h.ValidIsAttached();
    if damaged.Some? && Read(damaged.value, h.store.anchorSeq).failure.Some? {
      h.BeginLoad(damaged.value);
    } else {
      h.BeginLoad(h.store.log);
    }
  }

  method EndReplay(h: History, bad: Faults)
    requires h.Valid() && h.Attached() && h.loading.Some? && DistinctHashes(Replay(h.store.Events()).items)
    modifies h`loading, h`items, h`explicitTabs, h`ord, h`byHash, h`pendingBlobDeletes, h`previewsLoaded
    modifies h.store, h.search
    ensures h.Valid() && h.loading.None?
    ensures Now(h) == old(EndEffect(Now(h), bad))
  {
    hide Replay, Read, History.Valid, History.Attached, Published, HasRoom, FiledAll, Unreferenced, DistinctHashes;
    ghost var w := Now(h);
    var _ := h.FinishLoad(bad);
    assert Now(h) == EndEffect(w, bad);
  }

  lemma EndCases(w: World, bad: Faults)
    ensures w.replaying.None? ==> EndEffect(w, bad) == w
    ensures bad.All() == {} ==> EndEffect(w, bad).mem.pending == {} || EndEffect(w, bad).mem.pending == w.mem.pending
  {
  }

  /** The replay in flight, if there is one, comes to its end. */
  method End(h: History, bad: Faults)
    requires h.Valid()
    modifies h`loading, h`items, h`explicitTabs, h`ord, h`byHash, h`pendingBlobDeletes, h`previewsLoaded
    modifies h.store, h.search
    ensures h.Valid() && Now(h) == old(Do(Now(h), EndLoad(bad)))
    ensures bad.All() == {} && old(Tidy(h)) ==> Tidy(h)
  {
    hide Replay, Read, History.Valid, History.Attached, Published, Unreferenced, DistinctHashes, EndEffect;
    h.LogReads();
    h.ValidIsAttached();
    EndCases(Now(h), bad);
    if h.loading.Some? {
      EndReplay(h, bad);
    }
  }

  /** Any call has exactly its effect, and keeps the invariant; a clean one leaves nothing behind. */
  method Perform(h: History, op: Op)
    requires h.Valid()
    modifies h, h.store, h.search
    ensures h.Valid() && Now(h) == old(Do(Now(h), op))
    ensures Clean(op) && old(Tidy(h)) ==> Tidy(h)
  {
    hide Mutated, EndEffect, StartEffect, AllPut, AfterPreviewEviction, History.Valid, Read;
    match op
    case EvictPreviews => Lock(h);
    case StartLoad(damaged) => Start(h, damaged);
    case EndLoad(bad) => End(h, bad);
    case _ =>
      if h.loading.None? {
        Mutate(h, op);
      }
  }

  // ---- any run of calls ----------------------------------------------------------------------

  /**
   * Refinement over whole runs. Whatever is called, in whatever order, with whichever appends and
   * unlinks failing, the object's state is what the calls lead to one by one; memory stays the replay
   * of the log (scrubbed while locked), no blob a live item needs is ever missing from the disk, every
   * durable state on the way was recoverable, and no record that was committed is lost.
   */
  method Run(h: History, ops: seq<Op>)
    requires h.Valid()
    modifies h, h.store, h.search
    ensures h.Valid() && Now(h) == old(Played(Now(h), ops))
    ensures old(h.store.Events()) <= h.store.Events()
    ensures forall k :: 0 <= k <= |ops| ==> old(Played(Now(h), ops[..k])).events <= h.store.Events()
  {
    hide History.Valid, Do;
    ghost var w := Now(h);
    for i := 0 to |ops|
      invariant h.Valid() && Now(h) == Played(w, ops[..i])
    {
      OneMorePlayed(w, ops[..i], ops[i]);
      assert ops[..i + 1] == ops[..i] + [ops[i]];
      Perform(h, ops[i]);
    }
    assert ops[..|ops|] == ops;
    AllRecordsStay(w, ops);
  }

  lemma AllRecordsStay(w: World, ops: seq<Op>)
    ensures w.events <= Played(w, ops).events
    ensures forall k :: 0 <= k <= |ops| ==> Played(w, ops[..k]).events <= Played(w, ops).events
  {
    hide Do;
    forall k | 0 <= k <= |ops|
      ensures Played(w, ops[..k]).events <= Played(w, ops).events
    {
      RecordsStay(w, ops, k);
    }
    assert Played(w, ops[..0]) == w;
  }

  /**
   * Exact reclamation. While ingests get through and unlinks succeed, the disk holds exactly the
   * blobs that live items refer to, through a representation or a thumbnail, shared or not;
   * failing updates, deletes and loads do not matter.
   */
  method RunCleanly(h: History, ops: seq<Op>)
    requires h.Valid() && Tidy(h) && forall i :: 0 <= i < |ops| ==> Clean(ops[i])
    modifies h, h.store, h.search
    ensures h.Valid() && Tidy(h) && Now(h) == old(Played(Now(h), ops))
    ensures h.store.blobs == RefsOf(Replay(h.store.Events()).items)
  {
    hide History.Valid, Do, Clean, Sound, RefsOf, Replay;
    ghost var w := Now(h);
    for i := 0 to |ops|
      invariant h.Valid() && Tidy(h) && Now(h) == Played(w, ops[..i])
    {
      OneMorePlayed(w, ops[..i], ops[i]);
      assert ops[..i + 1] == ops[..i] + [ops[i]];
      Perform(h, ops[i]);
    }
    assert ops[..|ops|] == ops;
    h.IsSound();
    NothingWaitingMeansExact(h.Mem(), h.store.Events(), h.store.blobs);
  }

  /** No replay that began after the last eviction is in flight. */
  ghost predicate OnlyStaleLoads(w: World) {
    w.replaying.Some? ==> w.replaying.value.startedAtEpoch < w.epoch
  }

  /** A load was started at step s and no eviction came after it. */
  ghost predicate StartedFresh(ops: seq<Op>, s: int) {
    0 <= s < |ops| && ops[s].StartLoad? && forall k :: s < k < |ops| ==> !ops[k].EvictPreviews?
  }

  ghost predicate FreshStart(ops: seq<Op>) {
    exists s :: StartedFresh(ops, s)
  }

  /** A load was started and later ended, and no eviction came after its start. */
  ghost predicate FreshLoad(ops: seq<Op>) {
    exists s, e :: StartedFresh(ops, s) && s < e < |ops| && ops[e].EndLoad?
  }

  lemma OneMoreOp(ops: seq<Op>, op: Op)
    ensures !op.EvictPreviews? && FreshStart(ops) ==> FreshStart(ops + [op])
    ensures !op.EvictPreviews? && FreshLoad(ops) ==> FreshLoad(ops + [op])
    ensures op.StartLoad? ==> FreshStart(ops + [op])
    ensures op.EndLoad? && FreshStart(ops) ==> FreshLoad(ops + [op])
  {
    var next := ops + [op];
    if !op.EvictPreviews? && FreshStart(ops) {
      var s :| StartedFresh(ops, s);
      assert StartedFresh(next, s) && s < |ops| && next[|ops|] == op;
    }
    if !op.EvictPreviews? && FreshLoad(ops) {
      var s, e :| StartedFresh(ops, s) && s < e < |ops| && ops[e].EndLoad?;
      assert StartedFresh(next, s) && next[e].EndLoad?;
    }
    if op.StartLoad? {
      assert StartedFresh(next, |ops|);
    }
  }

  /** Only the end of a fresh enough load shows previews again; only a start makes a load fresh. */
  lemma StepLocks(w: World, op: Op)
    ensures var x := Do(w, op);
            && (op.EvictPreviews? ==> !x.mem.previewsLoaded && x.epoch == w.epoch + 1 && x.replaying == w.replaying)
            && (!op.EvictPreviews? ==> x.epoch == w.epoch)
            && (!op.EndLoad? && !op.EvictPreviews? ==> x.mem.previewsLoaded == w.mem.previewsLoaded)
            && (op.EndLoad? && x.mem.previewsLoaded && !w.mem.previewsLoaded ==>
                  w.replaying.Some? && w.replaying.value.startedAtEpoch == w.epoch)
            && (op.EndLoad? ==> x.replaying.None?)
            && (!op.EndLoad? && !op.StartLoad? ==> x.replaying == w.replaying)
            && (op.StartLoad? && w.replaying.Some? ==> x.replaying == w.replaying)
  {
    hide Replay, PlanFor, Deletions, PutAll, ApplyTag, TabNames, Carriers, Unreferenced, NewItem, Read, RefsOf;
    if op.EvictNow? {
      var plan := PlanFor(w.mem.items, op.now, w.limits);
      DeletesLock(w.mem, plan[..LandingPrefix(op.ios, |plan|)]);
    }
  }

  lemma {:induction false} DeletesLock(m: Memory, plan: seq<Retention.Eviction>)
    ensures AfterDeletes(m, plan).previewsLoaded == m.previewsLoaded
  {
    if plan != [] {
      DeletesLock(m, plan[..|plan| - 1]);
    }
  }

  /** Over any run from a locked state: previews show only after a whole load that started after the last eviction. */
  lemma {:induction false} LockedRuns(w: World, ops: seq<Op>)
    requires !w.mem.previewsLoaded && OnlyStaleLoads(w)
    ensures var x := Played(w, ops);
            && (x.mem.previewsLoaded ==> FreshLoad(ops))
            && (x.replaying.Some? ==> x.replaying.value.startedAtEpoch <= x.epoch)
            && (x.replaying.Some? && x.replaying.value.startedAtEpoch == x.epoch ==> FreshStart(ops))
  {
    hide Do, FreshLoad, FreshStart;
    if ops != [] {
      var init, last := ops[..|ops| - 1], ops[|ops| - 1];
      LockedRuns(w, init);
      StepLocks(Played(w, init), last);
      OneMoreOp(init, last);
      assert ops == init + [last];
      if last.StartLoad? && Played(w, init).replaying.None? {
        StartsNow(Played(w, init), last);
      }
    }
  }

  lemma StartsNow(w: World, op: Op)
    requires op.StartLoad? && w.replaying.None?
    ensures Do(w, op).replaying.Some? && Do(w, op).replaying.value.startedAtEpoch == w.epoch
  {
  }

  /**
   * Locking survives concurrency. After an eviction, under any calls in any order, previews show
   * again only if the run contains a whole load that started after the last eviction; a replay
   * from before it that ends in the meantime shows nothing. Until then no item holds a preview, a
   * title or a mask span, and the search index is empty. Calls made meanwhile have their effect all
   * the same: their records are in the log (and see `TitlesPersist`).
   */
  method RunLocked(h: History, ops: seq<Op>)
    requires h.Valid() && !h.previewsLoaded && OnlyStaleLoads(Now(h))
    modifies h, h.store, h.search
    ensures h.Valid() && Now(h) == old(Played(Now(h), ops))
    ensures forall k :: 0 <= k <= |ops| ==> old(Played(Now(h), ops[..k])).events <= h.store.Events()
    ensures h.previewsLoaded ==> FreshLoad(ops)
    ensures !h.previewsLoaded ==> h.search.entries == []
    ensures !h.previewsLoaded ==> forall id :: id in h.items ==>
              h.items[id].preview == "" && h.items[id].title == Some(None) && h.items[id].maskSpans == []
  {
    hide Sound, Healthy, Agrees, FreshStart, FreshLoad, Played;
    LockedRuns(Now(h), ops);
    Run(h, ops);
    if !h.previewsLoaded {
      SoundAgrees(h.Mem(), h.store.Events(), h.store.blobs, h.orphans);
      LockedHoldsNothing(h.Mem(), h.store.Events(), h.search.entries);
    }
  }

  /**
   * Quit and relaunch: a new process over the same directory rebuilds the same items, order and
   * tabs, unlocked, and reclaims every blob the log says was freed.
   */
  method Relaunch(h: History, at: int, nonce: nat) returns (h': History)
    requires h.Valid()
    ensures fresh(h') && h'.Valid() && h'.previewsLoaded && h'.store.Events() == h.store.Events()
    ensures h'.items == Replay(h.store.Events()).items && h'.ord == h.ord && h'.explicitTabs == h.explicitTabs
    ensures h.previewsLoaded ==> h'.items == h.items
    ensures h'.pendingBlobDeletes == {}
    ensures h.orphans == {} ==> h'.store.blobs == RefsOf(Replay(h.store.Events()).items)
  {
    hide History.Valid, Sound, Read, Healthy, Replay, RefsOf, Generation, Reopened, AllReadable, ShownAll;
    h.IsSound();
    h.LogReopens();
    SoundIsHealthy(h.Mem(), h.store.Events(), h.store.blobs, h.orphans);
    var found := Store.Open(h.store.log, h.store.blobs, at, nonce, true);
    h' := LoadFresh(found.value, h.limits);
    PublishedAgrees(h.Mem(), h.store.Events(), h.store.blobs, h.orphans);
    if h.orphans == {} {
      AllReferencedOrFreed(h.Mem(), h.store.Events(), h.store.blobs);
    }
  }

  /** What a fresh load publishes is what a memory in step with the log holds. */
  lemma PublishedAgrees(m: Memory, events: seq<StoreEvent>, blobs: set<BlobId>, orphans: set<BlobId>)
    requires Sound(m, events, blobs, orphans)
    ensures var v := Replay(events);
            && ShownAll(v.items, true) == v.items && v.tabs == m.tabs && v.ord == m.ord
            && (m.previewsLoaded ==> m.items == v.items)
  {
    AllShown(Replay(events).items);
  }

  /** Attaches to a store and loads it, with nothing in the way. */
  method LoadFresh(store: Store, limits: Retention.Limits) returns (h: History)
    requires store.Valid() && store.disks == [Disk(store.Events(), store.blobs)]
    requires Healthy(Disk(store.Events(), store.blobs))
    modifies store
    ensures fresh(h) && fresh(h.search) && h.store == store && h.Valid() && h.previewsLoaded
    ensures store.Events() == old(store.Events())
    ensures h.pendingBlobDeletes == {}
    ensures var v := Replay(store.Events());
            && h.Mem() == Published(v, true, {}).(pending := {})
            && store.blobs == old(store.blobs) - (v.freed - RefsOf(v.items))
  {
    hide Sound, Replay, Read, NoDangling, DistinctHashes, RefsOf, IndexByHash, ShownAll, AllReadable, HasRoom, FiledAll;
    var index := new SearchIndex(None);
    h := new History(store, index, limits);
    h.BeginLoad(store.log);
    LogReplays(store.State());
    var _ := h.FinishLoad(NO_FAULTS);
    ShownKeepsRefs(Replay(store.Events()).items, true);
  }

  lemma AllReferencedOrFreed(m: Memory, events: seq<StoreEvent>, blobs: set<BlobId>)
    requires Sound(m, events, blobs, {})
    ensures var v := Replay(events);
            blobs - (v.freed - RefsOf(v.items)) == RefsOf(v.items)
  {
    ShownKeepsRefs(Replay(events).items, m.previewsLoaded);
  }

  lemma AllShown(items: map<ItemId, Item>)
    ensures ShownAll(items, true) == items
  {
  }

  /**
   * Crash at any point. Whichever durable state the disk was caught in, a fresh load of it
   * establishes the invariant, with every live item's blobs present.
   */
  lemma CrashRecovers(h: History, k: nat)
    requires h.Valid() && k < |h.store.disks|
    ensures var d := h.store.disks[k];
            var v := Replay(d.events);
            && Healthy(d)
            && Sound(Published(v, true, {}), d.events, d.blobs, d.blobs - RefsOf(v.items) - v.freed)
            && RefsOf(v.items) <= d.blobs
  {
    var d := h.store.disks[k];
    PublishedSound(d, true, {}, d.blobs - RefsOf(Replay(d.events).items) - Replay(d.events).freed);
  }
}
