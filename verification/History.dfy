/**
 * History: the in-memory items, tabs, order, duplicate index, pending blob deletions and search
 * index, kept in step with the store's log by every operation.
 */
module History {
  import opened Domain
  import opened Records
  import opened EventLog
  import opened LogStore
  import opened StoreObject
  import opened SearchIndex
  import opened HistoryState
  import opened Sorting
  import Retention

  /** The wall clock and the random nonce an append uses, and whether the file system keeps it. */
  datatype Io = Io(at: int, nonce: nat, lands: bool)

  /** Which unlinks report an error: of those, some leave the blob there and some do not. */
  datatype Faults = Faults(stuck: set<BlobId>, unsynced: set<BlobId>) {
    function All(): set<BlobId> {
      stuck + unsynced
    }

    function FateOf(b: BlobId): BlobFate {
      if b in stuck then Failed else if b in unsynced then Unsynced else Synced
    }
  }

  const NO_FAULTS := Faults({}, {})

  /** A replay in flight: the file it read, and the eviction epoch it started in. */
  datatype Loading = Loading(lines: seq<Line>, anchorSeq: int, startedAtEpoch: nat)

  /** A captured change, with what the privacy layer says about it. */
  datatype Candidate = Candidate(
    reps: seq<ResolvedRep>, contentHash: ContentHash, thumbnailJpeg: Option<Bytes>,
    skip: bool, secret: bool, preview: string, previewTruncated: bool, maskSpans: seq<MaskSpan>)

  datatype IngestOutcome = Added(item: Item) | Duplicate(item: Item) | Skipped

  class History {
    const store: Store
    const search: SearchIndex
    var items: map<ItemId, Item>
    var explicitTabs: set<string>
    var ord: map<ItemId, int>
    var byHash: map<ContentHash, ItemId>
    var pendingBlobDeletes: set<BlobId>
    var previewsLoaded: bool
    var evictionEpoch: nat
    var loading: Option<Loading>
    var limits: Retention.Limits
    /** Blobs written by an ingest whose record never landed; only compaction finds them. */
    ghost var orphans: set<BlobId>

    ghost function Mem(): Memory
      reads this
    {
      Memory(items, explicitTabs, ord, byHash, pendingBlobDeletes, previewsLoaded)
    }

    /** A crash in any state the disk has ever been in leaves a log that loads, with all its blobs. */
    ghost predicate CrashSafe()
      reads store
    {
      forall i :: 0 <= i < |store.disks| ==> Healthy(store.disks[i])
    }

    /**
     * A replay in flight read the current file, or a damaged one that it will reject: every
     * operation that appends waits for it to end.
     */
    ghost predicate LoadingConsistent()
      reads this, store
    {
      loading.Some? ==>
        && loading.value.startedAtEpoch <= evictionEpoch
        && (loading.value.lines == store.log || Read(loading.value.lines, loading.value.anchorSeq).failure.Some?)
        && loading.value.anchorSeq == store.anchorSeq
    }

    /** Attached to a healthy store, whether or not it has loaded. */
    ghost predicate Attached()
      reads this, store, search
    {
      && store.Valid() && search.Valid()
      && Healthy(Disk(store.Events(), store.blobs))
      && CrashSafe()
      && LoadingConsistent()
      && pendingBlobDeletes <= Replay(store.Events()).freed
      && store.blobs <= RefsOf(Replay(store.Events()).items) + Replay(store.Events()).freed + orphans
    }

    /** The store and the disk are in the state that this memory belongs to. */
    ghost predicate Backs(m: Memory)
      reads this, store, search
    {
      && store.Valid() && search.Valid()
      && CrashSafe()
      && LoadingConsistent()
      && Sound(m, store.Events(), store.blobs, orphans)
    }

    ghost predicate Valid()
      reads this, store, search
    {
      Backs(Mem()) && IndexAgrees(search.entries, Mem())
    }

    /** The record that appending this body now would commit. */
    ghost function NextEvent(body: Body, io: Io): StoreEvent
      reads store
    {
      StoreEvent(MaxSeq(store.State()) + 1, io.at, body)
    }

    /**
     * Before the first load memory is empty, so it agrees with the log exactly when the log brings
     * nothing back.
     */
    constructor (store: Store, search: SearchIndex, limits: Retention.Limits)
      requires store.Valid() && search.Valid() && search.entries == []
      requires forall i :: 0 <= i < |store.disks| ==> Healthy(store.disks[i])
      ensures Attached() && this.store == store && this.search == search && loading == None && previewsLoaded
      ensures Agrees(Mem(), store.Events()) <==>
                Replay(store.Events()).items == map[] && Replay(store.Events()).tabs == {}
    {
      this.store, this.search, this.limits := store, search, limits;
      items, explicitTabs, ord, byHash, pendingBlobDeletes := map[], {}, map[], map[], {};
      previewsLoaded, evictionEpoch, loading := true, 0, None;
      orphans := store.blobs - RefsOf(Replay(store.Events()).items) - Replay(store.Events()).freed;
      EmptyMemoryAgrees(store.Events());
    }

    // ---- one record, then memory -------------------------------------------------------------

    /** Commits one record; afterwards the disk backs `target`, the memory that must follow. */
    method Append(body: Body, io: Io, ghost target: Memory) returns (r: Result<StoreEvent>)
      requires Backs(Mem()) && loading.None? && !body.Mark? && (body.AddItem? ==> BlobIds(body.item) <= store.blobs)
      requires Sound(target, store.Events() + [NextEvent(body, io)], store.blobs, orphans)
      modifies store
      ensures store.blobs == old(store.blobs) && store.Valid() && search.Valid()
      ensures r == if io.lands then Ok(old(NextEvent(body, io))) else Err(StoreIo)
      ensures io.lands ==> Backs(target) && store.Events() == old(store.Events()) + [r.value]
      ensures !io.lands ==> Backs(Mem()) && store.Events() == old(store.Events())
    {
      hide Sound, Read, Healthy, EventsOf;
      SoundIsHealthy(target, store.Events() + [NextEvent(body, io)], store.blobs, orphans);
      r := store.AppendEvent(body, io.at, io.nonce, if io.lands then Written else Unwritten);
    }

    /** The item's current entry was put into the index, unless previews are evicted. */
    twostate predicate Filed(it: Item)
      reads this, search
    {
      it.id in ord && Refiled(old(search.entries), search.entries, Mem(), it, search.capacity)
    }

    /** Appends an update and remembers the patched item. */
    method CommitUpdate(id: ItemId, patch: ItemPatch, io: Io) returns (r: Result<Item>)
      requires Valid() && loading.None? && id in items
      modifies this`items, store, search
      ensures Valid() && store.blobs == old(store.blobs)
      ensures r == if io.lands then Ok(Patched(old(items[id]), patch)) else Err(StoreIo)
      ensures io.lands ==> Mem() == old(AfterUpdate(Mem(), id, patch))
      ensures io.lands ==> store.Events() == old(store.Events()) + [old(NextEvent(UpdateItem(id, patch), io))]
      ensures !io.lands ==> Mem() == old(Mem()) && store.Events() == old(store.Events())
      ensures io.lands ==> Filed(Patched(old(items[id]), patch))
      ensures !io.lands ==> search.entries == old(search.entries)
    {
      hide Agrees, IndexAgrees, Replay;
      var next := Patched(items[id], patch);
      UpdateSound(Mem(), store.Events(), store.blobs, orphans, NextEvent(UpdateItem(id, patch), io));
      ItemsAreModern(Mem(), store.Events(), id);
      var appended := Append(UpdateItem(id, patch), io, AfterUpdate(Mem(), id, patch));
      if appended.Err? {
        return Err(appended.error);
      }
      Adopt(next);
      return Ok(next);
    }

    /** Remembers an item whose record has just been committed, and files it for search. */
    method Adopt(it: Item)
      requires Backs(Remembered(Mem(), it)) && IndexAgrees(search.entries, Mem()) && it.id in ord
      modifies this`items, search
      ensures Valid() && Mem() == old(Remembered(Mem(), it)) && Filed(it)
    {
      Refile(it);
    }

    method Refile(it: Item)
      requires search.Valid() && IndexAgrees(search.entries, Mem()) && it.id in ord
      modifies this`items, search
      ensures search.Valid() && IndexAgrees(search.entries, Mem()) && Mem() == old(Remembered(Mem(), it)) && Filed(it)
    {
      ghost var before := Mem();
      items := items[it.id := if previewsLoaded then it else ScrubPreview(it)];
      Reindex(it);
      IndexAfterRemember(old(search.entries), search.entries, before, it);
    }

    /** Files the item's current entry, unless previews are evicted. */
    method Reindex(it: Item)
      requires search.Valid() && it.id in ord
      modifies search
      ensures search.Valid()
      ensures forall e :: e in search.entries ==>
                (previewsLoaded && e == EntryOf(it, ord[it.id]))
                || (e in old(search.entries) && (previewsLoaded ==> e.id != it.id))
      ensures Filed(it)
    {
      if !previewsLoaded {
        return;
      }
      search.Add(EntryOf(it, ord[it.id]));
    }

    /** Appends a new item and remembers it. */
    method CommitAdd(it: Item, io: Io) returns (r: Result<StoreEvent>)
      requires Valid() && loading.None?
      requires it.id !in items && it.contentHash !in byHash && it.title.Some? && it.tags.Some?
      requires BlobIds(it) <= store.blobs
      modifies this`items, this`ord, this`byHash, store, search
      ensures Valid() && store.blobs == old(store.blobs)
      ensures r == if io.lands then Ok(old(NextEvent(AddItem(it), io))) else Err(StoreIo)
      ensures io.lands ==> Mem() == old(AfterAdd(Mem(), it, MaxSeq(store.State()) + 1))
      ensures io.lands ==> store.Events() == old(store.Events()) + [r.value] && Filed(it)
      ensures !io.lands ==> Mem() == old(Mem()) && store.Events() == old(store.Events())
      ensures !io.lands ==> search.entries == old(search.entries)
    {
      AddSound(Mem(), store.Events(), store.blobs, orphans, NextEvent(AddItem(it), io));
      ghost var target := AfterAdd(Mem(), it, MaxSeq(store.State()) + 1);
      r := Append(AddItem(it), io, target);
      if r.Ok? {
        AdoptNew(it, r.value.seqNo);
      }
    }

    method AdoptNew(it: Item, seqNo: int)
      requires Backs(AfterAdd(Mem(), it, seqNo)) && IndexAgrees(search.entries, Mem()) && it.id !in items
      modifies this`items, this`ord, this`byHash, search
      ensures Valid() && Mem() == old(AfterAdd(Mem(), it, seqNo)) && Filed(it)
    {
      hide Sound, Healthy, Read, Refiled;
      ghost var target := AfterAdd(Mem(), it, seqNo);
      ord := ord[it.id := seqNo];
      byHash := byHash[it.contentHash := it.id];
      assert Remembered(Mem(), it) == target;
      Adopt(it);
    }

    /** Appends a delete, queues the item's blobs and forgets the item. */
    method CommitDelete(id: ItemId, reason: DeleteReason, io: Io) returns (r: Result<StoreEvent>)
      requires Valid() && loading.None? && id in items
      modifies this`items, this`ord, this`byHash, this`pendingBlobDeletes, store, search
      ensures Valid() && store.blobs == old(store.blobs)
      ensures r == if io.lands then Ok(old(NextEvent(DeleteItem(id, reason), io))) else Err(StoreIo)
      ensures io.lands ==> Mem() == old(AfterDelete(Mem(), id))
      ensures io.lands ==> store.Events() == old(store.Events()) + [r.value]
      ensures !io.lands ==> Mem() == old(Mem()) && store.Events() == old(store.Events())
      ensures search.entries == if io.lands then Excluding(old(search.entries), {id}) else old(search.entries)
    {
      hide Agrees, AfterDelete, IndexAgrees, Replay;
      DeleteSound(Mem(), store.Events(), store.blobs, orphans, NextEvent(DeleteItem(id, reason), io));
      ItemsAreModern(Mem(), store.Events(), id);
      r := Append(DeleteItem(id, reason), io, AfterDelete(Mem(), id));
      if r.Ok? {
        Forget(id);
      }
    }

    method Forget(id: ItemId)
      requires id in items && Backs(AfterDelete(Mem(), id)) && IndexAgrees(search.entries, Mem())
      modifies this`items, this`ord, this`byHash, this`pendingBlobDeletes, search
      ensures Valid() && Mem() == old(AfterDelete(Mem(), id)) && search.entries == Excluding(old(search.entries), {id})
    {
      hide Sound, Healthy, Read, IndexAgrees, AfterDelete;
      ForgetItem(id);
    }

    method ForgetItem(id: ItemId)
      requires search.Valid() && IndexAgrees(search.entries, Mem()) && id in items
      modifies this`items, this`ord, this`byHash, this`pendingBlobDeletes, search
      ensures search.Valid() && IndexAgrees(search.entries, Mem()) && Mem() == old(AfterDelete(Mem(), id))
      ensures search.entries == Excluding(old(search.entries), {id})
    {
      var it := items[id];
      IndexAfterForget(search.entries, Mem(), id);
      pendingBlobDeletes := pendingBlobDeletes + BlobIds(it);
      items := items - {id};
      ord := ord - {id};
      var _ := search.Remove(id);
      if it.contentHash in byHash && byHash[it.contentHash] == id {
        byHash := byHash - {it.contentHash};
      }
    }

    method CommitTabCreated(tag: string, io: Io) returns (r: Result<StoreEvent>)
      requires Valid() && loading.None? && tag != ""
      modifies this`explicitTabs, store
      ensures Valid() && store.blobs == old(store.blobs)
      ensures r == if io.lands then Ok(old(NextEvent(CreateTab(tag), io))) else Err(StoreIo)
      ensures io.lands ==> Mem() == old(AfterTabCreated(Mem(), tag))
      ensures io.lands ==> store.Events() == old(store.Events()) + [r.value]
      ensures !io.lands ==> Mem() == old(Mem()) && store.Events() == old(store.Events())
    {
      TabCreatedSound(Mem(), store.Events(), store.blobs, orphans, NextEvent(CreateTab(tag), io));
      r := Append(CreateTab(tag), io, AfterTabCreated(Mem(), tag));
      if r.Ok? {
        explicitTabs := explicitTabs + {tag};
      }
    }

    /** Appends a tab deletion and takes the tag off every item that carries it. */
    method CommitTabDeleted(tag: string, affected: set<ItemId>, io: Io) returns (r: Result<StoreEvent>)
      requires Valid() && loading.None? && tag != ""
      requires affected == set id | id in items && tag in TagsOf(items[id])
      modifies this`explicitTabs, this`items, store, search
      ensures Valid() && store.blobs == old(store.blobs)
      ensures r == if io.lands then Ok(old(NextEvent(DeleteTab(tag), io))) else Err(StoreIo)
      ensures io.lands ==> Mem() == old(AfterTabDeleted(Mem(), tag))
      ensures io.lands ==> store.Events() == old(store.Events()) + [r.value]
      ensures !io.lands ==> Mem() == old(Mem()) && store.Events() == old(store.Events())
      ensures !io.lands || !previewsLoaded ==> search.entries == old(search.entries)
      ensures io.lands && HasRoom(Mem(), search.capacity) ==>
                FiledAll(search.entries, Mem(), affected) && KeepsOthers(old(search.entries), search.entries, affected)
    {
      hide Sound, Healthy, Read, FiledAll, KeepsOthers, IndexAgrees, Untagging, AfterTabDeleted, HasRoom;
      hide DistinctHashes, NoDangling, RefsOf;
      ghost var m := Mem();
      SoundAgrees(m, store.Events(), store.blobs, orphans);
      TabDeletedSound(m, store.Events(), store.blobs, orphans, NextEvent(DeleteTab(tag), io));
      UntaggingStarts(m, store.Events(), tag, affected);
      ItemsFiledById(m, store.Events());
      r := Append(DeleteTab(tag), io, AfterTabDeleted(m, tag));
      if r.Ok? {
        IndexIgnoresTabs(search.entries, m, explicitTabs - {tag});
        explicitTabs := explicitTabs - {tag};
        UntagItems(tag, affected, m);
      }
    }

    method UntagItems(tag: string, affected: set<ItemId>, ghost m: Memory)
      requires search.Valid() && IndexAgrees(search.entries, Mem()) && m.ord.Keys == m.items.Keys
      requires Mem() == Untagging(m, tag, affected) && affected <= m.items.Keys
      requires forall id :: id in m.items ==> m.items[id].id == id
      modifies this`items, search
      ensures search.Valid() && IndexAgrees(search.entries, Mem()) && Mem() == AfterTabDeleted(m, tag)
      ensures !m.previewsLoaded ==> search.entries == old(search.entries)
      ensures HasRoom(Mem(), search.capacity) ==>
                FiledAll(search.entries, Mem(), affected) && KeepsOthers(old(search.entries), search.entries, affected)
    {
      hide FiledSoFar, FiledAll, KeepsOthers;
      var rest := affected;
      NothingFiled(m, Mem(), search.entries, affected, search.capacity);
      while rest != {}
        invariant rest <= affected && search.Valid()
        invariant Mem() == Untagging(m, tag, rest) && IndexAgrees(search.entries, Mem())
        invariant FiledSoFar(m, Mem(), old(search.entries), search.entries, affected, rest, search.capacity)
        decreases rest
      {
        var id :| id in rest;
        ghost var before, entries := Mem(), search.entries;
        UntaggingStep(m, tag, rest, id);
        Refile(Untag(items[id], tag));
        FiledOneMore(m, tag, before, old(search.entries), entries, search.entries, affected, rest, id, search.capacity);
        rest := rest - {id};
      }
      UntaggingEnds(m, tag);
      AllFiled(m, Mem(), old(search.entries), search.entries, affected, search.capacity);
      RoomStays(m, tag, search.capacity);
    }

    // ---- blobs -------------------------------------------------------------------------------

    /** A blob something still shows is no longer waiting to be deleted. */
    method KeepReferencedBlobs()
      requires Valid()
      modifies this`pendingBlobDeletes
      ensures Valid() && Mem() == old(Mem()).(pending := old(pendingBlobDeletes) - RefsOf(items))
    {
      ghost var before := Mem();
      DropReferenced();
      KeepingSound(before, store.Events(), store.blobs, orphans);
    }

    method DropReferenced()
      modifies this`pendingBlobDeletes
      ensures pendingBlobDeletes == old(pendingBlobDeletes) - RefsOf(items)
    {
      var rest := items.Keys;
      while rest != {}
        invariant rest <= items.Keys
        invariant pendingBlobDeletes == old(pendingBlobDeletes) - RefsOf(items - rest)
        decreases rest
      {
        var id :| id in rest;
        assert items - (rest - {id}) == (items - rest)[id := items[id]];
        RefsOfVisit(items - rest, id, items[id]);
        pendingBlobDeletes := pendingBlobDeletes - BlobIds(items[id]);
        rest := rest - {id};
      }
      assert items - {} == items;
    }

    /** Deletes one waiting blob that nothing refers to. */
    method Unlink(b: BlobId, fate: BlobFate) returns (ok: bool)
      requires Valid() && b in pendingBlobDeletes && b !in RefsOf(items)
      modifies this`pendingBlobDeletes, store
      ensures Valid() && store.Events() == old(store.Events())
      ensures ok <==> b !in old(store.blobs) || fate.Synced?
      ensures store.blobs == if fate.Failed? then old(store.blobs) else old(store.blobs) - {b}
      ensures Mem() == if ok then old(Mem()).(pending := old(pendingBlobDeletes) - {b}) else old(Mem())
    {
      hide Sound, Healthy, Read, RefsOf, Replay, Generation, AllReadable;
      UnlinkSound(Mem(), store.Events(), store.blobs, orphans, b);
      SoundIsHealthy(Mem().(pending := pendingBlobDeletes - {b}), store.Events(), store.blobs - {b}, orphans);
      var deleted := store.DeleteBlob(b, fate);
      ok := deleted.Ok?;
      if ok {
        pendingBlobDeletes := pendingBlobDeletes - {b};
      }
    }

    /** Deletes every waiting blob that no item refers to; `bad` says which unlinks fail. */
    method DeleteUnreferencedBlobs(bad: Faults) returns (r: Result<()>)
      requires Valid()
      modifies this`pendingBlobDeletes, store
      ensures Valid() && store.Events() == old(store.Events())
      ensures Mem() == old(Mem()).(pending := Unreferenced(old(Mem())) * bad.All() * old(store.blobs))
      ensures store.blobs == old(store.blobs) - (Unreferenced(old(Mem())) - bad.stuck)
      ensures r == if pendingBlobDeletes == {} then Ok(()) else Err(StoreIo)
    {
      KeepReferencedBlobs();
      r := UnlinkAll(bad);
    }

    method UnlinkAll(bad: Faults) returns (r: Result<()>)
      requires Valid() && pendingBlobDeletes !! RefsOf(items)
      modifies this`pendingBlobDeletes, store
      ensures Valid() && store.Events() == old(store.Events())
      ensures Mem() == old(Mem()).(pending := old(pendingBlobDeletes * bad.All() * store.blobs))
      ensures store.blobs == old(store.blobs - (pendingBlobDeletes - bad.stuck))
      ensures r == if pendingBlobDeletes == {} then Ok(()) else Err(StoreIo)
    {
      ghost var all, blobs0 := pendingBlobDeletes, store.blobs;
      var todo := pendingBlobDeletes;
      r := Ok(());
      while todo != {}
        invariant Valid() && store.Events() == old(store.Events())
        invariant Mem() == old(Mem()).(pending := pendingBlobDeletes)
        invariant Swept(all, bad, blobs0, todo, pendingBlobDeletes, store.blobs)
        invariant r == if pendingBlobDeletes == todo then Ok(()) else Err(StoreIo)
        decreases todo
      {
        var b :| b in todo;
        ghost var pending, blobs := pendingBlobDeletes, store.blobs;
        var ok := Unlink(b, bad.FateOf(b));
        SweepStep(all, bad, blobs0, todo, pending, blobs, b);
        todo := todo - {b};
        if !ok && r.Ok? {
          r := Err(StoreIo);
        }
      }
    }

    // ---- loading and locking -----------------------------------------------------------------

    lemma ValidIsAttached()
      requires Valid()
      ensures Attached()
    {
      SoundIsHealthy(Mem(), store.Events(), store.blobs, orphans);
      ShownKeepsRefs(Replay(store.Events()).items, previewsLoaded);
    }

    /**
     * Starts a replay unless one is in flight. `lines` is what the file system returns: the log, or
     * something damaged enough to be rejected.
     */
    method BeginLoad(lines: seq<Line>)
      requires Attached()
      requires lines == store.log || Read(lines, store.anchorSeq).failure.Some?
      modifies this`loading
      ensures Attached() && loading.Some?
      ensures old(loading).None? ==> loading == Some(Loading(lines, store.anchorSeq, evictionEpoch))
      ensures old(loading).Some? ==> loading == old(loading)
      ensures old(Valid()) ==> Valid()
    {
      if loading.None? {
        loading := Some(Loading(lines, store.anchorSeq, evictionEpoch));
      }
    }

    /** A file that is not rejected is the log, and its records are the events. */
    lemma LoadsTheLog()
      requires Attached() && loading.Some?
      ensures var reading := Read(loading.value.lines, loading.value.anchorSeq);
              reading.failure.None? ==> reading.events == store.Events()
    {
      LogReplays(store.State());
    }

    method DropLoading()
      requires Attached()
      modifies this`loading
      ensures Attached() && loading.None? && (old(Valid()) ==> Valid())
    {
      loading := None;
    }

    /**
     * Ends the replay. A rejected file changes nothing. Otherwise one complete snapshot is
     * published; its previews show only if no eviction happened since the replay started.
     */
    method FinishLoad(bad: Faults) returns (r: Result<nat>)
      requires Attached() && loading.Some?
      modifies this`loading, this`items, this`explicitTabs, this`ord, this`byHash, this`pendingBlobDeletes,
               this`previewsLoaded, store, search
      ensures loading.None? && store.Events() == old(store.Events())
      ensures old(Read(loading.value.lines, loading.value.anchorSeq)).failure.Some? ==>
                && r.Err? && Attached() && Mem() == old(Mem()) && store.blobs == old(store.blobs)
                && (old(Valid()) ==> Valid())
      ensures old(Read(loading.value.lines, loading.value.anchorSeq)).failure.None? ==>
                && Valid()
                && previewsLoaded == old(loading.value.startedAtEpoch == evictionEpoch)
                && (HasRoom(Mem(), search.capacity) ==> FiledAll(search.entries, Mem(), items.Keys))
                && (r.Ok? <==> pendingBlobDeletes == {})
                && var m := Published(Replay(store.Events()), previewsLoaded, old(pendingBlobDeletes));
                   && Mem() == m.(pending := Unreferenced(m) * bad.All() * old(store.blobs))
                   && store.blobs == old(store.blobs) - (Unreferenced(m) - bad.stuck)
    {
      hide Attached, Valid, Published, Unreferenced, FiledAll, HasRoom;
      LoadsTheLog();
      var startedAtEpoch := loading.value.startedAtEpoch;
      var replayed := ReplayFile(loading.value.lines, loading.value.anchorSeq);
      DropLoading();
      if replayed.Err? {
        return Err(replayed.error);
      }
      var swept := PublishAndSweep(replayed.value, evictionEpoch == startedAtEpoch, bad);
      if swept.Err? {
        return Err(swept.error);
      }
      return Ok(|items|);
    }

    method PublishAndSweep(v: View, show: bool, bad: Faults) returns (r: Result<()>)
      requires Attached() && loading.None? && v == Replay(store.Events())
      modifies this`items, this`explicitTabs, this`ord, this`byHash, this`pendingBlobDeletes, this`previewsLoaded
      modifies store, search
      ensures Valid() && previewsLoaded == show && store.Events() == old(store.Events())
      ensures HasRoom(Mem(), search.capacity) ==> FiledAll(search.entries, Mem(), items.Keys)
      ensures r == if pendingBlobDeletes == {} then Ok(()) else Err(StoreIo)
      ensures var m := Published(v, show, old(pendingBlobDeletes));
              && Mem() == m.(pending := Unreferenced(m) * bad.All() * old(store.blobs))
              && store.blobs == old(store.blobs) - (Unreferenced(m) - bad.stuck)
    {
      Publish(v, show);
      hide Valid, Attached, Published, Unreferenced;
      r := DeleteUnreferencedBlobs(bad);
    }

    method Publish(v: View, show: bool)
      requires Attached() && loading.None? && v == Replay(store.Events())
      modifies this`items, this`explicitTabs, this`ord, this`byHash, this`pendingBlobDeletes, this`previewsLoaded
      modifies search
      ensures Valid() && Mem() == Published(v, show, old(pendingBlobDeletes))
      ensures HasRoom(Mem(), search.capacity) ==> FiledAll(search.entries, Mem(), items.Keys)
    {
      hide Sound, Read, NoDangling, Published, FiledAll, HasRoom;
      PublishedSound(Disk(store.Events(), store.blobs), show, pendingBlobDeletes, orphans);
      Fill(v, show);
      ItemsFiledById(Mem(), store.Events());
      ReindexAll();
    }

    method Fill(v: View, show: bool)
      requires DistinctHashes(v.items) && search.Valid()
      modifies this`items, this`explicitTabs, this`ord, this`byHash, this`pendingBlobDeletes, this`previewsLoaded
      modifies search
      ensures Mem() == Published(v, show, old(pendingBlobDeletes)) && search.Valid() && search.entries == []
    {
      search.Clear();
      var shown := map id | id in v.items :: if show then v.items[id] else ScrubPreview(v.items[id]);
      assert shown == ShownAll(v.items, show);
      previewsLoaded, items, explicitTabs, ord := show, shown, v.tabs, v.ord;
      byHash, pendingBlobDeletes := IndexByHash(v.items), pendingBlobDeletes + v.freed;
    }

    method ReindexAll()
      requires search.Valid() && search.entries == []
      requires ord.Keys == items.Keys && forall id :: id in items ==> items[id].id == id
      modifies search
      ensures search.Valid() && IndexAgrees(search.entries, Mem())
      ensures HasRoom(Mem(), search.capacity) ==> FiledAll(search.entries, Mem(), items.Keys)
    {
      var rest := items.Keys;
      while rest != {}
        invariant rest <= items.Keys && search.Valid() && IndexAgrees(search.entries, Mem())
        invariant HasRoom(Mem(), search.capacity) ==> FiledAll(search.entries, Mem(), items.Keys - rest)
        decreases rest
      {
        var id :| id in rest;
        ghost var entries := search.entries;
        Reindex(items[id]);
        if HasRoom(Mem(), search.capacity) {
          FiledInRoom(entries, search.entries, Mem(), items[id], search.capacity);
        }
        rest := rest - {id};
      }
    }

    /** Locking: drops every preview, title and mask span, and empties the index, at any moment. */
    method EvictPreviewCache()
      requires Attached()
      modifies this`items, this`previewsLoaded, this`evictionEpoch, search
      ensures Attached() && !previewsLoaded && search.entries == []
      ensures evictionEpoch == old(evictionEpoch) + 1
      ensures Mem() == old(AfterPreviewEviction(Mem()))
      ensures old(Valid()) ==> Valid()
    {
      hide Healthy, Agrees, RefsOf, Replay, Read;
      if Valid() {
        PreviewEvictionSound(Mem(), store.Events(), store.blobs, orphans);
      }
      ScrubAll();
      evictionEpoch := evictionEpoch + 1;
    }

    method ScrubAll()
      requires search.Valid()
      modifies this`items, this`previewsLoaded, search
      ensures search.Valid() && search.entries == [] && Mem() == old(AfterPreviewEviction(Mem()))
    {
      search.Clear();
      previewsLoaded := false;
      items := map id | id in items :: ScrubPreview(items[id]);
    }

    // ---- operations --------------------------------------------------------------------------

    /** Nothing happened to memory, to the log or to the blobs. */
    twostate predicate Untouched()
      reads this, store
    {
      Mem() == old(Mem()) && store.Events() == old(store.Events()) && store.blobs == old(store.blobs)
    }

    /** One record was committed and memory followed it. */
    twostate predicate Committed(body: Body, io: Io, after: Memory)
      reads this, store
    {
      && Mem() == after
      && store.Events() == old(store.Events()) + [old(NextEvent(body, io))]
      && store.blobs == old(store.blobs)
    }

    method Pin(id: ItemId, pinned: bool, io: Io) returns (r: Result<bool>)
      requires Valid() && loading.None?
      modifies this`items, store, search
      ensures Valid()
      ensures r == if id !in old(items) then Err(ItemNotFound)
                   else if pinned && old(items[id]).secret then Err(PinRefusedSecret)
                   else if io.lands then Ok(pinned) else Err(StoreIo)
      ensures r.Err? ==> Untouched()
      ensures r.Ok? ==> var patch := ItemPatch(old(items[id]).updatedAt, None, Some(pinned), None, None);
                        Committed(UpdateItem(id, patch), io, old(AfterUpdate(Mem(), id, patch)))
    {
      if id !in items {
        return Err(ItemNotFound);
      }
      var it := items[id];
      if pinned && it.secret {
        return Err(PinRefusedSecret);
      }
      var appended := CommitUpdate(id, ItemPatch(it.updatedAt, None, Some(pinned), None, None), io);
      if appended.Err? {
        return Err(appended.error);
      }
      return Ok(pinned);
    }

    /** Adds or removes one tag, given in normal form. */
    method Tag(id: ItemId, tag: string, tagged: bool, io: Io) returns (r: Result<seq<string>>)
      requires Valid() && loading.None?
      modifies this`items, store, search
      ensures Valid()
      ensures r == if id !in old(items) then Err(ItemNotFound)
                   else match ApplyTag(TagsOf(old(items[id])), tag, tagged)
                        case Invalid => Err(TagInvalid)
                        case AtLimit => Err(TagLimit)
                        case Unchanged => Ok(TagsOf(old(items[id])))
                        case Changed(tags) => if io.lands then Ok(tags) else Err(StoreIo)
      ensures id in old(items) && ApplyTag(TagsOf(old(items[id])), tag, tagged).Changed? && r.Ok? ==>
                var patch := ItemPatch(old(items[id]).updatedAt, None, None, Some(r.value), None);
                Committed(UpdateItem(id, patch), io, old(AfterUpdate(Mem(), id, patch)))
      ensures !(id in old(items) && ApplyTag(TagsOf(old(items[id])), tag, tagged).Changed? && r.Ok?) ==> Untouched()
    {
      if id !in items {
        return Err(ItemNotFound);
      }
      var it := items[id];
      match ApplyTag(TagsOf(it), tag, tagged)
      case Invalid => return Err(TagInvalid);
      case AtLimit => return Err(TagLimit);
      case Unchanged => return Ok(TagsOf(it));
      case Changed(tags) =>
        var appended := CommitUpdate(id, ItemPatch(it.updatedAt, None, None, Some(tags), None), io);
        if appended.Err? {
          return Err(appended.error);
        }
        return Ok(tags);
    }

    /** Sets or clears a title, given in normal form; `rawLength` is what the user typed. */
    method SetTitle(id: ItemId, title: Option<string>, rawLength: nat, io: Io) returns (r: Result<Option<string>>)
      requires Valid() && loading.None?
      modifies this`items, store, search
      ensures Valid()
      ensures id !in old(items) ==> r == Err(ItemNotFound)
      ensures id in old(items) && rawLength > TITLE_MAX_CHARS ==> r == Err(BadParams)
      ensures id in old(items) && rawLength <= TITLE_MAX_CHARS ==>
                var same := previewsLoaded && title == TitleOf(old(items[id]));
                var patch := ItemPatch(old(items[id]).updatedAt, Some(title), None, None, None);
                && r == (if same || io.lands then Ok(title) else Err(StoreIo))
                && (!same && io.lands ==> Committed(UpdateItem(id, patch), io, old(AfterUpdate(Mem(), id, patch))))
                && (same ==> Untouched())
      ensures r.Err? ==> Untouched()
    {
      if id !in items {
        return Err(ItemNotFound);
      }
      var it := items[id];
      if rawLength > TITLE_MAX_CHARS {
        return Err(BadParams);
      }
      if previewsLoaded && title == TitleOf(it) {
        return Ok(title);
      }
      var appended := CommitUpdate(id, ItemPatch(it.updatedAt, Some(title), None, None, None), io);
      if appended.Err? {
        return Err(appended.error);
      }
      return Ok(title);
    }

    /** Keeps a tab even when no item carries it; false when the name already existed. */
    method AddTab(tag: string, now: int, io: Io) returns (r: Result<bool>)
      requires Valid() && loading.None?
      modifies this`explicitTabs, store
      ensures Valid()
      ensures r == if tag == "" then Err(TagInvalid)
                   else if tag in old(explicitTabs) then Ok(false)
                   else if tag !in old(TabNames(Mem(), now)) && |old(TabNames(Mem(), now))| >= TABS_MAX
                   then Err(TagLimit)
                   else if io.lands then Ok(tag !in old(TabNames(Mem(), now))) else Err(StoreIo)
      ensures r.Err? || tag in old(explicitTabs) ==> Untouched()
      ensures r.Ok? && tag !in old(explicitTabs) ==>
                Committed(CreateTab(tag), io, old(AfterTabCreated(Mem(), tag)))
    {
      if tag == "" {
        return Err(TagInvalid);
      }
      if tag in explicitTabs {
        return Ok(false);
      }
      var counts := TabNames(Memory(items, explicitTabs, ord, byHash, pendingBlobDeletes, previewsLoaded), now);
      var existed := tag in counts;
      if !existed && |counts| >= TABS_MAX {
        return Err(TagLimit);
      }
      var appended := CommitTabCreated(tag, io);
      if appended.Err? {
        return Err(appended.error);
      }
      return Ok(!existed);
    }

    /** Takes the tag off every item and forgets the tab; how many items carried it. */
    method RemoveTab(tag: string, io: Io) returns (r: Result<nat>)
      requires Valid() && loading.None?
      modifies this`explicitTabs, this`items, store, search
      ensures Valid()
      ensures tag == "" ==> r == Err(TagInvalid)
      ensures tag != "" && tag !in old(explicitTabs) && old(Carriers(items, tag)) == {} ==> r == Ok(0) && Untouched()
      ensures tag != "" && (tag in old(explicitTabs) || old(Carriers(items, tag)) != {}) ==>
                && r == (if io.lands then Ok(|old(Carriers(items, tag))|) else Err(StoreIo))
                && (io.lands ==> Committed(DeleteTab(tag), io, old(AfterTabDeleted(Mem(), tag))))
      ensures r.Err? ==> Untouched()
    {
      if tag == "" {
        return Err(TagInvalid);
      }
      var affected := Carriers(items, tag);
      if tag !in explicitTabs && affected == {} {
        return Ok(0);
      }
      var appended := CommitTabDeleted(tag, affected, io);
      if appended.Err? {
        return Err(appended.error);
      }
      return Ok(|affected|);
    }

    /** Deletes one item, then sweeps. An unlink that fails does not undo the deletion. */
    method Remove(id: ItemId, io: Io, bad: Faults) returns (r: Result<bool>)
      requires Valid() && loading.None?
      modifies this`items, this`ord, this`byHash, this`pendingBlobDeletes, store, search
      ensures Valid()
      ensures id in old(items) && !io.lands ==> r == Err(StoreIo) && Untouched()
      ensures id !in old(items) || io.lands ==>
                var m := if id in old(items) then old(AfterDelete(Mem(), id)) else old(Mem());
                && Mem() == m.(pending := Unreferenced(m) * bad.All() * old(store.blobs))
                && store.blobs == old(store.blobs) - (Unreferenced(m) - bad.stuck)
                && r == if pendingBlobDeletes == {} then Ok(id in old(items)) else Err(StoreIo)
      ensures id in old(items) && io.lands ==>
                store.Events() == old(store.Events()) + [old(NextEvent(DeleteItem(id, ByUser), io))]
      ensures id !in old(items) ==> store.Events() == old(store.Events())
    {
      var found := id in items;
      if found {
        var appended := CommitDelete(id, ByUser, io);
        if appended.Err? {
          return Err(appended.error);
        }
      }
      var swept := DeleteUnreferencedBlobs(bad);
      if swept.Err? {
        return Err(swept.error);
      }
      return Ok(found);
    }

    // ---- ingest ------------------------------------------------------------------------------

    /** Writes one blob; until a record refers to it, it counts as an orphan. */
    method PutOne(bytes: Bytes, fate: BlobFate) returns (r: Result<BlobId>)
      requires Valid()
      modifies this`orphans, store`blobs, store`disks
      ensures Valid() && Mem() == old(Mem()) && store.Events() == old(store.Events())
      ensures r == if HashOf(bytes) in old(store.blobs) || fate.Synced? then Ok(HashOf(bytes)) else Err(StoreIo)
      ensures store.blobs == if fate.Failed? then old(store.blobs) else old(store.blobs) + {HashOf(bytes)}
      ensures orphans == old(orphans) + (store.blobs - old(store.blobs))
    {
      hide Healthy, Read, IndexAgrees, Agrees, Replay, HashesIndexed, RefsOf;
      ghost var before := store.blobs;
      MoreBlobsSound(Mem(), store.Events(), before, orphans, HashOf(bytes));
      r := store.PutBlob(bytes, fate);
      orphans := orphans + (store.blobs - before);
    }

    /** These contents were written in order, as far as the first write that failed. */
    twostate predicate Wrote(contents: seq<Bytes>, puts: nat -> BlobFate, ok: bool)
      reads store
    {
      (store.blobs, ok) == PutAll(old(store.blobs), contents, puts)
    }

    /** Writes every representation, in order, until one fails. */
    method PutReps(reps: seq<ResolvedRep>, puts: nat -> BlobFate) returns (r: Result<seq<RepRef>>)
      requires Valid()
      modifies this`orphans, store`blobs, store`disks
      ensures Valid() && Mem() == old(Mem()) && store.Events() == old(store.Events())
      ensures old(store.blobs) <= store.blobs <= old(store.blobs) + RepBlobs(reps)
      ensures orphans == old(orphans) + (store.blobs - old(store.blobs))
      ensures r.Ok? ==> r.value == RefsFor(reps) && RepBlobs(reps) <= store.blobs
      ensures Wrote(RepBytes(reps), puts, r.Ok?) && (r.Err? ==> r == Err(StoreIo))
      ensures AllPut(puts) ==> r.Ok?
    {
      hide Valid, PutAll;
      assert PutAll(store.blobs, [], puts) == (store.blobs, true) by {
        NothingPut(store.blobs, puts);
      }
      var refs: seq<RepRef> := [];
      for i := 0 to |reps|
        invariant Valid() && Mem() == old(Mem()) && store.Events() == old(store.Events())
        invariant refs == RefsFor(reps[..i]) && Wrote(RepBytes(reps)[..i], puts, true)
        invariant store.blobs == old(store.blobs) + RepBlobs(reps[..i])
        invariant orphans == old(orphans) + (store.blobs - old(store.blobs))
      {
        RepBlobsNext(reps, i);
        PutNext(old(store.blobs), RepBytes(reps), puts, i);
        var put := PutOne(reps[i].bytes, puts(i));
        if put.Err? {
          PutStops(old(store.blobs), RepBytes(reps), puts, i + 1);
          return Err(put.error);
        }
        refs := refs + [RepRef(reps[i].mime, reps[i].uti, reps[i].byteLength, reps[i].sha256, put.value)];
      }
      assert reps[..|reps|] == reps && RepBytes(reps)[..|reps|] == RepBytes(reps);
      return Ok(refs);
    }

    /**
     * Records a captured change. A re-copy of live content only moves the item; otherwise every
     * blob is on disk before the record that refers to it. `newId` is random, so it is new.
     */
    method Ingest(c: Candidate, now: int, newId: ItemId, puts: nat -> BlobFate, io: Io)
      returns (r: Result<IngestOutcome>)
      requires Valid() && loading.None? && newId !in items
      modifies this`items, this`ord, this`byHash, this`orphans, store, search
      ensures Valid()
      ensures r.Ok? ==> (r.value.Skipped? <==> c.skip)
      ensures c.skip ==> r == Ok(Skipped) && store.blobs == old(store.blobs)
      ensures !c.skip && c.contentHash in old(byHash) ==>
                var id, patch := old(byHash)[c.contentHash], ItemPatch(now, None, None, None, None);
                && id in old(items) && store.blobs == old(store.blobs)
                && r == if io.lands then Ok(Duplicate(Patched(old(items[id]), patch))) else Err(StoreIo)
      ensures !c.skip && c.contentHash !in old(byHash) ==>
                var put := PutAll(old(store.blobs), CandidateBytes(c), puts);
                && store.blobs == put.0
                && r == if put.1 && io.lands then Ok(Added(NewItem(c, newId, now))) else Err(StoreIo)
      ensures r.Err? || r.value.Skipped? ==> Mem() == old(Mem()) && store.Events() == old(store.Events())
      ensures r.Ok? && r.value.Duplicate? ==>
                && c.contentHash in old(byHash)
                && var id, patch := old(byHash)[c.contentHash], ItemPatch(now, None, None, None, None);
                   id in old(items) && Committed(UpdateItem(id, patch), io, old(AfterUpdate(Mem(), id, patch)))
      ensures r.Ok? && r.value.Added? ==>
                && c.contentHash !in old(byHash) && r.value.item == NewItem(c, newId, now)
                && Recorded(r.value.item, io)
                && store.blobs == old(store.blobs) + BlobIds(r.value.item)
      ensures r.Ok? ==> orphans <= old(orphans)
      ensures orphans <= old(orphans) + CandidateBlobs(c)
      ensures AllPut(puts) && io.lands ==> r.Ok?
    {
      hide Valid, PutAll, AfterUpdate, AfterAdd, CandidateBlobs, CandidateBytes, RefsFor, TotalBytes;
      HashesPointAtItems();
      if c.skip {
        return Ok(Skipped);
      }
      if c.contentHash in byHash && byHash[c.contentHash] in items {
        var bumped := CommitUpdate(byHash[c.contentHash], ItemPatch(now, None, None, None, None), io);
        if bumped.Err? {
          return Err(bumped.error);
        }
        return Ok(Duplicate(bumped.value));
      }
      r := IngestNew(c, NewItem(c, newId, now), puts, io);
    }

    /** The item's record was committed and memory followed it. */
    twostate predicate Recorded(it: Item, io: Io)
      reads this, store
    {
      && Mem() == old(AfterAdd(Mem(), it, MaxSeq(store.State()) + 1))
      && store.Events() == old(store.Events()) + [old(NextEvent(AddItem(it), io))]
    }

    method IngestNew(c: Candidate, it: Item, puts: nat -> BlobFate, io: Io) returns (r: Result<IngestOutcome>)
      requires Valid() && loading.None? && it.id !in items && it.contentHash !in byHash
      requires it.title.Some? && it.tags.Some? && it.repRefs == RefsFor(c.reps)
      requires it.thumbnailBlobId == if c.thumbnailJpeg.Some? then Some(HashOf(c.thumbnailJpeg.value)) else None
      modifies this`items, this`ord, this`byHash, this`orphans, store, search
      ensures Valid() && (r.Err? ==> r == Err(StoreIo)) && (r.Ok? ==> r.value == Added(it))
      ensures store.blobs == PutAll(old(store.blobs), CandidateBytes(c), puts).0
      ensures r.Ok? <==> PutAll(old(store.blobs), CandidateBytes(c), puts).1 && io.lands
      ensures r.Err? ==> Mem() == old(Mem()) && store.Events() == old(store.Events())
      ensures r.Ok? ==> Recorded(it, io) && store.blobs == old(store.blobs) + BlobIds(it) && orphans <= old(orphans)
      ensures orphans <= old(orphans) + CandidateBlobs(c)
      ensures AllPut(puts) && io.lands ==> r.Ok?
    {
      hide Valid, PutAll, AfterAdd, CandidateBlobs, CandidateBytes, RefsFor;
      BlobIdsOfNewItem(c, it);
      ghost var event, target := NextEvent(AddItem(it), io), AfterAdd(Mem(), it, MaxSeq(store.State()) + 1);
      var written := PutCandidate(c, puts);
      if written.Err? {
        return Err(written.error);
      }
      assert NextEvent(AddItem(it), io) == event;
      assert AfterAdd(Mem(), it, MaxSeq(store.State()) + 1) == target;
      var appended := CommitAndClaim(it, io);
      if appended.Err? {
        return Err(appended.error);
      }
      return Ok(Added(it));
    }

    /** Once the record lands, the blobs it refers to are orphans no longer. */
    method CommitAndClaim(it: Item, io: Io) returns (r: Result<StoreEvent>)
      requires Valid() && loading.None?
      requires it.id !in items && it.contentHash !in byHash && it.title.Some? && it.tags.Some?
      requires BlobIds(it) <= store.blobs
      modifies this`items, this`ord, this`byHash, this`orphans, store, search
      ensures Valid() && store.blobs == old(store.blobs)
      ensures r.Ok? ==> Recorded(it, io) && orphans == old(orphans) - BlobIds(it)
      ensures r.Err? ==> Mem() == old(Mem()) && store.Events() == old(store.Events()) && orphans == old(orphans)
      ensures (r.Ok? <==> io.lands) && (r.Err? ==> r == Err(StoreIo))
    {
      hide Sound, Agrees, IndexAgrees, Healthy, Read, AfterAdd, RefsOf;
      r := CommitAdd(it, io);
      if r.Ok? {
        AddedIsShown(old(Mem()), it, old(MaxSeq(store.State()) + 1));
        AddedIsReferenced(Mem(), it.id);
        FewerOrphansSound(Mem(), store.Events(), store.blobs, orphans, BlobIds(it));
        orphans := orphans - BlobIds(it);
      }
    }

    /** All the writes an ingest makes before its record. */
    method PutCandidate(c: Candidate, puts: nat -> BlobFate) returns (r: Result<()>)
      requires Valid()
      modifies this`orphans, store`blobs, store`disks
      ensures Valid() && Mem() == old(Mem()) && store.Events() == old(store.Events())
      ensures old(store.blobs) <= store.blobs <= old(store.blobs) + CandidateBlobs(c)
      ensures orphans == old(orphans) + (store.blobs - old(store.blobs))
      ensures r.Ok? ==> store.blobs == old(store.blobs) + CandidateBlobs(c)
      ensures Wrote(CandidateBytes(c), puts, r.Ok?) && (r.Err? ==> r == Err(StoreIo))
      ensures AllPut(puts) ==> r.Ok?
    {
      hide Valid, PutAll, RepBytes, RepBlobs;
      CandidateStarts(c);
      var put := PutReps(c.reps, puts);
      if put.Err? {
        PutStops(old(store.blobs), CandidateBytes(c), puts, |c.reps|);
        return Err(put.error);
      }
      if c.thumbnailJpeg.Some? {
        PutNext(old(store.blobs), CandidateBytes(c), puts, |c.reps|);
        var thumb := PutOne(c.thumbnailJpeg.value, puts(|c.reps|));
        if thumb.Err? {
          return Err(thumb.error);
        }
      }
      return Ok(());
    }

    // ---- retention ---------------------------------------------------------------------------

    /** The items, each once. */
    method Values() returns (values: seq<Item>)
      requires Agrees(Mem(), store.Events())
      ensures Enumerated(values, items)
    {
      ItemsFiledById(Mem(), store.Events());
      hide Agrees;
      assert Enumerated([], map[]);
      assert items - items.Keys == map[];
      hide Enumerated;
      values := [];
      var rest := items.Keys;
      while rest != {}
        invariant rest <= items.Keys && Enumerated(values, items - rest)
        decreases rest
      {
        var id :| id in rest;
        assert items - (rest - {id}) == (items - rest)[id := items[id]];
        EnumeratedNext(values, items - rest, items[id]);
        values := values + [items[id]];
        rest := rest - {id};
      }
      assert items - {} == items;
    }

    /** The first k planned deletions are committed and published. */
    ghost predicate Evicting(
        events0: seq<StoreEvent>, mem0: Memory, plan: seq<Retention.Eviction>, ios: nat -> Io, k: nat)
      reads this, store, search
    {
      && k <= |plan|
      && Valid() && loading.None?
      && store.Events() == Deletions(events0, plan[..k], ios)
      && Mem() == AfterDeletes(mem0, plan[..k])
    }

    lemma IsSound()
      requires Valid()
      ensures Sound(Mem(), store.Events(), store.blobs, orphans)
    {
    }

    /** The log on disk is one that `Open` takes. */
    lemma LogReopens()
      requires Valid()
      ensures store.log != [] && Generation(store.log, store.anchorSeq) && Reopened(store.log) == Ok(store.State())
    {
      ReopenRestoresCounters(store.State());
    }

    lemma HashesPointAtItems()
      requires Valid()
      ensures forall hash :: hash in byHash ==> byHash[hash] in items
    {
    }

    /** The log reads, and its records replay to a view that can be published. */
    lemma LogReads()
      requires Valid()
      ensures Read(store.log, store.anchorSeq).failure.None? && DistinctHashes(Replay(store.Events()).items)
      ensures store.Events() != [] && store.Events()[0].seqNo == store.anchorSeq
    {
      LogReplays(store.State());
      SoundIsHealthy(Mem(), store.Events(), store.blobs, orphans);
      store.NextSeq();
    }

    lemma NumbersNext()
      requires Valid()
      ensures forall body, io :: NextEvent(body, io) == StoreEvent(NextNumber(store.Events()), io.at, body)
    {
      store.NextSeq();
    }

    method EvictOne(plan: seq<Retention.Eviction>, k: nat, ghost ios: nat -> Io, io: Io,
                    ghost events0: seq<StoreEvent>, ghost mem0: Memory) returns (ok: bool)
      requires k < |plan| && Executable(plan, mem0.items) && Evicting(events0, mem0, plan, ios, k) && io == ios(k)
      modifies this`items, this`ord, this`byHash, this`pendingBlobDeletes, store, search
      ensures ok == io.lands && store.blobs == old(store.blobs)
      ensures Evicting(events0, mem0, plan, ios, if ok then k + 1 else k)
    {
      hide Valid, Deletions, AfterDeletes, AfterDelete, Executable;
      var ev := plan[k];
      DeleteStep(events0, mem0, plan, ios, k);
      NumbersNext();
      var appended := CommitDelete(ev.id, ev.reason, io);
      ok := appended.Ok?;
    }

    /** Commits one deletion per planned id, stopping at the first that does not land. */
    method EvictAll(plan: seq<Retention.Eviction>, ios: nat -> Io) returns (evicted: nat)
      requires Valid() && loading.None? && Executable(plan, items)
      modifies this`items, this`ord, this`byHash, this`pendingBlobDeletes, store, search
      ensures Evicting(old(store.Events()), old(Mem()), plan, ios, evicted) && store.blobs == old(store.blobs)
      ensures AllLand(ios, evicted) && (evicted < |plan| ==> !ios(evicted).lands)
    {
      hide Valid, Deletions, AfterDeletes, Executable;
      evicted := 0;
      NothingEvictedYet(store.Events(), Mem(), plan, ios);
      while evicted < |plan|
        invariant Evicting(old(store.Events()), old(Mem()), plan, ios, evicted) && store.blobs == old(store.blobs)
        invariant AllLand(ios, evicted)
      {
        var ok := EvictOne(plan, evicted, ios, ios(evicted), old(store.Events()), old(Mem()));
        if !ok {
          return;
        }
        evicted := evicted + 1;
      }
    }

    method PlanNow(now: int) returns (plan: seq<Retention.Eviction>)
      requires Valid()
      ensures Executable(plan, items) && plan == PlanFor(items, now, limits)
    {
      var values := Values();
      plan := Retention.PlanEviction(values, now, limits);
      PlanIsExecutable(values, items, now, limits);
      PlanIsThePlan(values, items, now, limits);
    }

    /**
     * Applies the retention plan. Evictions that were committed stay published even when a later
     * one cannot be; the sweep comes in any case.
     */
    method EvictNow(now: int, ios: nat -> Io, bad: Faults) returns (r: Result<nat>, ghost evicted: nat)
      requires Valid() && loading.None?
      modifies this`items, this`ord, this`byHash, this`pendingBlobDeletes, store, search
      ensures Valid()
      ensures var plan := PlanFor(old(items), now, limits);
              && evicted == LandingPrefix(ios, |plan|)
              && r == (if evicted == |plan| && pendingBlobDeletes == {} then Ok(evicted) else Err(StoreIo))
              && store.Events() == Deletions(old(store.Events()), plan[..evicted], ios)
              && var m := AfterDeletes(old(Mem()), plan[..evicted]);
                 && Mem() == m.(pending := Unreferenced(m) * bad.All() * old(store.blobs))
                 && store.blobs == old(store.blobs) - (Unreferenced(m) - bad.stuck)
      ensures var plan := PlanFor(old(items), now, limits);
              && DeletionsFollow(old(store.Events()), store.Events(), plan[..evicted])
              && items == old(items) - Retention.Ids(plan[..evicted])
    {
      hide Valid, Deletions, AfterDeletes, DeletionsFollow, Retention.Ids, PlanFor, Executable, LandingPrefix;
      var plan := PlanNow(now);
      var n := EvictAll(plan, ios);
      evicted := n;
      FirstFailure(ios, n, |plan|);
      DeletionsAre(old(store.Events()), plan, ios, n);
      DeletesTake(old(Mem()), plan, n);
      var swept := SweepAfterEvicting(plan, n, ios, bad, old(store.Events()), old(Mem()));
      r := if n < |plan| then Err(StoreIo) else if swept.Err? then Err(swept.error) else Ok(n);
    }

    method SweepAfterEvicting(plan: seq<Retention.Eviction>, k: nat, ghost ios: nat -> Io, bad: Faults,
                              ghost events0: seq<StoreEvent>, ghost mem0: Memory) returns (r: Result<()>)
      requires Evicting(events0, mem0, plan, ios, k)
      modifies this`pendingBlobDeletes, store
      ensures Valid() && r == if pendingBlobDeletes == {} then Ok(()) else Err(StoreIo)
      ensures store.Events() == Deletions(events0, plan[..k], ios)
      ensures var m := AfterDeletes(mem0, plan[..k]);
              && Mem() == m.(pending := Unreferenced(m) * bad.All() * old(store.blobs))
              && store.blobs == old(store.blobs) - (Unreferenced(m) - bad.stuck)
    {
      hide Deletions, AfterDeletes, Sound, IndexAgrees;
      r := DeleteUnreferencedBlobs(bad);
    }
  }

  // ---- plans ---------------------------------------------------------------------------------

  ghost predicate Enumerated(values: seq<Item>, items: map<ItemId, Item>) {
    && Retention.DistinctIds(values)
    && (forall it :: it in values ==> it.id in items && items[it.id] == it)
    && (forall id :: id in items ==> items[id] in values)
  }

  lemma EnumeratedNext(values: seq<Item>, items: map<ItemId, Item>, it: Item)
    requires Enumerated(values, items) && it.id !in items
    ensures Enumerated(values + [it], items[it.id := it])
  {
    var next := values + [it];
    assert next[|values|] == it && forall i :: 0 <= i < |values| ==> values[i] in values && next[i] == values[i];
  }

  /** The items in some order. */
  ghost function Listed(items: map<ItemId, Item>): seq<Item>
    decreases items.Keys
  {
    if items == map[] then []
    else
      var id :| id in items;
      Listed(items - {id}) + [items[id]]
  }

  /** The retention plan over the items; it does not depend on the order they are listed in. */
  ghost function PlanFor(items: map<ItemId, Item>, now: int, limits: Retention.Limits): seq<Retention.Eviction> {
    Retention.Plan(Sort(Listed(items), Retention.NewestFirst()), now, limits)
  }

  lemma {:induction false} ListedEnumerates(items: map<ItemId, Item>)
    requires forall id :: id in items ==> items[id].id == id
    ensures Enumerated(Listed(items), items)
    decreases items.Keys
  {
    if items != map[] {
      var id :| id in items && Listed(items) == Listed(items - {id}) + [items[id]];
      ListedEnumerates(items - {id});
      EnumeratedNext(Listed(items - {id}), items - {id}, items[id]);
      assert (items - {id})[id := items[id]] == items;
    }
  }

  lemma PlanIsThePlan(values: seq<Item>, items: map<ItemId, Item>, now: int, limits: Retention.Limits)
    requires Enumerated(values, items) && forall id :: id in items ==> items[id].id == id
    ensures PlanFor(items, now, limits) == Retention.Plan(Sort(values, Retention.NewestFirst()), now, limits)
  {
    ListedEnumerates(items);
    forall it
      ensures multiset(values)[it] == multiset(Listed(items))[it]
    {
      CountsOnce(values, it);
      CountsOnce(Listed(items), it);
    }
    assert multiset(values) == multiset(Listed(items));
    Retention.PlanIsCanonical(values, Listed(items), now, limits);
  }

  ghost predicate DistinctPlan(plan: seq<Retention.Eviction>) {
    forall i, j :: 0 <= i < j < |plan| ==> plan[i].id != plan[j].id
  }

  /** The log grew by exactly one deletion per planned eviction, in plan order. */
  ghost predicate DeletionsFollow(before: seq<StoreEvent>, after: seq<StoreEvent>, plan: seq<Retention.Eviction>) {
    && |after| == |before| + |plan|
    && before <= after
    && forall i :: 0 <= i < |plan| ==> after[|before| + i].body == DeleteItem(plan[i].id, plan[i].reason)
  }

  ghost predicate AllLand(ios: nat -> Io, k: nat) {
    forall i: nat :: i < k ==> ios(i).lands
  }

  /** Every blob write succeeds. */
  ghost predicate AllPut(puts: nat -> BlobFate) {
    forall i: nat :: puts(i).Synced?
  }

  /** How many of the first n appends land before one does not. */
  function LandingPrefix(ios: nat -> Io, n: nat): (k: nat)
    ensures k <= n && (forall i :: 0 <= i < k ==> ios(i).lands) && (k < n ==> !ios(k).lands)
  {
    if n == 0 then 0
    else
      var k := LandingPrefix(ios, n - 1);
      if k == n - 1 && ios(k).lands then n else k
  }

  lemma FirstFailure(ios: nat -> Io, k: nat, n: nat)
    requires k <= n && AllLand(ios, k) && (k < n ==> !ios(k).lands)
    ensures LandingPrefix(ios, n) == k
  {
  }

  /** The number of the next record. */
  function NextNumber(events: seq<StoreEvent>): int {
    if events == [] then 1 else events[|events| - 1].seqNo + 1
  }

  /** The log after one deletion per planned eviction, in plan order. */
  function Deletions(events: seq<StoreEvent>, plan: seq<Retention.Eviction>, ios: nat -> Io): seq<StoreEvent> {
    if plan == [] then events
    else
      var n := |plan| - 1;
      var before := Deletions(events, plan[..n], ios);
      before + [StoreEvent(NextNumber(before), ios(n).at, DeleteItem(plan[n].id, plan[n].reason))]
  }

  /** And memory. */
  function AfterDeletes(m: Memory, plan: seq<Retention.Eviction>): Memory {
    if plan == [] then m
    else
      var before := AfterDeletes(m, plan[..|plan| - 1]);
      var id := plan[|plan| - 1].id;
      if id in before.items then AfterDelete(before, id) else before
  }

  lemma NothingEvictedYet(events: seq<StoreEvent>, m: Memory, plan: seq<Retention.Eviction>, ios: nat -> Io)
    ensures Deletions(events, plan[..0], ios) == events && AfterDeletes(m, plan[..0]) == m
  {
  }

  lemma {:induction false} DeletionsAre(
      events: seq<StoreEvent>, plan: seq<Retention.Eviction>, ios: nat -> Io, k: nat)
    requires k <= |plan|
    ensures DeletionsFollow(events, Deletions(events, plan[..k], ios), plan[..k])
  {
    if k > 0 {
      DeletionsAre(events, plan, ios, k - 1);
      assert plan[..k][..k - 1] == plan[..k - 1];
    }
  }

  lemma {:induction false} DeletesTake(m: Memory, plan: seq<Retention.Eviction>, k: nat)
    requires k <= |plan|
    ensures AfterDeletes(m, plan[..k]).items == m.items - Retention.Ids(plan[..k])
  {
    if k == 0 {
      assert Retention.Ids(plan[..0]) == {};
    } else {
      DeletesTake(m, plan, k - 1);
      AfterOneMore(m, plan, k - 1);
      assert plan[..k] == plan[..k - 1] + [plan[k - 1]];
      Retention.IdsOf(plan[..k - 1], plan[k - 1]);
      hide AfterDeletes, Retention.Ids;
      assert m.items - (Retention.Ids(plan[..k - 1]) + {plan[k - 1].id})
          == m.items - Retention.Ids(plan[..k - 1]) - {plan[k - 1].id};
    }
  }

  lemma AfterOneMore(m: Memory, plan: seq<Retention.Eviction>, k: nat)
    requires k < |plan|
    ensures AfterDeletes(m, plan[..k + 1]).items == AfterDeletes(m, plan[..k]).items - {plan[k].id}
  {
    assert plan[..k + 1][..k] == plan[..k];
  }

  /** The plan names each id once, and only ids that are there. */
  ghost predicate Executable(plan: seq<Retention.Eviction>, items: map<ItemId, Item>) {
    DistinctPlan(plan) && Retention.Ids(plan) <= items.Keys
  }

  lemma PlanStep(plan: seq<Retention.Eviction>, k: nat, items: map<ItemId, Item>)
    requires Executable(plan, items) && k < |plan|
    ensures plan[k].id in items - Retention.Ids(plan[..k])
  {
    assert plan[k].id in Retention.Ids(plan);
  }

  lemma DeleteStep(
      events: seq<StoreEvent>, m: Memory, plan: seq<Retention.Eviction>, ios: nat -> Io, k: nat)
    requires k < |plan| && Executable(plan, m.items)
    ensures var before := Deletions(events, plan[..k], ios);
            Deletions(events, plan[..k + 1], ios)
            == before + [StoreEvent(NextNumber(before), ios(k).at, DeleteItem(plan[k].id, plan[k].reason))]
    ensures var before := AfterDeletes(m, plan[..k]);
            plan[k].id in before.items && AfterDeletes(m, plan[..k + 1]) == AfterDelete(before, plan[k].id)
  {
    assert plan[..k + 1][..k] == plan[..k];
    DeletesTake(m, plan, k);
    PlanStep(plan, k, m.items);
  }

  lemma PlanIsExecutable(values: seq<Item>, items: map<ItemId, Item>, now: int, limits: Retention.Limits)
    requires Enumerated(values, items)
    ensures var plan := Retention.Plan(Sort(values, Retention.NewestFirst()), now, limits);
            Executable(plan, items)
  {
    var sorted := Sort(values, Retention.NewestFirst());
    Retention.SortedAndDistinct(values);
    var plan := Retention.Plan(sorted, now, limits);
    forall i, j | 0 <= i < j < |plan|
      ensures plan[i].id != plan[j].id
    {
      Retention.CondemnedOnce(sorted, now, limits, i, j);
    }
    forall i | 0 <= i < |plan|
      ensures plan[i].id in items
    {
      Retention.PlanIdsKnown(sorted, now, limits, i);
    }
  }

  // ---- candidates ----------------------------------------------------------------------------

  function RefsFor(reps: seq<ResolvedRep>): seq<RepRef> {
    seq(|reps|, i requires 0 <= i < |reps| =>
      RepRef(reps[i].mime, reps[i].uti, reps[i].byteLength, reps[i].sha256, HashOf(reps[i].bytes)))
  }

  function TotalBytes(reps: seq<ResolvedRep>): nat {
    if reps == [] then 0 else TotalBytes(reps[..|reps| - 1]) + reps[|reps| - 1].byteLength
  }

  function RepBlobs(reps: seq<ResolvedRep>): set<BlobId> {
    set i | 0 <= i < |reps| :: HashOf(reps[i].bytes)
  }

  /** The record that will be written for a candidate whose blobs are all on disk. */
  function NewItem(c: Candidate, newId: ItemId, now: int): Item {
    Item(newId, Some(None), c.contentHash, c.preview, c.previewTruncated, c.maskSpans, c.secret,
         RefsFor(c.reps), if c.thumbnailJpeg.Some? then Some(HashOf(c.thumbnailJpeg.value)) else None,
         TotalBytes(c.reps), now, now, false, Some([]),
         if c.secret then Some(now + SECRET_TTL_MS) else None)
  }

  function RepBytes(reps: seq<ResolvedRep>): seq<Bytes> {
    seq(|reps|, i requires 0 <= i < |reps| => reps[i].bytes)
  }

  /** Everything an ingest writes, in order: the representations, then the thumbnail. */
  function CandidateBytes(c: Candidate): seq<Bytes> {
    RepBytes(c.reps) + (if c.thumbnailJpeg.Some? then [c.thumbnailJpeg.value] else [])
  }

  lemma CandidateStarts(c: Candidate)
    ensures var all := CandidateBytes(c);
            && all[..|c.reps|] == RepBytes(c.reps) && |RepBytes(c.reps)| == |c.reps|
            && (if c.thumbnailJpeg.Some? then |all| == |c.reps| + 1 && all[|c.reps|] == c.thumbnailJpeg.value
                                              && all[..|c.reps| + 1] == all
                else all == RepBytes(c.reps))
  {
  }

  /** What is on disk after writing these contents in order, and whether all writes went through. */
  function PutAll(blobs: set<BlobId>, contents: seq<Bytes>, puts: nat -> BlobFate): (set<BlobId>, bool) {
    if contents == [] then (blobs, true)
    else
      var n := |contents| - 1;
      var (before, ok) := PutAll(blobs, contents[..n], puts);
      if !ok then (before, false)
      else
        var id := HashOf(contents[n]);
        (if puts(n).Failed? then before else before + {id}, id in before || puts(n).Synced?)
  }

  lemma NothingPut(blobs: set<BlobId>, puts: nat -> BlobFate)
    ensures PutAll(blobs, [], puts) == (blobs, true)
  {
  }

  lemma PutNext(blobs: set<BlobId>, contents: seq<Bytes>, puts: nat -> BlobFate, n: nat)
    requires n < |contents| && PutAll(blobs, contents[..n], puts).1
    ensures var before, id := PutAll(blobs, contents[..n], puts).0, HashOf(contents[n]);
            PutAll(blobs, contents[..n + 1], puts)
            == (if puts(n).Failed? then before else before + {id}, id in before || puts(n).Synced?)
  {
    assert contents[..n + 1][..n] == contents[..n];
  }

  /** Nothing is written after a failure. */
  lemma {:induction false} PutStops(blobs: set<BlobId>, contents: seq<Bytes>, puts: nat -> BlobFate, n: nat)
    requires n <= |contents| && !PutAll(blobs, contents[..n], puts).1
    ensures PutAll(blobs, contents, puts) == PutAll(blobs, contents[..n], puts)
  {
    if n == |contents| {
      assert contents[..n] == contents;
    } else {
      assert contents[..|contents| - 1][..n] == contents[..n];
      PutStops(blobs, contents[..|contents| - 1], puts, n);
    }
  }

  function CandidateBlobs(c: Candidate): set<BlobId> {
    RepBlobs(c.reps) + (if c.thumbnailJpeg.Some? then {HashOf(c.thumbnailJpeg.value)} else {})
  }

  lemma RepBlobsNext(reps: seq<ResolvedRep>, i: nat)
    requires i < |reps|
    ensures RepBlobs(reps[..i + 1]) == RepBlobs(reps[..i]) + {HashOf(reps[i].bytes)}
    ensures RepBlobs(reps[..i + 1]) <= RepBlobs(reps)
    ensures RefsFor(reps[..i + 1]) == RefsFor(reps[..i])
              + [RepRef(reps[i].mime, reps[i].uti, reps[i].byteLength, reps[i].sha256, HashOf(reps[i].bytes))]
  {
    assert forall j :: 0 <= j < i ==> reps[..i + 1][j] == reps[..i][j];
    assert reps[..i + 1][i] == reps[i];
  }

  lemma MoreBlobsSound(m: Memory, events: seq<StoreEvent>, blobs: set<BlobId>, orphans: set<BlobId>, b: BlobId)
    requires Sound(m, events, blobs, orphans)
    ensures Sound(m, events, blobs + {b}, orphans + ((blobs + {b}) - blobs))
    ensures Healthy(Disk(events, blobs + {b}))
  {
    SoundIsHealthy(m, events, blobs + {b}, orphans + ((blobs + {b}) - blobs));
  }

  lemma FewerOrphansSound(
      m: Memory, events: seq<StoreEvent>, blobs: set<BlobId>, orphans: set<BlobId>, some: set<BlobId>)
    requires Sound(m, events, blobs, orphans) && some <= RefsOf(m.items)
    ensures Sound(m, events, blobs, orphans - some)
  {
  }

  lemma AddedIsShown(m: Memory, it: Item, seqNo: int)
    ensures it.id in AfterAdd(m, it, seqNo).items && BlobIds(AfterAdd(m, it, seqNo).items[it.id]) == BlobIds(it)
  {
  }

  lemma AddedIsReferenced(m: Memory, id: ItemId)
    requires id in m.items
    ensures BlobIds(m.items[id]) <= RefsOf(m.items)
  {
  }

  lemma BlobIdsOfNewItem(c: Candidate, it: Item)
    requires it.repRefs == RefsFor(c.reps)
    requires it.thumbnailBlobId == if c.thumbnailJpeg.Some? then Some(HashOf(c.thumbnailJpeg.value)) else None
    ensures BlobIds(it) == CandidateBlobs(c)
  {
    var ids := set i | 0 <= i < |it.repRefs| :: it.repRefs[i].blobId;
    assert forall i :: 0 <= i < |c.reps| ==> it.repRefs[i].blobId == HashOf(c.reps[i].bytes);
    assert ids <= RepBlobs(c.reps);
    forall b | b in RepBlobs(c.reps)
      ensures b in ids
    {
      var i :| 0 <= i < |c.reps| && HashOf(c.reps[i].bytes) == b;
      assert it.repRefs[i].blobId == b;
    }
  }

  // ---- tabs ----------------------------------------------------------------------------------

  datatype ApplyTagOutcome = Changed(tags: seq<string>) | Unchanged | Invalid | AtLimit

  function LexLeq(): (string, string) -> bool {
    (a: string, b: string) => !LexLess(b, a)
  }

  function ApplyTag(current: seq<string>, tag: string, tagged: bool): ApplyTagOutcome {
    if tag == "" then Invalid
    else if tagged == (tag in current) then Unchanged
    else if !tagged then Changed(Without(current, tag))
    else if |current| >= TAGS_MAX_PER_ITEM then AtLimit
    else Changed(Sort(current + [tag], LexLeq()))
  }

  predicate IsLive(it: Item, now: int) {
    it.expiresAt.None? || now < it.expiresAt.value
  }

  /** The explicit tabs and the tags of live items. */
  function TabNames(m: Memory, now: int): set<string> {
    m.tabs + set id, tag | id in m.items && IsLive(m.items[id], now) && tag in TagsOf(m.items[id]) :: tag
  }

  function Carriers(items: map<ItemId, Item>, tag: string): set<ItemId> {
    set id | id in items && tag in TagsOf(items[id])
  }

  /** Folds the records of a file, or reports the first one that does not read back. */
  method ReplayFile(lines: seq<Line>, anchorSeq: int) returns (r: Result<View>)
    ensures var reading := Read(lines, anchorSeq);
            r == if reading.failure.Some? then Err(reading.failure.value) else Ok(Replay(reading.events))
  {
    var reading := ReadAll(lines, anchorSeq);
    var v := EMPTY_VIEW;
    for i := 0 to |reading.events|
      invariant v == Replay(reading.events[..i])
    {
      assert reading.events[..i + 1][..i] == reading.events[..i];
      v := Apply(v, reading.events[i]);
    }
    assert reading.events[..|reading.events|] == reading.events;
    if reading.failure.Some? {
      return Err(reading.failure.value);
    }
    return Ok(v);
  }

  lemma LogReplays(s: StoreState)
    requires Consistent(s) && AllReadable(EventsOf(s.log))
    ensures Read(s.log, s.anchorSeq) == Reading(EventsOf(s.log), None)
  {
    SealedLinesReadBack(s.log, s.anchorSeq);
  }

  lemma EmptyOrInhabited(entries: seq<SearchEntry>)
    ensures entries == [] || exists e :: e in entries
  {
    if entries != [] {
      assert entries[0] in entries;
    }
  }

  /** While previews are evicted nothing that could be read off the screen is in memory. */
  lemma LockedHoldsNothing(m: Memory, events: seq<StoreEvent>, entries: seq<SearchEntry>)
    requires Agrees(m, events) && IndexAgrees(entries, m) && !m.previewsLoaded
    ensures entries == []
    ensures forall id :: id in m.items ==>
              m.items[id].preview == "" && m.items[id].title == Some(None) && m.items[id].maskSpans == []
  {
    EmptyOrInhabited(entries);
  }

  /** How far a sweep over `all` has come when `todo` is left. */
  ghost predicate Swept(
      all: set<BlobId>, bad: Faults, blobs0: set<BlobId>, todo: set<BlobId>, pending: set<BlobId>, blobs: set<BlobId>)
  {
    && todo <= all
    && pending == todo + (all - todo) * bad.All() * blobs0
    && blobs == blobs0 - (all - todo - bad.stuck)
  }

  lemma SweepStep(
      all: set<BlobId>, bad: Faults, blobs0: set<BlobId>, todo: set<BlobId>, pending: set<BlobId>, blobs: set<BlobId>,
      b: BlobId)
    requires Swept(all, bad, blobs0, todo, pending, blobs) && b in todo
    ensures b in pending && (b in blobs <==> b in blobs0)
    ensures match bad.FateOf(b)
            case Failed => Swept(all, bad, blobs0, todo - {b}, if b in blobs then pending else pending - {b}, blobs)
            case Unsynced =>
              Swept(all, bad, blobs0, todo - {b}, if b in blobs then pending else pending - {b}, blobs - {b})
            case Synced => Swept(all, bad, blobs0, todo - {b}, pending - {b}, blobs - {b})
  {
  }

  /** The waiting blobs that no item refers to. */
  function Unreferenced(m: Memory): set<BlobId> {
    m.pending - RefsOf(m.items)
  }

  lemma RefsOfVisit(visited: map<ItemId, Item>, id: ItemId, it: Item)
    requires id !in visited
    ensures RefsOf(visited[id := it]) == RefsOf(visited) + BlobIds(it)
  {
    var all := visited[id := it];
    assert forall x :: x in visited ==> all[x] == visited[x];
    forall b | b in RefsOf(visited) + BlobIds(it)
      ensures b in RefsOf(all)
    {
      if b in BlobIds(it) {
        assert id in all && b in BlobIds(all[id]);
      } else {
        var x :| x in visited && b in BlobIds(visited[x]);
        assert x in all && b in BlobIds(all[x]);
      }
    }
  }

  lemma KeepingSound(m: Memory, events: seq<StoreEvent>, blobs: set<BlobId>, orphans: set<BlobId>)
    requires Sound(m, events, blobs, orphans)
    ensures Sound(m.(pending := Unreferenced(m)), events, blobs, orphans)
  {
  }

  lemma UnlinkSound(m: Memory, events: seq<StoreEvent>, blobs: set<BlobId>, orphans: set<BlobId>, b: BlobId)
    requires Sound(m, events, blobs, orphans) && b !in RefsOf(m.items)
    ensures Sound(m.(pending := m.pending - {b}), events, blobs - {b}, orphans)
    ensures Sound(m, events, blobs - {b}, orphans)
    ensures b !in blobs ==> Sound(m.(pending := m.pending - {b}), events, blobs, orphans)
  {
  }

  /** With nothing waiting and nothing orphaned, the disk holds exactly the referenced blobs. */
  lemma NothingWaitingMeansExact(m: Memory, events: seq<StoreEvent>, blobs: set<BlobId>)
    requires Sound(m, events, blobs, {}) && m.pending == {}
    ensures blobs == RefsOf(Replay(events).items)
  {
    ShownKeepsRefs(Replay(events).items, m.previewsLoaded);
  }

  /** Memory part way through untagging: the ids in `rest` still carry the tag. */
  function Untagging(m: Memory, tag: string, rest: set<ItemId>): Memory {
    m.(tabs := m.tabs - {tag},
       items := map id | id in m.items ::
         if id in rest then m.items[id] else Shown(Untag(m.items[id], tag), m.previewsLoaded))
  }

  lemma IndexIgnoresTabs(entries: seq<SearchEntry>, m: Memory, tabs: set<string>)
    requires IndexAgrees(entries, m)
    ensures IndexAgrees(entries, m.(tabs := tabs))
  {
  }

  lemma UntaggingStarts(m: Memory, events: seq<StoreEvent>, tag: string, affected: set<ItemId>)
    requires Agrees(m, events) && affected == set id | id in m.items && tag in TagsOf(m.items[id])
    ensures Untagging(m, tag, affected) == m.(tabs := m.tabs - {tag})
  {
    forall id | id in m.items && id !in affected
      ensures Shown(Untag(m.items[id], tag), m.previewsLoaded) == m.items[id]
    {
      ItemsAreModern(m, events, id);
    }
  }

  lemma ItemsFiledById(m: Memory, events: seq<StoreEvent>)
    requires Agrees(m, events)
    ensures m.ord.Keys == m.items.Keys && forall id :: id in m.items ==> m.items[id].id == id
  {
    ReplayCoherent(events);
    assert forall id :: id in m.items <==> id in Replay(events).items;
  }

  lemma UntaggingStep(m: Memory, tag: string, rest: set<ItemId>, id: ItemId)
    requires id in rest && rest <= m.items.Keys && m.items[id].id == id
    ensures Remembered(Untagging(m, tag, rest), Untag(m.items[id], tag)) == Untagging(m, tag, rest - {id})
  {
    hide Without, Shown, TagsOf;
    var before, after := Untagging(m, tag, rest), Untagging(m, tag, rest - {id});
    assert Untag(m.items[id], tag).id == id;
    assert before.items[id := after.items[id]] == after.items;
  }

  /** Entries of other items are still there. */
  ghost predicate KeepsOthers(before: seq<SearchEntry>, after: seq<SearchEntry>, affected: set<ItemId>) {
    forall e :: e in before && e.id !in affected ==> e in after
  }

  ghost predicate FiledSoFar(
      m: Memory, now: Memory, entries0: seq<SearchEntry>, entries: seq<SearchEntry>, affected: set<ItemId>,
      rest: set<ItemId>, capacity: nat)
  {
    && (!m.previewsLoaded ==> entries == entries0)
    && (HasRoom(m, capacity) ==> FiledAll(entries, now, affected - rest) && KeepsOthers(entries0, entries, affected))
  }

  lemma NothingFiled(m: Memory, now: Memory, entries: seq<SearchEntry>, affected: set<ItemId>, capacity: nat)
    ensures FiledSoFar(m, now, entries, entries, affected, affected, capacity)
  {
    assert affected - affected == {};
  }

  lemma AllFiled(
      m: Memory, now: Memory, entries0: seq<SearchEntry>, entries: seq<SearchEntry>,
      affected: set<ItemId>, capacity: nat)
    requires FiledSoFar(m, now, entries0, entries, affected, {}, capacity)
    ensures !m.previewsLoaded ==> entries == entries0
    ensures HasRoom(m, capacity) ==> FiledAll(entries, now, affected) && KeepsOthers(entries0, entries, affected)
  {
    assert affected - {} == affected;
  }

  /** One more item refiled in an index with room. */
  lemma FiledNext(
      now: Memory, it: Item, entries0: seq<SearchEntry>, before: seq<SearchEntry>, after: seq<SearchEntry>,
      done: set<ItemId>, affected: set<ItemId>, capacity: nat)
    requires HasRoom(now, capacity) && DistinctEntries(before) && IndexAgrees(before, now)
    requires it.id in now.items && it.id in now.ord && it.id in affected && it.id !in done
    requires forall x :: x in done && x in now.items ==> now.items[x].id == x
    requires FiledAll(before, now, done) && KeepsOthers(entries0, before, affected)
    requires Refiled(before, after, now, it, capacity)
    ensures FiledAll(after, Remembered(now, it), done + {it.id}) && KeepsOthers(entries0, after, affected)
  {
    FiledInRoom(before, after, now, it, capacity);
    assert EntryOf(it, now.ord[it.id]) in after;
    hide Refiled, IndexAgrees, DistinctEntries, Shown, TitleOf, TagsOf;
    forall id | id in done + {it.id}
      ensures id in now.ord && EntryOf(Remembered(now, it).items[id], now.ord[id]) in after
    {
      if id == it.id {
        ShownFiles(it, now.ord[id]);
      } else {
        assert Remembered(now, it).items[id] == now.items[id];
        assert EntryOf(now.items[id], now.ord[id]).id == now.items[id].id;
      }
    }
  }

  lemma ShownFiles(it: Item, seqNo: int)
    ensures EntryOf(Shown(it, true), seqNo) == EntryOf(it, seqNo)
  {
  }

  lemma FiledOneMore(
      m: Memory, tag: string, now: Memory,
      entries0: seq<SearchEntry>, before: seq<SearchEntry>, after: seq<SearchEntry>,
      affected: set<ItemId>, rest: set<ItemId>, id: ItemId, capacity: nat)
    requires id in rest && rest <= affected && affected <= m.items.Keys
    requires m.ord.Keys == m.items.Keys && forall x :: x in m.items ==> m.items[x].id == x
    requires now == Untagging(m, tag, rest) && DistinctEntries(before) && IndexAgrees(before, now)
    requires FiledSoFar(m, now, entries0, before, affected, rest, capacity)
    requires Refiled(before, after, Remembered(now, Untag(m.items[id], tag)), Untag(m.items[id], tag), capacity)
    ensures FiledSoFar(
              m, Remembered(now, Untag(m.items[id], tag)), entries0, after, affected, rest - {id}, capacity)
  {
    hide FiledAll, KeepsOthers, IndexAgrees, DistinctEntries;
    var it := Untag(m.items[id], tag);
    if HasRoom(m, capacity) {
      assert now.items.Keys == m.items.Keys;
      assert |now.items.Keys| == |now.items| && |m.items.Keys| == |m.items|;
      assert affected - (rest - {id}) == (affected - rest) + {it.id};
      FiledNext(now, it, entries0, before, after, affected - rest, affected, capacity);
    }
  }

  lemma RoomStays(m: Memory, tag: string, capacity: nat)
    ensures HasRoom(AfterTabDeleted(m, tag), capacity) <==> HasRoom(m, capacity)
  {
    var after := AfterTabDeleted(m, tag).items;
    assert after.Keys == m.items.Keys;
    assert |after.Keys| == |after| && |m.items.Keys| == |m.items|;
  }

  lemma UntaggingEnds(m: Memory, tag: string)
    ensures Untagging(m, tag, {}) == AfterTabDeleted(m, tag)
  {
    assert Untagging(m, tag, {}).items == ShownAll(UntagAll(m.items, tag), m.previewsLoaded);
  }

  lemma IndexAfterForget(entries: seq<SearchEntry>, m: Memory, id: ItemId)
    requires IndexAgrees(entries, m) && id in m.items
    ensures IndexAgrees(Excluding(entries, {id}), AfterDelete(m, id))
  {
    ExcludingMembers(entries, {id});
  }

  lemma IndexAfterRemember(before: seq<SearchEntry>, after: seq<SearchEntry>, m: Memory, it: Item)
    requires IndexAgrees(before, m) && it.id in m.ord
    requires forall e :: e in after ==>
               (m.previewsLoaded && e == EntryOf(it, m.ord[it.id]))
               || (e in before && (m.previewsLoaded ==> e.id != it.id))
    ensures IndexAgrees(after, Remembered(m, it))
  {
  }

  lemma EmptyMemoryAgrees(events: seq<StoreEvent>)
    ensures Agrees(Memory(map[], {}, map[], map[], {}, true), events)
       <==> Replay(events).items == map[] && Replay(events).tabs == {}
  {
    ReplayCoherent(events);
    assert ShownAll(map[], true) == map[];
    if Replay(events).items == map[] {
      assert Replay(events).ord.Keys == {};
      assert Replay(events).ord == map[];
    }
    if ShownAll(Replay(events).items, true) == map[] {
      assert forall id :: id in Replay(events).items ==> id in ShownAll(Replay(events).items, true);
      assert Replay(events).items == map[];
    }
  }
}
